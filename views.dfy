/**
 * `UserViewSet` (users/views.py): which serializer and which permission each
 * action gets, the read-only `confirm_reset` probe of a reset token, and
 * `deactivate_account`.
 */
module Views {
  import opened Wrappers
  import opened Signing
  import opened Models
  import opened Serializers

  datatype SerializerClass = UserSerializerClass | UserCreateSerializerClass

  /** `get_serializer_class`; `action` is `None` when the router bound no action. */
  function GetSerializerClass(action: Option<string>): (c: SerializerClass)
    ensures c == UserCreateSerializerClass <==> action == Some("create")
    ensures c == UserSerializerClass <==> action != Some("create")
  {
    if action == Some("create") then UserCreateSerializerClass else UserSerializerClass
  }

  datatype Permission = AllowAny | IsAuthenticated

  /** Whether a permission lets a request through. */
  predicate Permits(p: Permission, authenticated: bool)
  {
    p == AllowAny || authenticated
  }

  /** The list `get_permissions` tests the action against. */
  const PublicActions: seq<string> := ["create", "login", "reset_password", "confirm_reset", "confirm_password_reset"]

  /** `get_permissions`, reduced to the one permission class it instantiates. */
  function GetPermissions(action: Option<string>): (p: Permission)
    ensures p == AllowAny <==>
              action == Some("create") || action == Some("login") || action == Some("reset_password") ||
              action == Some("confirm_reset") || action == Some("confirm_password_reset")
  {
    if action.Some? && action.value in PublicActions then AllowAny else IsAuthenticated
  }

  /**
   * The `permission_classes` each `@action` decorator of the view set
   * declares; `get_permissions` overrides them.
   */
  function DecoratedPermission(action: string): (p: Option<Permission>)
    ensures p.Some? <==> action in ["login", "logout", "reset_password", "confirm_reset",
                                    "confirm_password_reset", "deactivate_account"]
    ensures p == Some(IsAuthenticated) <==> action == "logout" || action == "deactivate_account"
  {
    match action
    case "login" => Some(AllowAny)
    case "logout" => Some(IsAuthenticated)
    case "reset_password" => Some(AllowAny)
    case "confirm_reset" => Some(AllowAny)
    case "confirm_password_reset" => Some(AllowAny)
    case "deactivate_account" => Some(IsAuthenticated)
    case _ => None
  }

  /** The override agrees with every decorator, so the decorators' intent is kept. */
  lemma PermissionsAgreeWithDecorators(action: string)
    requires DecoratedPermission(action).Some?
    ensures GetPermissions(Some(action)) == DecoratedPermission(action).value
  {
  }

  /** Logout, deactivation and every CRUD action apart from `create` need an authenticated user. */
  lemma ProtectedActions(action: string)
    requires action in ["logout", "deactivate_account", "list", "retrieve", "update", "partial_update", "destroy"]
    ensures !Permits(GetPermissions(Some(action)), false)
  {
  }

  /** The `token` query parameter: missing, empty, or a token. */
  datatype QueryToken = Absent | Blank | Present(token: Token)

  const NoTokenGiven: string := "Token no proporcionado"
  const InvalidOrExpired: string := "Token inválido o expirado"

  /** 200 with the echoed token, or 400 with an error message. */
  datatype ProbeResponse = TokenValid(token: Token) | BadRequest(error: string)

  /**
   * `confirm_reset` at time `now`. Every failure inside the `try` block, an
   * undecodable token and a missing account among them, ends in the same
   * 400 response.
   */
  function ConfirmResetProbe(users: Users, q: QueryToken, now: Time): (r: ProbeResponse)
    ensures !q.Present? ==> r == BadRequest(NoTokenGiven)
    ensures q.Present? ==> (r.TokenValid? <==> TokenAccepted(users, q.token, now))
    ensures r.TokenValid? ==> q.Present? && r.token == q.token
    ensures q.Present? && !r.TokenValid? ==> r == BadRequest(InvalidOrExpired)
  {
    match q
    case Absent => BadRequest(NoTokenGiven)
    case Blank => BadRequest(NoTokenGiven)
    case Present(token) =>
      match Loads(token, ResetSalt, ResetMaxAge, now)
      case None => BadRequest(InvalidOrExpired)
      case Some(email) =>
        if email !in users then BadRequest(InvalidOrExpired)
        else
          var user := users[email];
          if user.resetToken != Some(token) || user.resetTokenExpiresAt.None? || user.resetTokenExpiresAt.value < now
          then BadRequest(InvalidOrExpired)
          else TokenValid(token)
  }

  /** The table after `deactivate_account` by the authenticated account `email`. */
  function Deactivate(users: Users, email: Email): (u: Users)
    requires email in users
    ensures u.Keys == users.Keys
    ensures !u[email].isActive
    ensures u[email].(isActive := users[email].isActive) == users[email]
    ensures forall e | e in users && e != email :: u[e] == users[e]
  {
    users[email := users[email].(isActive := false)]
  }

  /** Deactivating twice is deactivating once. */
  lemma DeactivateIdempotent(users: Users, email: Email)
    requires email in users
    ensures Deactivate(Deactivate(users, email), email) == Deactivate(users, email)
  {
  }

  /** Deactivation keeps the table's invariant. */
  lemma DeactivatePreservesInvariant(users: Users, nextId: nat, email: Email)
    requires StoreInvariant(users, nextId) && email in users
    ensures StoreInvariant(Deactivate(users, email), nextId)
  {
  }

  /**
   * `deactivate_account`: `request.user` is the authenticated account, which
   * exists; the response carries its id.
   */
  method DeactivateAccount(db: UserManager, email: Email) returns (userId: nat)
    requires db.Valid() && email in db.users
    modifies db
    ensures db.Valid()
    ensures db.users == Deactivate(old(db.users), email) && db.nextId == old(db.nextId)
    ensures userId == old(db.users)[email].id
  {
    var user := db.users[email];
    user := user.(isActive := false);
    db.Update(user);
    userId := user.id;
  }
}
