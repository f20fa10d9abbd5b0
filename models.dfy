/**
 * The `User` model and its `UserManager` (users/models.py): the account
 * record, its field defaults, password hashing through bcrypt, and account
 * creation. The table behind `User.objects` is the class `UserManager`, whose
 * `users` map is keyed by the unique email column.
 */
module Models {
  import opened Wrappers
  import opened Signing
  import Bcrypt

  type Email = string

  /**
   * The `password` column: the empty string that `AbstractBaseUser` starts
   * with until `set_password` runs, or a bcrypt digest.
   */
  datatype StoredPassword = Unset | Hashed(digest: Bcrypt.Digest)

  /** One row of the `User` table. */
  datatype Account = Account(
    id: nat,
    email: Email,
    fullName: string,
    password: StoredPassword,
    dateCreated: Time,
    isActive: bool,
    isStaff: bool,
    isSuperuser: bool,
    resetToken: Option<Token>,
    resetTokenExpiresAt: Option<Time>)

  type Users = map<Email, Account>

  /** The table after an operation, together with what the operation returned. */
  datatype StoreAfter<+R> = StoreAfter(users: Users, nextId: nat, result: R)

  /** The reset fields are set and cleared together. */
  predicate ResetFieldsPaired(a: Account)
  {
    a.resetToken.None? <==> a.resetTokenExpiresAt.None?
  }

  /**
   * What every reachable table satisfies: each row sits under its own email
   * (the column is unique), its reset fields are paired, and primary keys are
   * distinct and below the next key to hand out.
   */
  predicate StoreInvariant(users: Users, nextId: nat)
  {
    && (forall e | e in users :: users[e].email == e && ResetFieldsPaired(users[e]) && users[e].id < nextId)
    && (forall e1, e2 | e1 in users && e2 in users && e1 != e2 :: users[e1].id != users[e2].id)
  }

  /** `User(email=..., full_name=...)` created at time `now`, before any field is overridden. */
  function NewRecord(id: nat, email: Email, fullName: string, now: Time): (a: Account)
    ensures a.email == email && a.fullName == fullName && a.dateCreated == now
    ensures a.isActive && !a.isStaff && !a.isSuperuser
    ensures a.password == Unset
    ensures a.resetToken == None && a.resetTokenExpiresAt == None
    ensures ResetFieldsPaired(a)
  {
    Account(id, email, fullName, Unset, now, true, false, false, None, None)
  }

  /** `user.set_password(raw)` with the salt `gensalt()` drew. */
  function SetPassword(a: Account, raw: string, salt: Bcrypt.Salt): (b: Account)
    ensures CheckPassword(b, raw) == Some(true)
    ensures b.(password := a.password) == a
  {
    a.(password := Hashed(Bcrypt.HashPw(raw, salt)))
  }

  /**
   * `user.check_password(raw)`; `None` stands for the `ValueError` bcrypt
   * raises when the stored password is still the empty string.
   */
  function CheckPassword(a: Account, raw: string): (r: Option<bool>)
    ensures r.None? <==> a.password.Unset?
    ensures a.password.Hashed? ==> (r == Some(true) <==> Bcrypt.CheckPw(raw, a.password.digest))
  {
    match a.password
    case Unset => None
    case Hashed(d) => Some(Bcrypt.CheckPw(raw, d))
  }

  /** A password counts as given in `if password:` when it is present and non-empty. */
  predicate Truthy(password: Option<string>)
  {
    password.Some? && password.value != ""
  }

  datatype CreateError =
    | EmailRequired  // ValueError('Los usuarios deben tener un correo electrónico')
    | EmailTaken     // IntegrityError from the unique email column on save()

  datatype Creation = Created(account: Account) | NotCreated(error: CreateError)

  /** `UserManager.create_user(email, full_name, password, is_active)` on a table. */
  function CreateUserEffect(users: Users, nextId: nat, normalize: string -> string, email: string,
                            fullName: string, password: Option<string>, isActive: bool,
                            salt: Bcrypt.Salt, now: Time): (s: StoreAfter<Creation>)
    ensures email == "" ==> s == StoreAfter(users, nextId, NotCreated(EmailRequired))
    ensures email != "" && normalize(email) in users ==> s == StoreAfter(users, nextId, NotCreated(EmailTaken))
    ensures s.result.NotCreated? ==> s.users == users && s.nextId == nextId
    ensures email != "" && normalize(email) !in users ==>
      && s.result.Created?
      && var a := s.result.account;
      && a.id == nextId && a.email == normalize(email) && a.fullName == fullName
      && a.isActive == isActive && !a.isStaff && !a.isSuperuser && a.dateCreated == now
      && a.resetToken == None && a.resetTokenExpiresAt == None
      && (a.password == Unset <==> !Truthy(password))
      && (Truthy(password) ==> a.password == Hashed(Bcrypt.HashPw(password.value, salt)))
      && s.users == users[a.email := a] && s.nextId == nextId + 1
  {
    if email == "" then StoreAfter(users, nextId, NotCreated(EmailRequired))
    else
      var user := NewRecord(nextId, normalize(email), fullName, now).(isActive := isActive);
      var user := if Truthy(password) then SetPassword(user, password.value, salt) else user;
      if user.email in users then StoreAfter(users, nextId, NotCreated(EmailTaken))
      else StoreAfter(users[user.email := user], nextId + 1, Created(user))
  }

  /** `UserManager.create_superuser(email, full_name, password)` on a table. */
  function CreateSuperuserEffect(users: Users, nextId: nat, normalize: string -> string, email: string,
                                 fullName: string, password: string,
                                 salt: Bcrypt.Salt, now: Time): (s: StoreAfter<Creation>)
    ensures s.result.Created? <==> email != "" && normalize(email) !in users
    ensures s.result.NotCreated? ==> s.users == users && s.nextId == nextId
    ensures s.result.Created? ==>
      && var a := s.result.account;
      && a.isActive && a.isStaff && a.isSuperuser
      && a.email == normalize(email) && a.fullName == fullName && a.id == nextId
      && a.resetToken == None && a.resetTokenExpiresAt == None
      && (password != "" ==> CheckPassword(a, password) == Some(true))
      && (a.password == Unset <==> password == "")
      && (password != "" ==> a.password == Hashed(Bcrypt.HashPw(password, salt)))
      && s.users == users[a.email := a] && s.nextId == nextId + 1
  {
    var s := CreateUserEffect(users, nextId, normalize, email, fullName, Some(password), true, salt, now);
    match s.result
    case NotCreated(_) => s
    case Created(user) =>
      var user := user.(isStaff := true, isSuperuser := true);
      StoreAfter(s.users[user.email := user], s.nextId, Created(user))
  }

  /** Creating an account keeps the table's invariant. */
  lemma CreateUserPreservesInvariant(users: Users, nextId: nat, normalize: string -> string, email: string,
                                     fullName: string, password: Option<string>, isActive: bool,
                                     salt: Bcrypt.Salt, now: Time)
    requires StoreInvariant(users, nextId)
    ensures var s := CreateUserEffect(users, nextId, normalize, email, fullName, password, isActive, salt, now);
            StoreInvariant(s.users, s.nextId)
  {
  }

  /** So does creating a superuser. */
  lemma CreateSuperuserPreservesInvariant(users: Users, nextId: nat, normalize: string -> string, email: string,
                                          fullName: string, password: string, salt: Bcrypt.Salt, now: Time)
    requires StoreInvariant(users, nextId)
    ensures var s := CreateSuperuserEffect(users, nextId, normalize, email, fullName, password, salt, now);
            StoreInvariant(s.users, s.nextId)
  {
  }

  /** The `User` table, reached through `User.objects`. */
  class UserManager {
    var users: Users
    var nextId: nat

    ghost predicate Valid()
      reads this
    {
      StoreInvariant(users, nextId)
    }

    /** An empty table; primary keys start at 1. */
    constructor ()
      ensures Valid() && users == map[] && nextId == 1
    {
      users := map[];
      nextId := 1;
    }

    /**
     * `save()` of a record not yet in the table: the database hands out the
     * next primary key; an email already present violates the unique
     * constraint and nothing is written.
     */
    method Insert(a: Account) returns (saved: Option<Account>)
      requires Valid()
      requires ResetFieldsPaired(a)
      modifies this
      ensures Valid()
      ensures a.email in old(users) ==> saved == None && users == old(users) && nextId == old(nextId)
      ensures a.email !in old(users) ==>
        && saved == Some(a.(id := old(nextId)))
        && users == old(users)[a.email := a.(id := old(nextId))]
        && nextId == old(nextId) + 1
    {
      if a.email in users {
        return None;
      }
      var row := a.(id := nextId);
      users := users[a.email := row];
      nextId := nextId + 1;
      saved := Some(row);
    }

    /** `save()` of a record already in the table: its row is overwritten. */
    method Update(a: Account)
      requires Valid()
      requires a.email in users && users[a.email].id == a.id && ResetFieldsPaired(a)
      modifies this
      ensures Valid()
      ensures users == old(users)[a.email := a] && nextId == old(nextId)
    {
      users := users[a.email := a];
    }

    method CreateUser(normalize: string -> string, email: string, fullName: string,
                      password: Option<string>, isActive: bool, salt: Bcrypt.Salt, now: Time)
      returns (r: Creation)
      requires Valid()
      modifies this
      ensures Valid()
      ensures var s := CreateUserEffect(old(users), old(nextId), normalize, email, fullName, password, isActive, salt, now);
              r == s.result && users == s.users && nextId == s.nextId
    {
      if email == "" {
        return NotCreated(EmailRequired);
      }
      var user := NewRecord(nextId, normalize(email), fullName, now).(isActive := isActive);
      if Truthy(password) {
        user := SetPassword(user, password.value, salt);
      }
      var saved := Insert(user);
      if saved.None? {
        return NotCreated(EmailTaken);
      }
      r := Created(saved.value);
    }

    method CreateSuperuser(normalize: string -> string, email: string, fullName: string,
                           password: string, salt: Bcrypt.Salt, now: Time)
      returns (r: Creation)
      requires Valid()
      modifies this
      ensures Valid()
      ensures var s := CreateSuperuserEffect(old(users), old(nextId), normalize, email, fullName, password, salt, now);
              r == s.result && users == s.users && nextId == s.nextId
    {
      r := CreateUser(normalize, email, fullName, Some(password), true, salt, now);
      if r.Created? {
        var user := r.account.(isStaff := true, isSuperuser := true);
        Update(user);
        r := Created(user);
      }
    }
  }
}
