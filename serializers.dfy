/**
 * The serializers of users/serializers.py that carry logic: account creation
 * through the API, the login check, the reset request (validate the email,
 * store a fresh token, mail the link) and the reset confirmation (check the
 * password pair, decode the token, cross-check it against the stored one,
 * set the password and clear the reset fields).
 */
module Serializers {
  import opened Wrappers
  import opened Signing
  import Bcrypt
  import opened Models

  /** `timezone.timedelta(hours=1)`, in seconds: how long a stored token stays usable. */
  const ResetLifetime: int := 3600

  const InvalidCredentials: string := "Credenciales inválidas"
  const InactiveAccount: string := "Cuenta de usuario inactiva"

  /** The fields `UserSerializer` exposes. */
  datatype UserData = UserData(id: nat, email: Email, fullName: string, dateCreated: Time, isActive: bool)

  /** `UserSerializer(user).data`: the five listed fields, and nothing about the password or a reset. */
  function UserDataOf(a: Account): (d: UserData)
    ensures d.id == a.id && d.email == a.email && d.fullName == a.fullName
    ensures d.dateCreated == a.dateCreated && d.isActive == a.isActive
  {
    UserData(a.id, a.email, a.fullName, a.dateCreated, a.isActive)
  }

  /**
   * What `LoginSerializer.validate` yields: the serialized user beside a fresh
   * JWT pair (the tokens themselves are not modelled), a `ValidationError`
   * message, or the `ValueError` of `check_password` on an account whose
   * password was never set.
   */
  datatype LoginResult = Tokens(user: UserData) | Rejected(message: string) | LoginCrash

  /**
   * The characters Python's `str.isspace` accepts, which `str.strip()` removes
   * from both ends.
   */
  predicate IsWhitespace(c: char)
  {
    var n := c as int;
    || 9 <= n <= 13 || 28 <= n <= 32 || n == 0x85 || n == 0xA0 || n == 0x1680
    || 0x2000 <= n <= 0x200A || n == 0x2028 || n == 0x2029 || n == 0x202F
    || n == 0x205F || n == 0x3000
  }

  /** `s.lstrip()`. */
  function TrimStart(s: string): (t: string)
    ensures |t| <= |s| && t == s[|s| - |t|..]
    ensures t == [] || !IsWhitespace(t[0])
    ensures forall i | 0 <= i < |s| - |t| :: IsWhitespace(s[i])
  {
    if s != [] && IsWhitespace(s[0]) then TrimStart(s[1..]) else s
  }

  /** `s.rstrip()`. */
  function TrimEnd(s: string): (t: string)
    ensures |t| <= |s| && t == s[..|t|]
    ensures t == [] || !IsWhitespace(t[|t| - 1])
    ensures forall i | |t| <= i < |s| :: IsWhitespace(s[i])
  {
    if s != [] && IsWhitespace(s[|s| - 1]) then TrimEnd(s[..|s| - 1]) else s
  }

  /**
   * `s.strip()`, which DRF's `CharField` and `EmailField` apply to the request
   * data before `validate` sees it (`trim_whitespace` defaults to true).
   */
  function Trim(s: string): (t: string)
    ensures t == [] || (!IsWhitespace(t[0]) && !IsWhitespace(t[|t| - 1]))
    ensures exists i, j | 0 <= i <= j <= |s| ::
              && t == s[i..j]
              && (forall k | 0 <= k < i :: IsWhitespace(s[k]))
              && (forall k | j <= k < |s| :: IsWhitespace(s[k]))
  {
    var l := TrimStart(s);
    var t := TrimEnd(l);
    assert t == s[|s| - |l|..|s| - |l| + |t|];
    t
  }

  /** Stripping twice is stripping once. */
  lemma TrimIdempotent(s: string)
    ensures Trim(Trim(s)) == Trim(s)
  {
    var t := Trim(s);
    if t != [] {
      assert TrimStart(t) == t;
      assert TrimEnd(t) == t;
    }
  }

  /** Leading whitespace in front of an already stripped string is stripped away. */
  lemma TrimPadded(s: string)
    requires Trim(s) == s
    ensures Trim(" " + s) == s
  {
    assert (" " + s)[1..] == s;
    assert TrimStart(s) == s;
  }

  /** `LoginSerializer.validate` on the stripped fields: lookup, then the active flag, then the password. */
  function ValidateLogin(users: Users, email: Email, password: string): (r: LoginResult)
    ensures r.Tokens? <==> email in users && users[email].isActive && CheckPassword(users[email], password) == Some(true)
    ensures r.Tokens? ==> r.user == UserDataOf(users[email])
    ensures email !in users ==> r == Rejected(InvalidCredentials)
    ensures email in users && !users[email].isActive ==> r == Rejected(InactiveAccount)
    ensures email in users && users[email].isActive ==>
              (r == LoginCrash <==> users[email].password.Unset?) &&
              (CheckPassword(users[email], password) == Some(false) ==> r == Rejected(InvalidCredentials))
  {
    if email !in users then Rejected(InvalidCredentials)
    else
      var user := users[email];
      if !user.isActive then Rejected(InactiveAccount)
      else match CheckPassword(user, password)
        case None => LoginCrash
        case Some(false) => Rejected(InvalidCredentials)
        case Some(true) => Tokens(UserDataOf(user))
  }

  /**
   * `UserCreateSerializer.create`: `create_user` with the validated fields,
   * `is_active` defaulting to true when the request leaves it out.
   */
  method CreateAccount(db: UserManager, normalize: string -> string, email: string, fullName: string,
                       password: string, isActive: Option<bool>, salt: Bcrypt.Salt, now: Time)
    returns (r: Creation)
    requires db.Valid()
    modifies db
    ensures db.Valid()
    ensures var active := if isActive.Some? then isActive.value else true;
            var s := CreateUserEffect(old(db.users), old(db.nextId), normalize, email, fullName, Some(password), active, salt, now);
            r == s.result && db.users == s.users && db.nextId == s.nextId
  {
    var active := if isActive.Some? then isActive.value else true;
    r := db.CreateUser(normalize, email, fullName, Some(password), active, salt, now);
  }

  /** The failures of the reset protocol, each with the message the source raises. */
  datatype ResetError =
    | NoAccountForEmail
    | MailError
    | PasswordMismatch
    | InvalidOrExpiredToken
    | UserNotFound
    | TokenExpired
    | ExpiryUnset

  function Message(e: ResetError): string
  {
    match e
    case NoAccountForEmail => "No existe un usuario con este correo electrónico"
    case MailError => "Error enviando correo"
    case PasswordMismatch => "Las contraseñas no coinciden"
    case InvalidOrExpiredToken => "Token inválido o expirado"
    case UserNotFound => "Usuario no encontrado"
    case TokenExpired => "Token expirado"
    // `None < datetime` raises TypeError: a server error without a message
    case ExpiryUnset => ""
  }

  /** A delivered reset mail: its recipient and the token its link carries. */
  datatype Mail = ResetMail(to: Email, token: Token)

  /** The table after a reset step, the mail it delivered if any, and its verdict. */
  datatype ResetStep = ResetStep(users: Users, mail: Option<Mail>, outcome: Outcome<ResetError>)

  /**
   * The token a confirmation accepts at time `now`: it verifies, carries the
   * reset salt and is at most an hour old, its payload names an account, that
   * account stores exactly this token, and the stored expiry is set and not
   * in the past.
   */
  predicate TokenAccepted(users: Users, t: Token, now: Time)
  {
    && t.validSig && t.salt == ResetSalt && now - t.issuedAt <= ResetMaxAge
    && t.payload in users
    && users[t.payload].resetToken == Some(t)
    && users[t.payload].resetTokenExpiresAt.Some?
    && now <= users[t.payload].resetTokenExpiresAt.value
  }

  /** `PasswordResetSerializer.validate_email`. */
  function ValidateEmail(users: Users, email: Email): (r: Outcome<ResetError>)
    ensures r.Pass? <==> email in users
    ensures r.Fail? ==> r.error == NoAccountForEmail
  {
    if email in users then Pass else Fail(NoAccountForEmail)
  }

  /**
   * `validate_email` followed by `PasswordResetSerializer.create` at time
   * `now`; `mailOk` says whether `send_mail` returned or raised.
   */
  function RequestReset(users: Users, email: Email, now: Time, mailOk: bool): (s: ResetStep)
    ensures email !in users ==> s == ResetStep(users, None, Fail(NoAccountForEmail))
    ensures email in users ==>
      var a := users[email];
      var t := Dumps(a.email, ResetSalt, now);
      && s.users.Keys == users.Keys
      && (forall e | e in users && e != email :: s.users[e] == users[e])
      && s.users[email].resetToken == Some(t)
      && s.users[email].resetTokenExpiresAt == Some(now + ResetLifetime)
      && s.users[email].(resetToken := a.resetToken, resetTokenExpiresAt := a.resetTokenExpiresAt) == a
      && (s.outcome.Pass? <==> mailOk)
      && (!mailOk ==> s.outcome == Fail(MailError) && s.mail == None)
      && (mailOk ==> s.mail == Some(ResetMail(email, t)))
  {
    match ValidateEmail(users, email)
    case Fail(err) => ResetStep(users, None, Fail(err))
    case Pass =>
      var user := users[email];
      var token := Dumps(user.email, ResetSalt, now);
      var user := user.(resetToken := Some(token), resetTokenExpiresAt := Some(now + ResetLifetime));
      var saved := users[email := user];
      if mailOk then ResetStep(saved, Some(ResetMail(email, token)), Pass)
      else ResetStep(saved, None, Fail(MailError))
  }

  /** `PasswordConfirmResetSerializer.validate`. */
  function ValidatePasswordPair(newPassword: string, confirmPassword: string): (r: Outcome<ResetError>)
    ensures r.Pass? <==> newPassword == confirmPassword
    ensures r.Fail? ==> r.error == PasswordMismatch
  {
    if newPassword != confirmPassword then Fail(PasswordMismatch) else Pass
  }

  /**
   * `validate` followed by `PasswordConfirmResetSerializer.create` at time
   * `now`, with `salt` the value `gensalt()` draws for the new password.
   */
  function ConfirmReset(users: Users, token: Token, newPassword: string, confirmPassword: string,
                        now: Time, salt: Bcrypt.Salt): (s: ResetStep)
    ensures s.mail == None
    ensures newPassword != confirmPassword ==> s == ResetStep(users, None, Fail(PasswordMismatch))
    ensures s.outcome.Pass? <==> newPassword == confirmPassword && TokenAccepted(users, token, now)
    ensures s.outcome.Fail? ==> s.users == users
    ensures newPassword == confirmPassword && Loads(token, ResetSalt, ResetMaxAge, now).None? ==>
              s.outcome == Fail(InvalidOrExpiredToken)
    ensures newPassword == confirmPassword && Loads(token, ResetSalt, ResetMaxAge, now).Some? &&
            token.payload !in users ==>
              s.outcome == Fail(UserNotFound)
    ensures newPassword == confirmPassword && Loads(token, ResetSalt, ResetMaxAge, now).Some? &&
            token.payload in users &&
            (users[token.payload].resetToken != Some(token) ||
             (users[token.payload].resetTokenExpiresAt.Some? && users[token.payload].resetTokenExpiresAt.value < now)) ==>
              s.outcome == Fail(TokenExpired)
    ensures s.outcome.Pass? ==>
      var e := token.payload;
      var a := users[e];
      && s.users.Keys == users.Keys
      && (forall k | k in users && k != e :: s.users[k] == users[k])
      && s.users[e].resetToken == None && s.users[e].resetTokenExpiresAt == None
      && s.users[e].password == Hashed(Bcrypt.HashPw(newPassword, salt))
      && s.users[e].(password := a.password, resetToken := a.resetToken, resetTokenExpiresAt := a.resetTokenExpiresAt) == a
  {
    match ValidatePasswordPair(newPassword, confirmPassword)
    case Fail(err) => ResetStep(users, None, Fail(err))
    case Pass =>
      match Loads(token, ResetSalt, ResetMaxAge, now)
      case None => ResetStep(users, None, Fail(InvalidOrExpiredToken))
      case Some(email) =>
        if email !in users then ResetStep(users, None, Fail(UserNotFound))
        else
          var user := users[email];
          if user.resetToken != Some(token) then ResetStep(users, None, Fail(TokenExpired))
          else if user.resetTokenExpiresAt.None? then ResetStep(users, None, Fail(ExpiryUnset))
          else if user.resetTokenExpiresAt.value < now then ResetStep(users, None, Fail(TokenExpired))
          else
            var user := SetPassword(user, newPassword, salt).(resetToken := None, resetTokenExpiresAt := None);
            ResetStep(users[email := user], None, Pass)
  }

  /** The mail server: the reset mails delivered so far, oldest first. */
  class Outbox {
    var delivered: seq<Mail>

    constructor ()
      ensures delivered == []
    {
      delivered := [];
    }
  }

  /**
   * The `reset_password` action: `is_valid` runs `validate_email`, `save`
   * runs `create`, which stores the token before it tries to send the mail.
   */
  method RequestPasswordReset(db: UserManager, outbox: Outbox, email: Email, now: Time, mailOk: bool)
    returns (outcome: Outcome<ResetError>)
    requires db.Valid()
    modifies db, outbox
    ensures db.Valid()
    ensures var s := RequestReset(old(db.users), email, now, mailOk);
            && outcome == s.outcome && db.users == s.users && db.nextId == old(db.nextId)
            && outbox.delivered == old(outbox.delivered) + (if s.mail.Some? then [s.mail.value] else [])
  {
    outcome := ValidateEmail(db.users, email);
    if outcome.Fail? {
      return;
    }
    var user := db.users[email];
    var token := Dumps(user.email, ResetSalt, now);
    user := user.(resetToken := Some(token), resetTokenExpiresAt := Some(now + ResetLifetime));
    db.Update(user);
    if !mailOk {
      return Fail(MailError);
    }
    outbox.delivered := outbox.delivered + [ResetMail(email, token)];
  }

  /**
   * The `confirm_password_reset` action: `is_valid` runs `validate`, `save`
   * runs `create`. The stored-token check is the source's short-circuit
   * `reset_token != token or reset_token_expires_at < now`; the table's
   * invariant is what makes the expiry present whenever the comparison runs.
   */
  method ConfirmPasswordReset(db: UserManager, token: Token, newPassword: string, confirmPassword: string,
                              now: Time, salt: Bcrypt.Salt)
    returns (outcome: Outcome<ResetError>)
    requires db.Valid()
    modifies db
    ensures db.Valid()
    ensures var s := ConfirmReset(old(db.users), token, newPassword, confirmPassword, now, salt);
            outcome == s.outcome && db.users == s.users && db.nextId == old(db.nextId)
  {
    outcome := ValidatePasswordPair(newPassword, confirmPassword);
    if outcome.Fail? {
      return;
    }
    var email := Loads(token, ResetSalt, ResetMaxAge, now);
    if email.None? {
      return Fail(InvalidOrExpiredToken);
    }
    if email.value !in db.users {
      return Fail(UserNotFound);
    }
    var user := db.users[email.value];
    if user.resetToken != Some(token) || user.resetTokenExpiresAt.value < now {
      return Fail(TokenExpired);
    }
    user := SetPassword(user, newPassword, salt).(resetToken := None, resetTokenExpiresAt := None);
    db.Update(user);
  }
}
