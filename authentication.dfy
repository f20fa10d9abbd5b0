/**
 * `CustomAuthView.post` (authentication/views.py): the second login endpoint,
 * which checks the password before the active flag.
 */
module Authentication {
  import opened Wrappers
  import opened Models
  import Bcrypt
  import Serializers

  const UnknownUser: string := "Usuario no encontrado"
  const WrongPassword: string := "Contraseña incorrecta"
  const InactiveUser: string := "Cuenta de usuario inactiva"

  /**
   * 200 with the account's id, email and full name (beside a JWT pair, not
   * modelled), a refusal with its status and message, or the server error of
   * an exception the view does not catch.
   */
  datatype AuthResponse =
    | Authenticated(id: nat, email: Email, fullName: string)
    | Refused(status: nat, error: string)
    | ServerError

  /**
   * `post` on request fields `email` and `password`, each `None` when the
   * body leaves it out: `User.objects.get(email=None)` finds nothing, and
   * `check_password(None)` raises, as does bcrypt on a password never set.
   */
  function CustomAuthPost(users: Users, email: Option<string>, password: Option<string>): (r: AuthResponse)
    ensures email.None? || email.value !in users ==> r == Refused(404, UnknownUser)
    ensures email.Some? && email.value in users && password.Some? ==>
              var a := users[email.value];
              && (CheckPassword(a, password.value) == Some(false) ==> r == Refused(401, WrongPassword))
              && (CheckPassword(a, password.value) == Some(true) && !a.isActive ==> r == Refused(403, InactiveUser))
              && (CheckPassword(a, password.value) == None ==> r == ServerError)
    ensures email.Some? && email.value in users && password.None? ==> r == ServerError
    ensures r.Authenticated? <==>
              email.Some? && email.value in users && password.Some? &&
              CheckPassword(users[email.value], password.value) == Some(true) && users[email.value].isActive
    ensures r.Authenticated? ==>
              var a := users[email.value];
              r == Authenticated(a.id, a.email, a.fullName)
  {
    if email.None? || email.value !in users then Refused(404, UnknownUser)
    else
      var user := users[email.value];
      if password.None? then ServerError
      else match CheckPassword(user, password.value)
        case None => ServerError
        case Some(false) => Refused(401, WrongPassword)
        case Some(true) =>
          if !user.isActive then Refused(403, InactiveUser)
          else Authenticated(user.id, user.email, user.fullName)
  }

  /**
   * The two login endpoints accept exactly the same credentials, an active
   * account with the right password, as long as the request fields carry no
   * surrounding whitespace: the serializer sees them stripped, the view raw.
   */
  lemma LoginEndpointsAgreeOnSuccess(users: Users, email: Email, password: string)
    requires Serializers.Trim(email) == email && Serializers.Trim(password) == password
    ensures Serializers.ValidateLogin(users, Serializers.Trim(email), Serializers.Trim(password)).Tokens?
            <==> CustomAuthPost(users, Some(email), Some(password)).Authenticated?
  {
  }

  /**
   * With a leading space the endpoints part ways: the serializer strips it and
   * logs the account in, the view hashes it along and answers 401.
   */
  lemma PaddedPasswordDiffers(users: Users, email: Email, password: string, salt: Bcrypt.Salt)
    requires email in users && users[email].isActive
    requires users[email].password == Hashed(Bcrypt.HashPw(password, salt))
    requires Serializers.Trim(password) == password && |password| < Bcrypt.KeyLimit
    ensures Serializers.ValidateLogin(users, email, Serializers.Trim(" " + password)).Tokens?
    ensures CustomAuthPost(users, Some(email), Some(" " + password)) == Refused(401, WrongPassword)
  {
    var a := users[email];
    assert Serializers.ValidateLogin(users, email, Serializers.Trim(" " + password)).Tokens? by {
      Serializers.TrimPadded(password);
      assert CheckPassword(a, password) == Some(true);
    }
    assert CheckPassword(a, " " + password) == Some(false) by {
      assert |Bcrypt.Key(" " + password)| != |Bcrypt.Key(password)|;
    }
  }

  /**
   * They disagree on an inactive account with a wrong password: the
   * serializer reports the inactive account, the view a wrong password.
   */
  lemma InactiveWrongPasswordDiffers(users: Users, email: Email, password: string)
    requires email in users && !users[email].isActive
    requires CheckPassword(users[email], password) == Some(false)
    ensures Serializers.ValidateLogin(users, email, password) == Serializers.Rejected(Serializers.InactiveAccount)
    ensures CustomAuthPost(users, Some(email), Some(password)) == Refused(401, WrongPassword)
  {
  }
}
