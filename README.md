# Password reset and account decisions of a Django user backend, in Dafny

This project models the user-management core of a Django REST backend whose
accounts are identified by email. The account table is a map from email to
an `Account` row with these fields:

- id and full name;
- the bcrypt password;
- `is_active`, `is_staff` and `is_superuser`;
- the two reset fields `reset_token` and `reset_token_expires_at`.

Time is an integer number of seconds passed in by the caller.

The heart of the model is the three-step password-reset protocol:

1. **Request** (`PasswordResetSerializer`): store a signed token and an expiry
   one hour ahead on the account, then mail the link.
2. **Probe** (`UserViewSet.confirm_reset`): a read-only check of the token.
   It verifies the signature, salt and age, then cross-checks the token and
   expiry stored on the account.
3. **Confirm** (`PasswordConfirmResetSerializer`): check the password pair,
   re-run both checks, set the new password and clear both reset fields.

Around it sit:

- the two login decisions (`LoginSerializer.validate` and `CustomAuthView.post`),
  which test "active" and "password" in opposite orders;
- the view set's permission and serializer dispatch;
- account creation in `UserManager`;
- the idempotent `seed_user` command.

Modules follow the source files:

- `Signing`: the itsdangerous tokens.
- `Bcrypt`: password digests.
- `Models` (users/models.py): the table is the class `UserManager`, with
  fields `users` and `nextId`.
- `Serializers` (users/serializers.py).
- `Views` (users/views.py).
- `Authentication` (authentication/views.py).
- `SeedUser` (the management command).
- `ResetProtocol`: lemmas relating several reset calls.
- `Lifecycle`: whole histories of writes to the table.

Each operation that writes to the table has two parts:

- a pure function that defines its effect, which the lemmas are about;
- an imperative method that does what the source does step by step. The
  row-level saves are methods of the `UserManager` object; the serializer,
  view and command operations are module-level methods that take it as
  `db`. Each method's `ensures` ties the new table to that function
  applied to the old table.

The table's invariant (`StoreInvariant`) has three parts:

- each row sits under its own email;
- the token field is null exactly when the expiry field is null;
- primary keys are distinct.

Every method keeps the invariant. `Lifecycle.RunKeepsHealthy` shows that every
history of the modelled writes keeps it.

Two behaviours of the code are worth stating outright:

- A failed confirmation answers "Token inválido o expirado" when decoding
  fails, "Usuario no encontrado" when the account is missing, and "Token
  expirado" when the stored-token check fails (users/serializers.py:146-158).
  Only the probe answers every failure with the one message "Token inválido
  o expirado" (users/views.py:78-101).
- Two requests in the same second issue the same token
  (`SameSecondRequestsCoincide`).

## Model

| member | source | states |
|---|---|---|
| `Signing.Dumps` | users/serializers.py:97-99 | an issued token carries its payload and salt, is stamped with the current second, and its signature verifies |
| `Signing.Loads` | users/serializers.py:146-148 | `loads` yields the payload exactly when the signature verifies, the salt matches and the token is at most `max_age` seconds old |
| `Signing.LoadsDumps` | users/serializers.py:97-99 | an issued token decodes to its payload under its own salt for exactly `max_age` seconds |
| `Signing.LoadsRejectsOtherSalt` | users/serializers.py:146 | a token signed under another salt never decodes as a reset token |
| `Signing.DumpsDistinctExactlyByTime` | users/serializers.py:99 | two tokens for one email are equal exactly when issued in the same second |
| `Bcrypt.Key` | users/models.py:64-67 | bcrypt consumes the first 72 characters of the password, all of a shorter one |
| `Bcrypt.HashPw` | users/models.py:64-67 | a digest records the salt it was made with and depends on the password only through its first 72 characters |
| `Bcrypt.CheckPw` | users/models.py:69-73 | `checkpw` accepts exactly the passwords whose first 72 characters the digest recorded |
| `Bcrypt.CheckHashPw` | users/models.py:64-73 | `checkpw(p, hashpw(p, salt))` holds for every password and salt |
| `Bcrypt.TruncationCollision` | users/models.py:69-73 | passwords that share their first 72 characters are accepted by each other's digests |
| `Bcrypt.CheckPwNotInjective` | users/models.py:69-73 | a digest accepts some password other than the one it was made from |
| `Models.NewRecord` | users/models.py:44-53 | a new row is active, not staff, not superuser, has no password yet, has both reset fields null, and so has them paired |
| `Models.SetPassword` | users/models.py:64-67 | after `set_password(p)`, `check_password(p)` is true, and no other field changes |
| `Models.CheckPassword` | users/models.py:69-73 | `check_password` raises exactly when no password was ever set (bcrypt refuses the empty hash), and otherwise is true exactly when the stored digest accepts the password |
| `Models.CreateUserEffect` | users/models.py:14-28 | an empty email raises and writes nothing. A taken normalized email writes nothing. Otherwise one row is added under the normalized email, with the given name and active flag and the next id. It is not staff, has null reset fields, and gets a password exactly when the given one is truthy. |
| `Models.CreateSuperuserEffect` | users/models.py:31-41 | a created superuser is active, staff and superuser, and is the only row added. A non-empty password is accepted afterwards; an empty one leaves the password unset. |
| `Models.CreateUserPreservesInvariant` | users/models.py:18-27 | creating an account keeps the table's invariant |
| `Models.CreateSuperuserPreservesInvariant` | users/models.py:31-41 | creating a superuser keeps the table's invariant |
| `Models.UserManager.constructor` | users/models.py:55 | the table starts empty and valid |
| `Models.UserManager.Insert` | users/models.py:27 | saving a new row gives it the next id. A taken email writes nothing. |
| `Models.UserManager.Update` | users/models.py:40 | saving an existing row overwrites only that row |
| `Models.UserManager.CreateUser` | users/models.py:14-28 | the imperative `create_user` leaves the table described by `CreateUserEffect` and keeps the invariant |
| `Models.UserManager.CreateSuperuser` | users/models.py:31-41 | the imperative `create_superuser` leaves the table described by `CreateSuperuserEffect` |
| `Serializers.TrimStart` | users/serializers.py:38-40 | `lstrip` removes a prefix made only of whitespace and leaves a string that does not start with whitespace |
| `Serializers.TrimEnd` | users/serializers.py:38-40 | `rstrip` removes a suffix made only of whitespace and leaves a string that does not end with whitespace |
| `Serializers.Trim` | users/serializers.py:38-40 | the `CharField`/`EmailField` stripping removes only whitespace, from both ends, and leaves a string that neither starts nor ends with whitespace |
| `Serializers.UserDataOf` | users/serializers.py:13-17 | the serialized user carries the account's id, email, full name, creation date and active flag |
| `Serializers.TrimIdempotent` | users/serializers.py:38-40 | stripping a stripped field changes nothing |
| `Serializers.TrimPadded` | users/serializers.py:38-40 | a leading space in front of a stripped field is removed |
| `Serializers.ValidateLogin` | users/serializers.py:42-62 | an unknown email is "Credenciales inválidas". An inactive account is "Cuenta de usuario inactiva", whatever the password. An active account with a wrong password is "Credenciales inválidas". Tokens come only for an active account with a correct password. They carry that account's serialized fields. |
| `Serializers.CreateAccount` | users/serializers.py:27-35 | the API's create runs `create_user`, with `is_active` defaulting to true |
| `Serializers.ValidateEmail` | users/serializers.py:86-91 | a reset request passes validation exactly when an account has that email |
| `Serializers.RequestReset` | users/serializers.py:86-126 | an unknown email changes nothing and sends no mail. Otherwise the account's token becomes `dumps(email, 'password-reset')` at `now` and its expiry `now + 3600`. No other field and no other account changes. The request succeeds and mails that token exactly when sending works. A failed send is an error, but the stored token remains. |
| `Serializers.ValidatePasswordPair` | users/serializers.py:134-137 | the pair passes exactly when both passwords are equal; otherwise "Las contraseñas no coinciden" |
| `Serializers.ConfirmReset` | users/serializers.py:134-166 | a mismatched pair is rejected with the table unchanged. The confirmation succeeds exactly when the pair matches and the token is accepted (`TokenAccepted`). On success only the token's account changes: its password becomes the new one and both reset fields become null. On failure nothing changes. With a matching pair, a token that does not decode fails with "Token inválido o expirado", one whose account is missing with "Usuario no encontrado", and one that differs from the stored token or whose stored expiry is past with "Token expirado". |
| `Serializers.Outbox.constructor` | users/serializers.py:110-122 | the log of delivered reset mails starts empty |
| `Serializers.RequestPasswordReset` | users/serializers.py:93-126 | the imperative request saves the token before sending. It leaves the table described by `RequestReset` and appends the mail only when sending works. |
| `Serializers.ConfirmPasswordReset` | users/serializers.py:139-166 | the imperative confirmation leaves the table described by `ConfirmReset`. Its expiry comparison is safe because the invariant keeps the expiry set beside a stored token. |
| `Views.GetSerializerClass` | users/views.py:24-27 | `create` selects `UserCreateSerializer`; every other action selects `UserSerializer` |
| `Views.DecoratedPermission` | users/views.py:37-117 | the six `@action`s declare a permission class: IsAuthenticated exactly for `logout` and `deactivate_account`, AllowAny for the others |
| `Views.GetPermissions` | users/views.py:30-35 | AllowAny exactly for `create`, `login`, `reset_password`, `confirm_reset` and `confirm_password_reset`; IsAuthenticated otherwise |
| `Views.PermissionsAgreeWithDecorators` | users/views.py:30-116 | for every `@action`, `get_permissions` grants the class its decorator declares |
| `Views.ProtectedActions` | users/views.py:30-35 | logout, deactivate_account and the CRUD actions other than create refuse unauthenticated requests |
| `Views.ConfirmResetProbe` | users/views.py:68-101 | a missing or empty token gives "Token no proporcionado". Otherwise the answer is 200 echoing the token exactly when it is accepted: it decodes, its account exists, the account stores this token, and the expiry is set and not past. Every other case, decode failures and missing accounts included, gives "Token inválido o expirado". |
| `Views.Deactivate` | users/views.py:117-121 | only the requesting account changes, and only its `is_active`, which becomes false |
| `Views.DeactivateIdempotent` | users/views.py:117-121 | deactivating twice equals deactivating once |
| `Views.DeactivatePreservesInvariant` | users/views.py:117-121 | deactivation keeps the table's invariant |
| `Views.DeactivateAccount` | users/views.py:116-126 | the imperative action leaves the table described by `Deactivate` and returns the account's id |
| `Authentication.CustomAuthPost` | authentication/views.py:14-46 | an unknown or missing email is 404 "Usuario no encontrado". A wrong password is 401, whatever the active flag. A correct password on an inactive account is 403 "Cuenta de usuario inactiva". A missing password or one never set is a server error. Only an active account with a correct password gets 200 with its id, email and full name. |
| `Authentication.LoginEndpointsAgreeOnSuccess` | authentication/views.py:14-46 | on request fields without surrounding whitespace, both login endpoints accept exactly the same credentials |
| `Authentication.PaddedPasswordDiffers` | authentication/views.py:16-29 | a password sent with a leading space logs in through the serializer, which strips it, but the view answers 401 |
| `Authentication.InactiveWrongPasswordDiffers` | authentication/views.py:26-34 | on an inactive account with a wrong password the serializer reports "inactive" and the view 401 |
| `SeedUser.SeedStep` | users/management/commands/seed_user.py:29-40 | an existing email leaves everything as it was. A missing one adds exactly one row under the next id, with the entry's name, flags and a password that is accepted, and appends its message. |
| `SeedUser.SeedAll` | users/management/commands/seed_user.py:28-40 | the loop never removes an account or a message, and it writes one message per id it hands out, at most one per entry |
| `SeedUser.SeedAllPrefix` | users/management/commands/seed_user.py:28-29 | running the loop over one more entry is one more iteration |
| `SeedUser.SeedRecord` | users/management/commands/seed_user.py:30-33 | a record built from a seed entry carries its email and id and has its reset fields paired |
| `SeedUser.SeedPreservesInvariant` | users/management/commands/seed_user.py:28-37 | seeding keeps the table's invariant |
| `SeedUser.SeedCreatesAll` | users/management/commands/seed_user.py:28-33 | after the loop every listed email has an account |
| `SeedUser.SeedKeepsExisting` | users/management/commands/seed_user.py:30-37 | an account that existed before seeding is untouched, password included |
| `SeedUser.SeedNoOpWhenPresent` | users/management/commands/seed_user.py:30-40 | when every listed email exists, seeding changes nothing and writes no message |
| `SeedUser.SeedIdempotent` | users/management/commands/seed_user.py:28-40 | a second run leaves the table as the first left it and writes nothing |
| `SeedUser.HandleOutcome` | users/management/commands/seed_user.py:12-40 | afterwards admin@ejemplo.com and usuario@ejemplo.com exist. A missing one is created with its listed password, and the admin with `is_staff`. One message is written per created account, in order. |
| `SeedUser.SeedOne` | users/management/commands/seed_user.py:29-40 | one imperative loop iteration equals one step of the seeding function |
| `SeedUser.Handle` | users/management/commands/seed_user.py:8-40 | the imperative loop leaves the table and messages described by `SeedAll` on the listed users |
| `ResetProtocol.RequestPreservesInvariant` | users/serializers.py:101-104 | a request keeps the token and expiry fields paired, and the rest of the invariant |
| `ResetProtocol.ConfirmPreservesInvariant` | users/serializers.py:161-164 | a confirmation keeps the invariant: both fields are cleared together |
| `ResetProtocol.RequestKeepsTokensIssued` | users/serializers.py:99-103 | every stored token was issued for its own account, with expiry one hour after issuance |
| `ResetProtocol.ConfirmKeepsTokensIssued` | users/serializers.py:161-164 | confirming never stores a token |
| `ResetProtocol.ConfirmNeverComparesUnsetExpiry` | users/serializers.py:157 | under the invariant, the expiry comparison never meets a null expiry |
| `ResetProtocol.UnpairedFieldsCrashConfirm` | users/serializers.py:157 | without the invariant it would: a stored token with a null expiry crashes the confirmation |
| `ResetProtocol.MismatchIgnoresToken` | users/serializers.py:134-137 | a mismatched pair gets the same rejection whatever the token, so no token work happens |
| `ResetProtocol.ProbeAgreesWithConfirm` | users/views.py:78-95 | the probe accepts a token exactly when a confirmation with a matching pair succeeds |
| `ResetProtocol.StoredExpiryMatchesMaxAge` | users/serializers.py:146-157 | for a stored token, the expiry check and the one-hour age check agree |
| `ResetProtocol.RequestThenConfirm` | users/serializers.py:99-164 | within an hour of a request, the issued token passes the probe and a matching confirmation succeeds |
| `ResetProtocol.SingleUse` | users/serializers.py:157-164 | after a successful confirmation, the same token fails a second confirmation ("Token expirado" once it decodes) and the probe |
| `ResetProtocol.OverwriteInvalidates` | users/serializers.py:102-157 | after a second request in another second, the first token fails the probe and every confirmation |
| `ResetProtocol.SameSecondRequestsCoincide` | users/serializers.py:99-103 | a second request in the same second leaves the table as it was |
| `ResetProtocol.StaleTokenRejected` | users/serializers.py:146-148 | a token more than an hour old fails the probe and the confirmation ("Token inválido o expirado"), whatever is stored |
| `ResetProtocol.MailFailureLeavesLiveToken` | users/serializers.py:101-124 | a failed send reports an error and mails nothing, yet the stored token passes the probe |
| `Lifecycle.Apply` | users/models.py:44-53 | no single modelled write deletes an account or lowers the next id. The writes are `create_user`/`create_superuser` (users/models.py:14-41), seeding (users/management/commands/seed_user.py:28-37), the reset request and confirmation saves (users/serializers.py:104, 164) and deactivation (users/views.py:121). |
| `Lifecycle.Run` | users/models.py:44-53 | no history of the modelled writes deletes an account or lowers the next id |
| `Lifecycle.SeedKeepsTokensIssued` | users/management/commands/seed_user.py:28-37 | seeding adds no pending token |
| `Lifecycle.ApplyKeepsHealthy` | users/models.py:14-41 | each kind of write keeps the invariant and the issued-token property: creation, seeding, request, confirmation, deactivation |
| `Lifecycle.RunKeepsHealthy` | users/models.py:44-53 | every history of the modelled writes from a healthy table keeps both properties |
| `Lifecycle.ReachableTablesAreSafe` | users/serializers.py:157 | in every table reachable from an empty one, confirmation never meets a null expiry, and a stored token's expiry agrees with its age |

## Left out

- Routing, the Swagger/Redoc schema views and the Django admin (crud/urls.py, authentication/urls.py): configuration without logic.
- itsdangerous internals: HMAC, base64 and the text format of tokens. A token is data with an abstract `validSig` flag. itsdangerous' rejection of tokens dated in the future is not modelled, so `Signing.Loads` accepts any token whose age is at most `max_age`, including negative ages.
- Second-resolution timestamps versus the microsecond `timezone.now()`: both are one integer clock.
- Bcrypt.Key: counts 72 characters where bcrypt counts 72 UTF-8 bytes; the two agree on ASCII passwords. One-wayness of the hash is not modelled.
- simplejwt: `RefreshToken.for_user` in both logins is not modelled; the token pair is left out of the results. `LogoutSerializer`'s `.blacklist()` (users/serializers.py:66-77) and the `logout` action are left out: they are library behaviour with no state in this model.
- `send_mail` and the link text: delivery is a boolean chosen by the caller. Only the recipient and the token of a delivered mail are recorded.
- `normalize_email` is a function parameter, not interpreted.
- DRF field validation before `validate` runs is left out: required fields, blank strings, the `EmailField` format and the model serializer's unique-email validator. The model starts at the serializers' own `validate`/`create` code, whose inputs are the stripped fields; `Serializers.Trim` models the stripping where the two login endpoints are compared. An email passed to `create_user` is either empty or not; a `None` email is not modelled.
- HTTP plumbing beyond the status or error label and the message, the `stdout` styling of seed messages, and the tokens and any status code of the login responses (the serialized user, `date_created` included, is modelled by `Serializers.UserDataOf`).
- The inherited `ModelViewSet` actions `list`, `retrieve`, `update`, `partial_update` and `destroy` (users/views.py:21-22) are not modelled. Updates through `UserSerializer` can rewrite email, full name and `is_active`, and `destroy` deletes rows. They are not `Lifecycle.Event`s, so `Lifecycle.Run` and `Lifecycle.RunKeepsHealthy` speak only of the modelled writes.
- Concurrency: two saves racing on one row (last write wins). `deactivate_account` saving a stale `request.user` over a concurrent change. Everything is sequential.
- The authentication framework's lookup of `request.user`: `Views.DeactivateAccount` requires that the authenticated account exists.
- Views.ConfirmResetProbe: the token query parameter is given as absent, empty or a token; the parsing of a token string is not modelled.
