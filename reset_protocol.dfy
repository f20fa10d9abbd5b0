/**
 * Properties of the password-reset protocol that relate several calls:
 * request, probe (`confirm_reset`) and confirmation, over one table.
 */
module ResetProtocol {
  import opened Wrappers
  import opened Signing
  import Bcrypt
  import opened Models
  import opened Serializers
  import opened Views

  /**
   * Every pending token was issued by a reset request for the account that
   * holds it, and its stored expiry is one hour after its issuance.
   */
  predicate StoredTokensIssued(users: Users)
  {
    forall e | e in users && users[e].resetToken.Some? ::
      var t := users[e].resetToken.value;
      t == Dumps(e, ResetSalt, t.issuedAt) && users[e].resetTokenExpiresAt == Some(t.issuedAt + ResetLifetime)
  }

  /** A reset request keeps the table's invariant, whether or not the mail goes out. */
  lemma RequestPreservesInvariant(users: Users, nextId: nat, email: Email, now: Time, mailOk: bool)
    requires StoreInvariant(users, nextId)
    ensures StoreInvariant(RequestReset(users, email, now, mailOk).users, nextId)
  {
  }

  /** A confirmation keeps the table's invariant. */
  lemma ConfirmPreservesInvariant(users: Users, nextId: nat, token: Token, newPassword: string,
                                  confirmPassword: string, now: Time, salt: Bcrypt.Salt)
    requires StoreInvariant(users, nextId)
    ensures StoreInvariant(ConfirmReset(users, token, newPassword, confirmPassword, now, salt).users, nextId)
  {
  }

  /** A request stores only a token it issued itself. */
  lemma RequestKeepsTokensIssued(users: Users, nextId: nat, email: Email, now: Time, mailOk: bool)
    requires StoreInvariant(users, nextId) && StoredTokensIssued(users)
    ensures StoredTokensIssued(RequestReset(users, email, now, mailOk).users)
  {
  }

  /** A confirmation removes a token and stores none. */
  lemma ConfirmKeepsTokensIssued(users: Users, token: Token, newPassword: string,
                                 confirmPassword: string, now: Time, salt: Bcrypt.Salt)
    requires StoredTokensIssued(users)
    ensures StoredTokensIssued(ConfirmReset(users, token, newPassword, confirmPassword, now, salt).users)
  {
  }

  /**
   * On a table that keeps its invariant, the `None < now` comparison that
   * would crash the confirmation is never reached.
   */
  lemma ConfirmNeverComparesUnsetExpiry(users: Users, nextId: nat, token: Token, newPassword: string,
                                        confirmPassword: string, now: Time, salt: Bcrypt.Salt)
    requires StoreInvariant(users, nextId)
    ensures ConfirmReset(users, token, newPassword, confirmPassword, now, salt).outcome != Fail(ExpiryUnset)
  {
  }

  /** Without the invariant it is reached: a stored token with no expiry crashes the confirmation. */
  lemma UnpairedFieldsCrashConfirm(users: Users, token: Token, password: string, now: Time, salt: Bcrypt.Salt)
    requires Loads(token, ResetSalt, ResetMaxAge, now).Some?
    requires token.payload in users
    requires users[token.payload].resetToken == Some(token) && users[token.payload].resetTokenExpiresAt.None?
    ensures ConfirmReset(users, token, password, password, now, salt).outcome == Fail(ExpiryUnset)
  {
  }

  /**
   * A mismatched password pair is rejected before the token is looked at:
   * the answer is the same whatever token comes with it.
   */
  lemma MismatchIgnoresToken(users: Users, t1: Token, t2: Token, newPassword: string, confirmPassword: string,
                             now: Time, salt: Bcrypt.Salt)
    requires newPassword != confirmPassword
    ensures ConfirmReset(users, t1, newPassword, confirmPassword, now, salt)
            == ConfirmReset(users, t2, newPassword, confirmPassword, now, salt)
            == ResetStep(users, None, Fail(PasswordMismatch))
  {
  }

  /** The probe accepts a token exactly when a confirmation with a matching pair would succeed. */
  lemma ProbeAgreesWithConfirm(users: Users, token: Token, password: string, now: Time, salt: Bcrypt.Salt)
    ensures ConfirmResetProbe(users, Present(token), now).TokenValid?
            <==> ConfirmReset(users, token, password, password, now, salt).outcome.Pass?
  {
  }

  /**
   * For a stored token the table's own expiry and the signature's `max_age`
   * agree, so the cross-check adds nothing beyond "still the stored token".
   * This rests on the single integer clock: in the program `dumps` stamps
   * whole seconds while the expiry is a later microsecond `timezone.now()`,
   * so within the last second of the hour the two checks can disagree.
   */
  lemma StoredExpiryMatchesMaxAge(users: Users, token: Token, now: Time)
    requires StoredTokensIssued(users)
    requires token.payload in users && users[token.payload].resetToken == Some(token)
    ensures TokenAccepted(users, token, now) <==> now - token.issuedAt <= ResetMaxAge
  {
  }

  /**
   * The happy path: within the hour after a request, the mailed token passes
   * the probe and a confirmation with a matching pair succeeds, even when the
   * mail itself could not be sent.
   */
  lemma RequestThenConfirm(users: Users, nextId: nat, email: Email, now: Time, mailOk: bool,
                           later: Time, password: string, salt: Bcrypt.Salt)
    requires StoreInvariant(users, nextId) && email in users
    requires now <= later <= now + ResetMaxAge
    ensures var issued := RequestReset(users, email, now, mailOk).users;
            var t := Dumps(email, ResetSalt, now);
            && ConfirmResetProbe(issued, Present(t), later) == TokenValid(t)
            && ConfirmReset(issued, t, password, password, later, salt).outcome == Pass
  {
  }

  /**
   * A confirmed token is spent: a second confirmation with it fails, and so
   * does the probe, at any later time.
   */
  lemma SingleUse(users: Users, token: Token, password: string, now: Time, salt: Bcrypt.Salt,
                  newPassword: string, confirmPassword: string, later: Time, salt2: Bcrypt.Salt)
    requires ConfirmReset(users, token, password, password, now, salt).outcome.Pass?
    ensures var after := ConfirmReset(users, token, password, password, now, salt).users;
            && ConfirmReset(after, token, newPassword, confirmPassword, later, salt2).outcome.Fail?
            && ConfirmResetProbe(after, Present(token), later) == BadRequest(InvalidOrExpired)
            && (newPassword == confirmPassword && Loads(token, ResetSalt, ResetMaxAge, later).Some? ==>
                  ConfirmReset(after, token, newPassword, confirmPassword, later, salt2).outcome == Fail(TokenExpired))
  {
  }

  /**
   * A second request in a different second overwrites the stored token, so
   * the first one no longer passes the probe or a confirmation.
   */
  lemma OverwriteInvalidates(users: Users, nextId: nat, email: Email, now1: Time, ok1: bool,
                             now2: Time, ok2: bool, newPassword: string, confirmPassword: string,
                             later: Time, salt: Bcrypt.Salt)
    requires StoreInvariant(users, nextId) && email in users && now1 != now2
    ensures var first := RequestReset(users, email, now1, ok1).users;
            var second := RequestReset(first, email, now2, ok2).users;
            var t1 := Dumps(email, ResetSalt, now1);
            && ConfirmResetProbe(second, Present(t1), later) == BadRequest(InvalidOrExpired)
            && ConfirmReset(second, t1, newPassword, confirmPassword, later, salt).outcome.Fail?
  {
  }

  /**
   * Two requests in the same second issue the same token, so the earlier
   * mail stays usable: the model does not promise distinct tokens.
   */
  lemma SameSecondRequestsCoincide(users: Users, nextId: nat, email: Email, now: Time, ok1: bool, ok2: bool)
    requires StoreInvariant(users, nextId) && email in users
    ensures var first := RequestReset(users, email, now, ok1).users;
            RequestReset(first, email, now, ok2).users == first
  {
  }

  /**
   * A token older than an hour fails however the stored fields look; a
   * confirmation reports it as undecodable.
   */
  lemma StaleTokenRejected(users: Users, token: Token, password: string, now: Time, salt: Bcrypt.Salt)
    requires now - token.issuedAt > ResetMaxAge
    ensures ConfirmResetProbe(users, Present(token), now) == BadRequest(InvalidOrExpired)
    ensures ConfirmReset(users, token, password, password, now, salt).outcome == Fail(InvalidOrExpiredToken)
  {
  }

  /**
   * The gap between storing and mailing: when `send_mail` fails the request
   * reports an error, yet the stored token is live and passes the probe.
   */
  lemma MailFailureLeavesLiveToken(users: Users, nextId: nat, email: Email, now: Time)
    requires StoreInvariant(users, nextId) && email in users
    ensures var s := RequestReset(users, email, now, false);
            && s.outcome == Fail(MailError) && s.mail == None
            && ConfirmResetProbe(s.users, Present(Dumps(email, ResetSalt, now)), now).TokenValid?
  {
  }
}
