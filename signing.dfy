/**
 * The part of itsdangerous' `URLSafeTimedSerializer` that the reset protocol
 * relies on. A token is kept as data: the signed payload, the salt it was
 * signed for, the second at which it was issued, and an abstract flag saying
 * whether its signature verifies under the server's secret key (a token that
 * was tampered with, truncated or signed with another key has `validSig`
 * false). HMAC, base64 and the textual format are not modelled.
 */
module Signing {
  import opened Wrappers

  /** Seconds on the server's clock. */
  type Time = int

  datatype Token = Token(payload: string, salt: string, issuedAt: Time, validSig: bool)

  /** The salt both reset views and serializers pass to `dumps` and `loads`. */
  const ResetSalt: string := "password-reset"

  /** The `max_age` passed to `loads`: one hour. */
  const ResetMaxAge: int := 3600

  /**
   * `dumps(payload, salt=salt)` at time `now`: signed with the server's key,
   * so its signature verifies, and stamped with the current second.
   */
  function Dumps(payload: string, salt: string, now: Time): (t: Token)
    ensures t.validSig && t.payload == payload && t.salt == salt && t.issuedAt == now
  {
    Token(payload, salt, now, true)
  }

  /**
   * `loads(t, salt=salt, max_age=maxAge)` at time `now`: `None` stands for the
   * exception (`BadSignature` for a bad signature or a different salt,
   * `SignatureExpired` for a token older than `maxAge`).
   */
  function Loads(t: Token, salt: string, maxAge: int, now: Time): (r: Option<string>)
    ensures r.Some? ==> r.value == t.payload
    ensures r.Some? <==> t.validSig && t.salt == salt && now - t.issuedAt <= maxAge
  {
    if !t.validSig || t.salt != salt then None
    else if now - t.issuedAt > maxAge then None
    else Some(t.payload)
  }

  /** A freshly issued token decodes to its payload for exactly `maxAge` seconds. */
  lemma LoadsDumps(payload: string, salt: string, issuedAt: Time, maxAge: int, now: Time)
    ensures Loads(Dumps(payload, salt, issuedAt), salt, maxAge, now)
            == if now - issuedAt <= maxAge then Some(payload) else None
  {
  }

  /** A token signed for one purpose never decodes under another salt. */
  lemma LoadsRejectsOtherSalt(t: Token, salt: string, maxAge: int, now: Time)
    requires t.salt != salt
    ensures Loads(t, salt, maxAge, now) == None
  {
  }

  /**
   * Two tokens for the same payload and salt issued in the same second are the
   * same token; tokens issued in different seconds differ.
   */
  lemma DumpsDistinctExactlyByTime(payload: string, salt: string, t1: Time, t2: Time)
    ensures Dumps(payload, salt, t1) == Dumps(payload, salt, t2) <==> t1 == t2
  {
  }
}
