/**
 * The part of bcrypt that `User.set_password` and `User.check_password` use.
 * A digest records the random salt drawn by `gensalt()` and the key bcrypt
 * actually consumes: the first 72 characters of the password (bcrypt reads at
 * most 72 bytes). One-wayness is not modelled; the model only fixes which
 * passwords a digest accepts.
 */
module Bcrypt {

  /** A value drawn by `bcrypt.gensalt()`. */
  type Salt = nat

  /** bcrypt ignores everything past this many bytes of the password. */
  const KeyLimit: nat := 72

  datatype Digest = Digest(salt: Salt, key: string)

  /** The prefix of a password that bcrypt hashes. */
  function Key(raw: string): (k: string)
    ensures |k| <= KeyLimit
    ensures k <= raw
    ensures |raw| <= KeyLimit ==> k == raw
    ensures |raw| > KeyLimit ==> |k| == KeyLimit
  {
    if |raw| <= KeyLimit then raw else raw[..KeyLimit]
  }

  /** `bcrypt.hashpw(raw, salt)`: the digest depends on the salt and the key only. */
  function HashPw(raw: string, salt: Salt): (d: Digest)
    ensures d.salt == salt
    ensures d.key == Key(raw)
  {
    Digest(salt, Key(raw))
  }

  /** `bcrypt.checkpw(raw, d)`: it re-hashes `raw` with the salt stored in `d`. */
  function CheckPw(raw: string, d: Digest): (ok: bool)
    ensures ok <==> Key(raw) == d.key
  {
    HashPw(raw, d.salt) == d
  }

  /** A password is accepted by every digest made from it. */
  lemma CheckHashPw(raw: string, salt: Salt)
    ensures CheckPw(raw, HashPw(raw, salt))
  {
  }

  /**
   * The converse fails: two passwords that agree on their first 72 characters
   * are accepted by each other's digests.
   */
  lemma TruncationCollision(prefix: string, tail1: string, tail2: string, salt: Salt)
    requires |prefix| == KeyLimit
    ensures CheckPw(prefix + tail2, HashPw(prefix + tail1, salt))
  {
  }

  /** So a digest does not determine its password. */
  lemma CheckPwNotInjective()
    ensures exists a: string, b: string :: a != b && CheckPw(b, HashPw(a, 0))
  {
    var prefix := seq(KeyLimit, _ => 'a');
    TruncationCollision(prefix, "1", "2", 0);
    assert (prefix + "1")[KeyLimit] != (prefix + "2")[KeyLimit];
  }
}
