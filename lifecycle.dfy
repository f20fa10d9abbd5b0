/**
 * Whole histories of the account table: any sequence of account creations,
 * seeding runs, reset requests, confirmations and deactivations keeps the
 * table's invariant, and every pending token is one the table issued.
 */
module Lifecycle {
  import opened Wrappers
  import opened Signing
  import Bcrypt
  import opened Models
  import opened Serializers
  import opened Views
  import opened ResetProtocol
  import SeedUser

  /** The operations that write to the table, with the inputs the environment supplies. */
  datatype Event =
    | UserCreated(email: string, fullName: string, password: Option<string>, isActive: bool, salt: Bcrypt.Salt, now: Time)
    | SuperuserCreated(email: string, fullName: string, superPassword: string, salt: Bcrypt.Salt, now: Time)
    | SeedRun(adminSalt: Bcrypt.Salt, regularSalt: Bcrypt.Salt, now: Time)
    | ResetRequested(email: Email, now: Time, mailOk: bool)
    | ResetConfirmed(token: Token, newPassword: string, confirmPassword: string, now: Time, salt: Bcrypt.Salt)
    | Deactivated(email: Email)

  datatype Table = Table(users: Users, nextId: nat)

  /**
   * The table after one event; `normalize` is Django's `normalize_email`.
   * Deactivation is only reachable by an authenticated, hence existing, account.
   */
  function Apply(t: Table, ev: Event, normalize: string -> string): (r: Table)
    ensures t.users.Keys <= r.users.Keys
    ensures t.nextId <= r.nextId
  {
    match ev
    case UserCreated(email, fullName, password, isActive, salt, now) =>
      var s := CreateUserEffect(t.users, t.nextId, normalize, email, fullName, password, isActive, salt, now);
      Table(s.users, s.nextId)
    case SuperuserCreated(email, fullName, password, salt, now) =>
      var s := CreateSuperuserEffect(t.users, t.nextId, normalize, email, fullName, password, salt, now);
      Table(s.users, s.nextId)
    case SeedRun(adminSalt, regularSalt, now) =>
      var s := SeedUser.SeedAll(SeedUser.Seeded(t.users, t.nextId, []), SeedUser.TestUsers, [adminSalt, regularSalt], now);
      Table(s.users, s.nextId)
    case ResetRequested(email, now, mailOk) =>
      Table(RequestReset(t.users, email, now, mailOk).users, t.nextId)
    case ResetConfirmed(token, newPassword, confirmPassword, now, salt) =>
      Table(ConfirmReset(t.users, token, newPassword, confirmPassword, now, salt).users, t.nextId)
    case Deactivated(email) =>
      if email in t.users then Table(Deactivate(t.users, email), t.nextId) else t
  }

  /** The table after a history of events, oldest first; no write ever deletes an account. */
  function Run(t: Table, events: seq<Event>, normalize: string -> string): (r: Table)
    ensures t.users.Keys <= r.users.Keys
    ensures t.nextId <= r.nextId
    decreases |events|
  {
    if events == [] then t else Run(Apply(t, events[0], normalize), events[1..], normalize)
  }

  predicate Healthy(t: Table)
  {
    StoreInvariant(t.users, t.nextId) && StoredTokensIssued(t.users)
  }

  /** Seeding creates accounts without pending tokens and leaves the others alone. */
  lemma {:induction false} SeedKeepsTokensIssued(st: SeedUser.Seeded, entries: seq<SeedUser.SeedEntry>,
                                                 salts: seq<Bcrypt.Salt>, now: Time)
    requires |salts| == |entries| && StoredTokensIssued(st.users)
    ensures StoredTokensIssued(SeedUser.SeedAll(st, entries, salts, now).users)
    decreases |entries|
  {
    if entries != [] {
      var n := |entries| - 1;
      SeedKeepsTokensIssued(st, entries[..n], salts[..n], now);
    }
  }

  /** One event keeps the table healthy. */
  lemma ApplyKeepsHealthy(t: Table, ev: Event, normalize: string -> string)
    requires Healthy(t)
    ensures Healthy(Apply(t, ev, normalize))
  {
    match ev
    case UserCreated(email, fullName, password, isActive, salt, now) =>
      CreateUserPreservesInvariant(t.users, t.nextId, normalize, email, fullName, password, isActive, salt, now);
    case SuperuserCreated(email, fullName, password, salt, now) =>
      CreateSuperuserPreservesInvariant(t.users, t.nextId, normalize, email, fullName, password, salt, now);
    case SeedRun(adminSalt, regularSalt, now) =>
      var st := SeedUser.Seeded(t.users, t.nextId, []);
      SeedUser.SeedPreservesInvariant(st, SeedUser.TestUsers, [adminSalt, regularSalt], now);
      SeedKeepsTokensIssued(st, SeedUser.TestUsers, [adminSalt, regularSalt], now);
    case ResetRequested(email, now, mailOk) =>
      RequestPreservesInvariant(t.users, t.nextId, email, now, mailOk);
      RequestKeepsTokensIssued(t.users, t.nextId, email, now, mailOk);
    case ResetConfirmed(token, newPassword, confirmPassword, now, salt) =>
      ConfirmPreservesInvariant(t.users, t.nextId, token, newPassword, confirmPassword, now, salt);
      ConfirmKeepsTokensIssued(t.users, token, newPassword, confirmPassword, now, salt);
    case Deactivated(email) =>
      if email in t.users {
        DeactivatePreservesInvariant(t.users, t.nextId, email);
      }
  }

  /** Every history that starts from a healthy table, the empty one included, stays healthy. */
  lemma {:induction false} RunKeepsHealthy(t: Table, events: seq<Event>, normalize: string -> string)
    requires Healthy(t)
    ensures Healthy(Run(t, events, normalize))
    decreases |events|
  {
    if events != [] {
      ApplyKeepsHealthy(t, events[0], normalize);
      RunKeepsHealthy(Apply(t, events[0], normalize), events[1..], normalize);
    }
  }

  /**
   * Hence in every reachable table a confirmation never reaches the crashing
   * comparison, and the stored expiry of a pending token agrees with its age.
   */
  lemma ReachableTablesAreSafe(events: seq<Event>, normalize: string -> string, token: Token,
                               newPassword: string, confirmPassword: string, now: Time, salt: Bcrypt.Salt)
    ensures var t := Run(Table(map[], 1), events, normalize);
            && ConfirmReset(t.users, token, newPassword, confirmPassword, now, salt).outcome != Fail(ExpiryUnset)
            && (token.payload in t.users && t.users[token.payload].resetToken == Some(token) ==>
                  (TokenAccepted(t.users, token, now) <==> now - token.issuedAt <= ResetMaxAge))
  {
    RunKeepsHealthy(Table(map[], 1), events, normalize);
    var t := Run(Table(map[], 1), events, normalize);
    ConfirmNeverComparesUnsetExpiry(t.users, t.nextId, token, newPassword, confirmPassword, now, salt);
    if token.payload in t.users && t.users[token.payload].resetToken == Some(token) {
      StoredExpiryMatchesMaxAge(t.users, token, now);
    }
  }
}
