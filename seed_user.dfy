/**
 * The `seed_user` management command (users/management/commands/seed_user.py):
 * `get_or_create` for each test account, and a password only for the ones it
 * created.
 */
module SeedUser {
  import opened Wrappers
  import opened Signing
  import Bcrypt
  import opened Models

  /**
   * One entry of `test_users`; `isStaff` is `None` where the entry has no
   * `is_staff` key and the model default applies.
   */
  datatype SeedEntry = SeedEntry(email: Email, fullName: string, password: string, isActive: bool, isStaff: Option<bool>)

  const AdminEmail: Email := "admin@ejemplo.com"
  const RegularEmail: Email := "usuario@ejemplo.com"

  const TestUsers: seq<SeedEntry> := [
    SeedEntry(AdminEmail, "Usuario Admin", "admin123", true, Some(true)),
    SeedEntry(RegularEmail, "Usuario Regular", "usuario123", true, None)
  ]

  /** The table, the next primary key and the lines written to stdout. */
  datatype Seeded = Seeded(users: Users, nextId: nat, messages: seq<string>)

  /** `User(**defaults)` as `get_or_create` builds it, with primary key `id`. */
  function SeedRecord(e: SeedEntry, id: nat, now: Time): (a: Account)
    ensures ResetFieldsPaired(a) && a.email == e.email && a.id == id
  {
    var user := NewRecord(id, e.email, e.fullName, now).(isActive := e.isActive);
    if e.isStaff.Some? then user.(isStaff := e.isStaff.value) else user
  }

  function CreatedMessage(email: Email): string
  {
    "Usuario creado: " + email
  }

  /** One iteration of the loop of `handle`. */
  function SeedStep(st: Seeded, e: SeedEntry, salt: Bcrypt.Salt, now: Time): (r: Seeded)
    ensures e.email in st.users ==> r == st
    ensures e.email !in st.users ==>
      && r.users.Keys == st.users.Keys + {e.email}
      && (forall k | k in st.users :: r.users[k] == st.users[k])
      && r.nextId == st.nextId + 1 && r.messages == st.messages + [CreatedMessage(e.email)]
      && var a := r.users[e.email];
      && a.id == st.nextId && a.email == e.email && a.fullName == e.fullName && a.isActive == e.isActive
      && a.isStaff == (e.isStaff.Some? && e.isStaff.value) && !a.isSuperuser
      && a.resetToken == None && ResetFieldsPaired(a)
      && CheckPassword(a, e.password) == Some(true)
  {
    if e.email in st.users then st
    else
      var user := SetPassword(SeedRecord(e, st.nextId, now), e.password, salt);
      Seeded(st.users[e.email := user], st.nextId + 1, st.messages + [CreatedMessage(e.email)])
  }

  /** The loop of `handle` over `entries`, the i-th created account hashed with `salts[i]`. */
  function SeedAll(st: Seeded, entries: seq<SeedEntry>, salts: seq<Bcrypt.Salt>, now: Time): (r: Seeded)
    requires |salts| == |entries|
    ensures st.users.Keys <= r.users.Keys
    ensures st.nextId <= r.nextId <= st.nextId + |entries|
    ensures |r.messages| - |st.messages| == r.nextId - st.nextId
    ensures st.messages <= r.messages
    decreases |entries|
  {
    if entries == [] then st
    else
      var n := |entries| - 1;
      SeedStep(SeedAll(st, entries[..n], salts[..n], now), entries[n], salts[n], now)
  }

  /** The loop over a longer prefix is one more step. */
  lemma SeedAllPrefix(st: Seeded, entries: seq<SeedEntry>, salts: seq<Bcrypt.Salt>, i: nat, now: Time)
    requires |salts| == |entries| && i < |entries|
    ensures SeedAll(st, entries[..i + 1], salts[..i + 1], now)
            == SeedStep(SeedAll(st, entries[..i], salts[..i], now), entries[i], salts[i], now)
  {
    assert entries[..i + 1][..i] == entries[..i];
    assert salts[..i + 1][..i] == salts[..i];
  }

  /** Seeding keeps the table's invariant. */
  lemma {:induction false} SeedPreservesInvariant(st: Seeded, entries: seq<SeedEntry>, salts: seq<Bcrypt.Salt>, now: Time)
    requires |salts| == |entries| && StoreInvariant(st.users, st.nextId)
    ensures var r := SeedAll(st, entries, salts, now); StoreInvariant(r.users, r.nextId)
    decreases |entries|
  {
    if entries != [] {
      var n := |entries| - 1;
      SeedPreservesInvariant(st, entries[..n], salts[..n], now);
    }
  }

  /** Afterwards every seeded email has an account. */
  lemma {:induction false} SeedCreatesAll(st: Seeded, entries: seq<SeedEntry>, salts: seq<Bcrypt.Salt>, now: Time)
    requires |salts| == |entries|
    ensures forall i | 0 <= i < |entries| :: entries[i].email in SeedAll(st, entries, salts, now).users
    decreases |entries|
  {
    if entries != [] {
      var n := |entries| - 1;
      SeedCreatesAll(st, entries[..n], salts[..n], now);
      SeedKeepsExisting(st, entries[..n], salts[..n], now);
      var before := SeedAll(st, entries[..n], salts[..n], now);
      forall i | 0 <= i < |entries|
        ensures entries[i].email in SeedAll(st, entries, salts, now).users
      {
        if i < n {
          assert entries[..n][i] == entries[i];
        }
      }
    }
  }

  /** An account that exists before seeding is left exactly as it was, password included. */
  lemma {:induction false} SeedKeepsExisting(st: Seeded, entries: seq<SeedEntry>, salts: seq<Bcrypt.Salt>, now: Time)
    requires |salts| == |entries|
    ensures var r := SeedAll(st, entries, salts, now);
            st.users.Keys <= r.users.Keys && forall k | k in st.users :: r.users[k] == st.users[k]
    decreases |entries|
  {
    if entries != [] {
      var n := |entries| - 1;
      SeedKeepsExisting(st, entries[..n], salts[..n], now);
    }
  }

  /** When every seeded email already has an account, seeding changes nothing and writes nothing. */
  lemma {:induction false} SeedNoOpWhenPresent(st: Seeded, entries: seq<SeedEntry>, salts: seq<Bcrypt.Salt>, now: Time)
    requires |salts| == |entries|
    requires forall i | 0 <= i < |entries| :: entries[i].email in st.users
    ensures SeedAll(st, entries, salts, now) == st
    decreases |entries|
  {
    if entries != [] {
      var n := |entries| - 1;
      forall i | 0 <= i < n ensures entries[..n][i].email in st.users {
        assert entries[..n][i] == entries[i];
      }
      SeedNoOpWhenPresent(st, entries[..n], salts[..n], now);
    }
  }

  /**
   * Running the command a second time, whatever salts it draws, leaves the
   * table as the first run left it and writes no message.
   */
  lemma SeedIdempotent(users: Users, nextId: nat, entries: seq<SeedEntry>,
                       salts1: seq<Bcrypt.Salt>, salts2: seq<Bcrypt.Salt>, now1: Time, now2: Time)
    requires |salts1| == |entries| && |salts2| == |entries|
    ensures var once := SeedAll(Seeded(users, nextId, []), entries, salts1, now1);
            SeedAll(Seeded(once.users, once.nextId, []), entries, salts2, now2) == Seeded(once.users, once.nextId, [])
  {
    var once := SeedAll(Seeded(users, nextId, []), entries, salts1, now1);
    SeedCreatesAll(Seeded(users, nextId, []), entries, salts1, now1);
    SeedNoOpWhenPresent(Seeded(once.users, once.nextId, []), entries, salts2, now2);
  }

  /**
   * On the command's own list: both accounts exist afterwards; one that was
   * missing is created with its listed password (and, for the admin, with
   * `is_staff`); a message is written for exactly the created ones, in order.
   */
  lemma HandleOutcome(users: Users, nextId: nat, salts: seq<Bcrypt.Salt>, now: Time)
    requires |salts| == |TestUsers|
    ensures var r := SeedAll(Seeded(users, nextId, []), TestUsers, salts, now);
      && AdminEmail in r.users && RegularEmail in r.users
      && (AdminEmail in users ==> r.users[AdminEmail] == users[AdminEmail])
      && (RegularEmail in users ==> r.users[RegularEmail] == users[RegularEmail])
      && (AdminEmail !in users ==>
            r.users[AdminEmail].isStaff && r.users[AdminEmail].isActive && !r.users[AdminEmail].isSuperuser &&
            CheckPassword(r.users[AdminEmail], "admin123") == Some(true))
      && (RegularEmail !in users ==>
            !r.users[RegularEmail].isStaff && r.users[RegularEmail].isActive &&
            CheckPassword(r.users[RegularEmail], "usuario123") == Some(true))
      && r.messages == (if AdminEmail in users then [] else [CreatedMessage(AdminEmail)])
                       + (if RegularEmail in users then [] else [CreatedMessage(RegularEmail)])
  {
    var st := Seeded(users, nextId, []);
    assert AdminEmail != RegularEmail;
    SeedAllPrefix(st, TestUsers, salts, 0, now);
    SeedAllPrefix(st, TestUsers, salts, 1, now);
    assert TestUsers[..0] == [] && salts[..0] == [];
    assert TestUsers[..2] == TestUsers && salts[..2] == salts;
  }

  /**
   * One pass of the loop body: `get_or_create` by email; on creation,
   * `set_password`, a second `save`, and the success line.
   */
  method SeedOne(db: UserManager, entry: SeedEntry, salt: Bcrypt.Salt, now: Time, messages: seq<string>)
    returns (messages': seq<string>)
    requires db.Valid()
    modifies db
    ensures db.Valid()
    ensures SeedStep(Seeded(old(db.users), old(db.nextId), messages), entry, salt, now)
            == Seeded(db.users, db.nextId, messages')
  {
    messages' := messages;
    if entry.email !in db.users {
      var saved := db.Insert(SeedRecord(entry, 0, now));
      var user := SetPassword(saved.value, entry.password, salt);
      db.Update(user);
      messages' := messages + [CreatedMessage(user.email)];
    }
  }

  /** `Command.handle`: the loop over `test_users`. */
  method Handle(db: UserManager, salts: seq<Bcrypt.Salt>, now: Time) returns (messages: seq<string>)
    requires db.Valid() && |salts| == |TestUsers|
    modifies db
    ensures db.Valid()
    ensures var r := SeedAll(Seeded(old(db.users), old(db.nextId), []), TestUsers, salts, now);
            db.users == r.users && db.nextId == r.nextId && messages == r.messages
  {
    ghost var start := Seeded(db.users, db.nextId, []);
    messages := [];
    for i := 0 to |TestUsers|
      invariant db.Valid()
      invariant SeedAll(start, TestUsers[..i], salts[..i], now) == Seeded(db.users, db.nextId, messages)
    {
      SeedAllPrefix(start, TestUsers, salts, i, now);
      messages := SeedOne(db, TestUsers[i], salts[i], now, messages);
    }
    assert TestUsers[..|TestUsers|] == TestUsers;
    assert salts[..|TestUsers|] == salts;
  }
}
