/**
  * api/cmd/api/utils: the database a handler reaches through `BeginTx`. A
  * production `DB` keeps its rows from one request to the next; a `TestDB`
  * empties every table and writes the fixture rows again each time a
  * connection is opened, which `BeginTx` does for every unit of work.
  */
module DbUtils {
  import opened Wrappers
  import opened Helpers
  import opened Sql
  import opened UnitsOfWork
  import Users
  import Posts

  // The ids `TestNewDB` parses, as numbers (the hexadecimal digits of the UUID).
  const USER_ID_1: Uuid := 0x4a2b9c10_9daf_11ed_93ce_0242ac120001
  const USER_ID_2: Uuid := 0x4a2b9c10_9daf_11ed_93ce_0242ac120002
  const POST_ID_1: Uuid := 0x4a2b9c10_9daf_11ed_93ce_0242ac220001
  const POST_ID_2: Uuid := 0x4a2b9c10_9daf_11ed_93ce_0242ac220002

  /** `utils.Fixture`: the ids of the rows a test database is seeded with. */
  datatype Fixture = Fixture(userId1: Uuid, userId2: Uuid, postId1: Uuid, postId2: Uuid)

  /** The fixture of `TestNewDB`. */
  const TEST_FIXTURE := Fixture(USER_ID_1, USER_ID_2, POST_ID_1, POST_ID_2)

  function Max(a: int, b: int): int
  {
    if a < b then b else a
  }

  /**
    * The tables `TestDB.Open` leaves: every table truncated, then two users and
    * one post for each of them. Each row takes its `created_at` from the clock
    * reading `at`; the id generator keeps clear of the fixed ids.
    */
  function Seed(t: Tables, f: Fixture, at: Timestamp): (s: Tables)
    ensures WellFormed(s) && Integrity(s)
    ensures s.users.Keys == {f.userId1, f.userId2} && s.posts.Keys == {f.postId1, f.postId2}
    ensures s.users[f.userId2] == User(f.userId2, "email-2", "user-2", at, None)
    ensures f.userId1 != f.userId2 ==> s.users[f.userId1] == User(f.userId1, "email-1", "user-1", at, None)
    ensures s.posts[f.postId2] == Post(f.postId2, "title-2", "content-2", f.userId2, at, None)
    ensures f.postId1 != f.postId2 ==> s.posts[f.postId1] == Post(f.postId1, "title-1", "content-1", f.userId1, at, None)
  {
    var u1 := User(f.userId1, "email-1", "user-1", at, None);
    var u2 := User(f.userId2, "email-2", "user-2", at, None);
    var p1 := Post(f.postId1, "title-1", "content-1", f.userId1, at, None);
    var p2 := Post(f.postId2, "title-2", "content-2", f.userId2, at, None);
    var top := Max(Max(f.userId1, f.userId2), Max(f.postId1, f.postId2));
    Tables(map[f.userId1 := u1][f.userId2 := u2], map[f.postId1 := p1][f.postId2 := p2], Max(t.nextId, top + 1))
  }

  /** What opening a connection does to the tables: nothing on `DB`, the reseeding on `TestDB`. */
  function Opened(t: Tables, fixture: Option<Fixture>, at: Timestamp): (s: Tables)
    requires WellFormed(t) && Integrity(t)
    ensures WellFormed(s) && Integrity(s)
    ensures fixture.None? ==> s == t
    ensures fixture.Some? ==> s == Seed(t, fixture.value, at)
  {
    if fixture.None? then t else Seed(t, fixture.value, at)
  }

  /** The conditions the statements of a transaction opened under `env` run in. */
  function ConditionsOf(env: Env, rule: DeleteRule): TxConditions
  {
    TxConditions(env.readFailure, env.writeFailure, env.now, rule)
  }

  /**
    * Once the transaction is open on `start`: the unit of work runs; its error
    * is returned unchanged and nothing it wrote is kept; otherwise COMMIT
    * installs all it wrote, or, when COMMIT fails, none of it.
    */
  ghost predicate Concludes(start: Tables, env: Env, rule: DeleteRule, w: Work, workErr: Option<Error>,
                            cap: Captured, after: Tables, err: Option<Error>, end: Tables)
    requires WellFormed(start)
  {
    && Performs(w, start, ConditionsOf(env, rule), workErr, cap, after)
    && (workErr.Some? ==> err == workErr && end == start)
    && (workErr.None? && env.commitFailure.Some? ==> err == Some(Opaque(env.commitFailure.value)) && end == start)
    && (workErr.None? && env.commitFailure.None? ==> err == None && end == after)
  }

  /**
    * `beginTx` on a database holding `db`: its error `err`, the unit of work's
    * captured variable `cap`, and the tables `end` it leaves. A failed open or
    * BEGIN returns that error without running the unit of work.
    */
  ghost predicate Transacts(db: Tables, fixture: Option<Fixture>, rule: DeleteRule, env: Env, w: Work,
                            err: Option<Error>, cap: Captured, end: Tables)
    requires WellFormed(db) && Integrity(db)
  {
    if env.openFailure.Some? then
      err == Some(Opaque(env.openFailure.value)) && cap == Initial(w) && end == db
    else
      var start := Opened(db, fixture, env.now);
      if env.beginFailure.Some? then
        err == Some(Opaque(env.beginFailure.value)) && cap == Initial(w) && end == start
      else
        exists workErr, after :: Concludes(start, env, rule, w, workErr, cap, after, err, end)
  }

  /** A transaction that got past open and BEGIN is described by how it concludes. */
  lemma ConcludesTransacts(db: Tables, fixture: Option<Fixture>, rule: DeleteRule, env: Env, w: Work,
                           workErr: Option<Error>, cap: Captured, after: Tables, err: Option<Error>, end: Tables)
    requires WellFormed(db) && Integrity(db)
    requires env.openFailure.None? && env.beginFailure.None?
    requires Concludes(Opened(db, fixture, env.now), env, rule, w, workErr, cap, after, err, end)
    ensures Transacts(db, fixture, rule, env, w, err, cap, end)
  {
  }

  /** `Performs` keeps every row stored under its id and every post pointing at a user. */
  lemma PerformsPreservesIntegrity(w: Work, t: Tables, c: TxConditions, err: Option<Error>, cap: Captured, t': Tables)
    requires WellFormed(t) && Integrity(t)
    requires Performs(w, t, c, err, cap, t')
    ensures WellFormed(t') && Integrity(t')
  {
  }

  /** Whatever `beginTx` leaves keeps every row under its id and every post pointing at a user. */
  lemma TransactsPreservesIntegrity(db: Tables, fixture: Option<Fixture>, rule: DeleteRule, env: Env, w: Work,
                                    err: Option<Error>, cap: Captured, end: Tables)
    requires WellFormed(db) && Integrity(db)
    requires Transacts(db, fixture, rule, env, w, err, cap, end)
    ensures WellFormed(end) && Integrity(end)
  {
    if env.openFailure.None? && env.beginFailure.None? {
      var start := Opened(db, fixture, env.now);
      var workErr, after :| Concludes(start, env, rule, w, workErr, cap, after, err, end);
      PerformsPreservesIntegrity(w, start, ConditionsOf(env, rule), workErr, cap, after);
    }
  }

  /**
    * Atomicity: a `beginTx` that returns an error keeps nothing the unit of
    * work wrote. The tables are as opening the connection left them.
    */
  lemma FailedTransactionKeepsNothing(db: Tables, fixture: Option<Fixture>, rule: DeleteRule, env: Env, w: Work,
                                      err: Option<Error>, cap: Captured, end: Tables)
    requires WellFormed(db) && Integrity(db)
    requires Transacts(db, fixture, rule, env, w, err, cap, end)
    requires err.Some?
    ensures end == if env.openFailure.Some? then db else Opened(db, fixture, env.now)
  {
    if env.openFailure.None? && env.beginFailure.None? {
      var start := Opened(db, fixture, env.now);
      var workErr, after :| Concludes(start, env, rule, w, workErr, cap, after, err, end);
    }
  }

  /** A healthy `beginTx` commits what its unit of work leaves. */
  lemma HealthyTransactionCommits(db: Tables, fixture: Option<Fixture>, rule: DeleteRule, env: Env, w: Work,
                                  err: Option<Error>, cap: Captured, end: Tables)
    requires WellFormed(db) && Integrity(db)
    requires Transacts(db, fixture, rule, env, w, err, cap, end)
    requires env.openFailure.None? && env.beginFailure.None? && env.commitFailure.None?
    ensures err.None? ==> Performs(w, Opened(db, fixture, env.now), ConditionsOf(env, rule), None, cap, end)
  {
    var start := Opened(db, fixture, env.now);
    var workErr, after :| Concludes(start, env, rule, w, workErr, cap, after, err, end);
    if err.None? {
      ConcludedCommit(start, env, rule, w, workErr, cap, after, err, end);
    }
  }

  /** Once a transaction is open, no error means that the unit of work succeeded and its tables were committed. */
  lemma ConcludedCommit(start: Tables, env: Env, rule: DeleteRule, w: Work, workErr: Option<Error>,
                        cap: Captured, after: Tables, err: Option<Error>, end: Tables)
    requires WellFormed(start)
    requires Concludes(start, env, rule, w, workErr, cap, after, err, end)
    requires err.None?
    ensures workErr.None? && env.commitFailure.None? && end == after
    ensures Performs(w, start, ConditionsOf(env, rule), None, cap, end)
  {
  }

  /**
    * On a production database a user created by one request is what a later
    * `usersGet` request finds, together with the name and email it was created with.
    */
  lemma CommittedUserIsVisible(db0: Tables, rule: DeleteRule, env1: Env, input: UserInput, u: User, db1: Tables,
                               env2: Env, err2: Option<Error>, cap2: Captured, db2: Tables)
    requires WellFormed(db0) && Integrity(db0)
    requires Transacts(db0, None, rule, env1, UsersCreate(input), None, UserRow(Some(u)), db1)
    requires WellFormed(db1) && Integrity(db1)
    requires Transacts(db1, None, rule, env2, UsersGet(u.id), err2, cap2, db2)
    requires env2.openFailure.None? && env2.beginFailure.None? && env2.readFailure.None? && env2.commitFailure.None?
    ensures u.name == input.name && u.email == input.email
    ensures err2 == None && cap2 == UserRow(Some(u)) && db2 == db1
  {
    var workErr1, after1 :| Concludes(db0, env1, rule, UsersCreate(input), workErr1, UserRow(Some(u)), after1, None, db1);
    var workErr2, after2 :| Concludes(db1, env2, rule, UsersGet(u.id), workErr2, cap2, after2, err2, db2);
  }

  /**
    * On a test database every transaction starts from the fixture: a healthy
    * `usersGetAll` lists exactly the two fixture users, whatever earlier
    * requests committed.
    */
  lemma TestDatabaseForgets(db: Tables, rule: DeleteRule, env: Env, err: Option<Error>, cap: Captured, end: Tables)
    requires WellFormed(db) && Integrity(db)
    requires Transacts(db, Some(TEST_FIXTURE), rule, env, UsersGetAll, err, cap, end)
    requires env.openFailure.None? && env.beginFailure.None? && env.readFailure.None? && env.commitFailure.None?
    ensures err == None && cap.UserList? && |cap.users| == 2
    ensures Users.ListsUsers(Seed(db, TEST_FIXTURE, env.now).users, cap.users)
    ensures end == Seed(db, TEST_FIXTURE, env.now)
  {
    var start := Seed(db, TEST_FIXTURE, env.now);
    var workErr, after :| Concludes(start, env, rule, UsersGetAll, workErr, cap, after, err, end);
    Users.ListsUsersCount(start.users, cap.users);
  }

  /**
    * Deleting a fixture user that a fixture post references: refused when the
    * schema restricts such deletes, while under a cascading schema the user and
    * that post both go. The fixture's delete test expects success.
    */
  lemma FixtureUserDelete(t: Tables, at: Timestamp)
    ensures Users.Delete(Seed(t, TEST_FIXTURE, at), USER_ID_2, Restrict).0 == Err(Opaque(Users.DELETE_VIOLATION))
    ensures
      var (r, after) := Users.Delete(Seed(t, TEST_FIXTURE, at), USER_ID_2, Cascade);
      && r.Ok? && r.value == Some(Seed(t, TEST_FIXTURE, at).users[USER_ID_2])
      && after.users.Keys == {USER_ID_1} && after.posts.Keys == {POST_ID_1}
  {
    var s := Seed(t, TEST_FIXTURE, at);
    assert s.posts[POST_ID_2].userId == USER_ID_2;
    assert Users.Referenced(s, USER_ID_2);
  }

  /**
    * `DB` and `TestDB`: the rows the server sees through its connections.
    * `fixture` is `None` for `DB` and holds the seeded ids for `TestDB`;
    * `onUserDelete` is what the schema does with a referenced user.
    */
  class Database {
    var users: map<Uuid, User>
    var posts: map<Uuid, Post>
    var nextId: nat
    const fixture: Option<Fixture>
    const onUserDelete: DeleteRule

    /** `NewDB()` when `fixture` is `None`, `TestNewDB()` when it is `Some(TEST_FIXTURE)`, on a store holding `t`. */
    constructor (t: Tables, fixture: Option<Fixture>, rule: DeleteRule)
      requires WellFormed(t) && Integrity(t)
      ensures Valid() && Snapshot() == t
      ensures this.fixture == fixture && onUserDelete == rule
    {
      users, posts, nextId := t.users, t.posts, t.nextId;
      this.fixture, onUserDelete := fixture, rule;
    }

    function Snapshot(): Tables
      reads this
    {
      Tables(users, posts, nextId)
    }

    ghost predicate Valid()
      reads this
    {
      WellFormed(Snapshot()) && Integrity(Snapshot())
    }

    /** `Open`: a connection, after which a `TestDB` holds only its fixture rows. */
    method Open(env: Env) returns (err: Option<Error>)
      requires Valid()
      modifies this
      ensures Valid()
      ensures env.openFailure.Some? ==> err == Some(Opaque(env.openFailure.value)) && Snapshot() == old(Snapshot())
      ensures env.openFailure.None? ==> err == None && Snapshot() == Opened(old(Snapshot()), fixture, env.now)
    {
      if env.openFailure.Some? {
        return Some(Opaque(env.openFailure.value));
      }
      if fixture.Some? {
        var s := Seed(Snapshot(), fixture.value, env.now);
        users, posts, nextId := s.users, s.posts, s.nextId;
      }
      err := None;
    }

    /** `beginTx`: open, BEGIN, run the unit of work, COMMIT. */
    method BeginTx(env: Env, w: Work) returns (err: Option<Error>, cap: Captured)
      requires Valid()
      modifies this
      ensures Valid()
      ensures Transacts(old(Snapshot()), fixture, onUserDelete, env, w, err, cap, Snapshot())
      ensures Fits(w, cap)
      ensures err.Some? ==> ClientStatusOnly(err.value)
    {
      ghost var db := Snapshot();
      cap := Initial(w);
      err := Open(env);
      if err.Some? {
        return;
      }
      if env.beginFailure.Some? {
        return Some(Opaque(env.beginFailure.value)), cap;
      }
      var start := Snapshot();
      var tx := new Tx(start, env, onUserDelete);
      ghost var c := ConditionsOf(env, onUserDelete);
      assert tx.Conditions() == c;
      var workErr;
      workErr, cap := Run(tx, w);
      ghost var after := tx.Snapshot();
      PerformsPreservesIntegrity(w, start, c, workErr, cap, after);
      PerformsFits(w, start, c, workErr, cap, after);
      ClassifiedCodes(w, start, c, workErr, cap, after);
      if workErr.Some? {
        err := workErr;
      } else if env.commitFailure.Some? {
        err := Some(Opaque(env.commitFailure.value));
      } else {
        users, posts, nextId := tx.users, tx.posts, tx.nextId;
        err := None;
      }
      ConcludesTransacts(db, fixture, onUserDelete, env, w, workErr, cap, after, err, Snapshot());
    }
  }
}
