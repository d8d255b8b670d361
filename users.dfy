/**
  * handlers/users.go: the statements on the `users` table, first as what each
  * does to a snapshot of the tables, then as the operations on an open
  * transaction that issue them.
  */
module Users {
  import opened Wrappers
  import opened Helpers
  import opened Sql

  /** `INSERT INTO users (name, email) VALUES ($1, $2) RETURNING ...`: a new row under a fresh id. */
  function Insert(t: Tables, input: UserInput, now: Timestamp): (r: (User, Tables))
    requires WellFormed(t)
    ensures r.0.id !in t.users
    ensures r.0.name == input.name && r.0.email == input.email
    ensures r.0.createdAt == now && r.0.updatedAt == None
    ensures r.1.users == t.users[r.0.id := r.0] && r.1.posts == t.posts
    ensures WellFormed(r.1) && (Integrity(t) ==> Integrity(r.1))
  {
    var u := User(t.nextId, input.email, input.name, now, None);
    (u, t.(users := t.users[u.id := u], nextId := t.nextId + 1))
  }

  /**
    * `UPDATE users SET name=$1, email=$2 WHERE id=$3 RETURNING ...`: no row when
    * the id is unknown; otherwise the row with the two data columns replaced.
    */
  function Update(t: Tables, id: Uuid, input: UserInput): (r: (Option<User>, Tables))
    requires WellFormed(t)
    ensures id !in t.users ==> r == (None, t)
    ensures id in t.users ==> r.0.Some? && r.1.users == t.users[id := r.0.value]
    ensures id in t.users ==>
      var old_, new_ := t.users[id], r.0.value;
      && new_.id == id && new_.createdAt == old_.createdAt && new_.updatedAt == old_.updatedAt
      && new_.name == input.name && new_.email == input.email
    ensures r.1.posts == t.posts && r.1.nextId == t.nextId && WellFormed(r.1)
    ensures Integrity(t) ==> Integrity(r.1)
  {
    if id !in t.users then (None, t)
    else
      var u := t.users[id].(name := input.name, email := input.email);
      (Some(u), t.(users := t.users[id := u]))
  }

  /** The driver's report when a delete would leave posts referencing no user. */
  const DELETE_VIOLATION := "pq: update or delete on table \"users\" violates foreign key constraint on table \"posts\""

  /** Some post references the user `id`. */
  predicate Referenced(t: Tables, id: Uuid)
  {
    exists k :: k in t.posts && t.posts[k].userId == id
  }

  /**
    * `DELETE FROM users WHERE id=$1 RETURNING ...`: no row when the id is unknown;
    * refused under `Restrict` while posts reference the user; otherwise the
    * removed row, with (under `Cascade`) the user's posts removed too.
    */
  function Delete(t: Tables, id: Uuid, rule: DeleteRule): (r: (Result<Option<User>>, Tables))
    requires WellFormed(t)
    ensures id !in t.users ==> r == (Ok(None), t)
    ensures id in t.users && rule == Restrict && Referenced(t, id) ==>
      r == (Err(Opaque(DELETE_VIOLATION)), t)
    ensures id in t.users && !(rule == Restrict && Referenced(t, id)) ==>
      && r.0 == Ok(Some(t.users[id]))
      && r.1.users == t.users - {id}
      && (forall k :: k in r.1.posts <==> k in t.posts && t.posts[k].userId != id)
      && (forall k :: k in r.1.posts ==> r.1.posts[k] == t.posts[k])
    ensures r.1.nextId == t.nextId && WellFormed(r.1)
    ensures Integrity(t) ==> Integrity(r.1)
  {
    if id !in t.users then (Ok(None), t)
    else if rule == Restrict && Referenced(t, id) then (Err(Opaque(DELETE_VIOLATION)), t)
    else
      var kept := map k | k in t.posts && t.posts[k].userId != id :: t.posts[k];
      (Ok(Some(t.users[id])), t.(users := t.users - {id}, posts := kept))
  }

  /** `SELECT ... FROM users ORDER BY created_at DESC`: every row exactly once, newest first. */
  ghost predicate ListsUsers(table: map<Uuid, User>, rows: seq<User>)
  {
    && (forall i :: 0 <= i < |rows| ==> rows[i].id in table && table[rows[i].id] == rows[i])
    && (forall k :: k in table ==> exists i :: 0 <= i < |rows| && rows[i].id == k)
    && (forall i, j :: 0 <= i < j < |rows| ==> rows[i].id != rows[j].id)
    && (forall i, j :: 0 <= i < j < |rows| ==> rows[i].createdAt >= rows[j].createdAt)
  }

  /** A listing holds as many rows as the table. */
  lemma ListsUsersCount(table: map<Uuid, User>, rows: seq<User>)
    requires ListsUsers(table, rows)
    ensures |rows| == |table|
  {
    var ids := seq(|rows|, i requires 0 <= i < |rows| => rows[i].id);
    forall k | k in table.Keys
      ensures k in ids
    {
      var i :| 0 <= i < |rows| && rows[i].id == k;
      assert ids[i] == k;
    }
    DistinctCount(ids, table.Keys);
  }

  /** `UsersGetTx`: the row with that id; a missing row is an absence, not an error. */
  function UsersGetTx(tx: Tx, id: Uuid): (r: Result<Option<User>>)
    reads tx
    ensures tx.readFailure.Some? ==> r == Err(Opaque(tx.readFailure.value))
    ensures tx.readFailure.None? ==> r.Ok? && (r.value.None? <==> id !in tx.users)
    ensures r.Ok? && r.value.Some? ==> id in tx.users && r.value.value == tx.users[id]
  {
    if tx.readFailure.Some? then Err(Opaque(tx.readFailure.value))
    else if id in tx.users then Ok(Some(tx.users[id]))
    else Ok(None)
  }

  /** `UsersCreateTx` */
  method UsersCreateTx(tx: Tx, input: UserInput) returns (r: Result<User>)
    requires tx.Valid()
    modifies tx
    ensures tx.Valid()
    ensures tx.writeFailure.Some? ==>
      r == Err(Opaque(tx.writeFailure.value)) && tx.Snapshot() == old(tx.Snapshot())
    ensures tx.writeFailure.None? ==>
      var (u, after) := Insert(old(tx.Snapshot()), input, tx.now);
      r == Ok(u) && tx.Snapshot() == after
  {
    if tx.writeFailure.Some? {
      return Err(Opaque(tx.writeFailure.value));
    }
    var u := User(tx.nextId, input.email, input.name, tx.now, None);
    tx.users := tx.users[u.id := u];
    tx.nextId := tx.nextId + 1;
    r := Ok(u);
  }

  /** `UsersUpdateTx` */
  method UsersUpdateTx(tx: Tx, id: Uuid, input: UserInput) returns (r: Result<Option<User>>)
    requires tx.Valid()
    modifies tx
    ensures tx.Valid()
    ensures tx.writeFailure.Some? ==>
      r == Err(Opaque(tx.writeFailure.value)) && tx.Snapshot() == old(tx.Snapshot())
    ensures tx.writeFailure.None? ==>
      var (u, after) := Update(old(tx.Snapshot()), id, input);
      r == Ok(u) && tx.Snapshot() == after
  {
    if tx.writeFailure.Some? {
      return Err(Opaque(tx.writeFailure.value));
    }
    if id !in tx.users {
      return Ok(None);
    }
    var u := tx.users[id].(name := input.name, email := input.email);
    tx.users := tx.users[id := u];
    r := Ok(Some(u));
  }

  /** `UsersDeleteTx` */
  method UsersDeleteTx(tx: Tx, id: Uuid) returns (r: Result<Option<User>>)
    requires tx.Valid()
    modifies tx
    ensures tx.Valid()
    ensures tx.writeFailure.Some? ==>
      r == Err(Opaque(tx.writeFailure.value)) && tx.Snapshot() == old(tx.Snapshot())
    ensures tx.writeFailure.None? ==>
      var (u, after) := Delete(old(tx.Snapshot()), id, tx.onUserDelete);
      r == u && tx.Snapshot() == after
  {
    if tx.writeFailure.Some? {
      return Err(Opaque(tx.writeFailure.value));
    }
    if id !in tx.users {
      return Ok(None);
    }
    if tx.onUserDelete == Restrict && Referenced(tx.Snapshot(), id) {
      return Err(Opaque(DELETE_VIOLATION));
    }
    var u := tx.users[id];
    tx.users := tx.users - {id};
    tx.posts := map k | k in tx.posts && tx.posts[k].userId != id :: tx.posts[k];
    r := Ok(Some(u));
  }

  /** `UsersGetAllTx`: the rows the ordered query returns, appended one by one as the cursor yields them. */
  method UsersGetAllTx(tx: Tx) returns (r: Result<seq<User>>)
    requires tx.Valid()
    ensures tx.readFailure.Some? ==> r == Err(Opaque(tx.readFailure.value))
    ensures tx.readFailure.None? ==> r.Ok? && ListsUsers(tx.users, r.value)
  {
    if tx.readFailure.Some? {
      return Err(Opaque(tx.readFailure.value));
    }
    var stamps := map k | k in tx.users :: tx.users[k].createdAt;
    var cursor := OrderByNewest(stamps);
    var users: seq<User> := [];
    var i := 0;
    while i < |cursor|
      invariant 0 <= i <= |cursor|
      invariant |users| == i
      invariant forall n :: 0 <= n < i ==> users[n] == tx.users[cursor[n]]
    {
      users := users + [tx.users[cursor[i]]];
      i := i + 1;
    }
    forall n | 0 <= n < |users|
      ensures users[n].id == cursor[n] && users[n].id in tx.users && tx.users[users[n].id] == users[n]
    {
      assert cursor[n] in stamps;
    }
    forall m, n | 0 <= m < n < |users|
      ensures users[m].id != users[n].id && users[m].createdAt >= users[n].createdAt
    {
      assert stamps[cursor[m]] >= stamps[cursor[n]];
    }
    forall k | k in tx.users
      ensures exists n :: 0 <= n < |users| && users[n].id == k
    {
      assert k in stamps;
      var n :| 0 <= n < |cursor| && cursor[n] == k;
      assert users[n].id == k;
    }
    r := Ok(users);
  }
}
