/**
  * handlers/posts.go: the statements on the `posts` table, whose `user_id`
  * column the database checks against `users`, first as what each does to a
  * snapshot of the tables, then as the operations on an open transaction.
  */
module Posts {
  import opened Wrappers
  import opened Helpers
  import opened Sql

  /** The driver's report when `user_id` references no user (the constraint's name is not part of this model). */
  const FOREIGN_KEY_VIOLATION := "pq: insert or update on table \"posts\" violates foreign key constraint"

  /**
    * `INSERT INTO posts (title, content, user_id) VALUES ($1, $2, $3) RETURNING ...`:
    * rejected when `user_id` names no user, otherwise a new row under a fresh id.
    */
  function Insert(t: Tables, input: PostInput, now: Timestamp): (r: (Result<Post>, Tables))
    requires WellFormed(t)
    ensures input.userId !in t.users ==> r == (Err(Opaque(FOREIGN_KEY_VIOLATION)), t)
    ensures input.userId in t.users ==> r.0.Ok?
    ensures input.userId in t.users && r.0.Ok? ==>
      var p := r.0.value;
      && p.id !in t.posts
      && p.title == input.title && p.content == input.content && p.userId == input.userId
      && p.createdAt == now && p.updatedAt == None
      && r.1.posts == t.posts[p.id := p] && r.1.users == t.users
    ensures WellFormed(r.1) && (Integrity(t) ==> Integrity(r.1))
  {
    if input.userId !in t.users then (Err(Opaque(FOREIGN_KEY_VIOLATION)), t)
    else
      var p := Post(t.nextId, input.title, input.content, input.userId, now, None);
      (Ok(p), t.(posts := t.posts[p.id := p], nextId := t.nextId + 1))
  }

  /**
    * `UPDATE posts SET title=$1, content=$2, user_id=$3 WHERE id = $4 RETURNING ...`:
    * no row when the id is unknown (no row is written, so nothing is checked);
    * rejected when the new `user_id` names no user; otherwise the row with its
    * three data columns replaced.
    */
  function Update(t: Tables, id: Uuid, input: PostInput): (r: (Result<Option<Post>>, Tables))
    requires WellFormed(t)
    ensures id !in t.posts ==> r == (Ok(None), t)
    ensures id in t.posts && input.userId !in t.users ==> r == (Err(Opaque(FOREIGN_KEY_VIOLATION)), t)
    ensures id in t.posts && input.userId in t.users ==>
      var old_ := t.posts[id];
      && r.0.Ok? && r.0.value.Some?
      && var new_ := r.0.value.value;
      && new_.id == id && new_.createdAt == old_.createdAt && new_.updatedAt == old_.updatedAt
      && new_.title == input.title && new_.content == input.content && new_.userId == input.userId
      && r.1.posts == t.posts[id := new_]
    ensures r.1.users == t.users && r.1.nextId == t.nextId && WellFormed(r.1)
    ensures Integrity(t) ==> Integrity(r.1)
  {
    if id !in t.posts then (Ok(None), t)
    else if input.userId !in t.users then (Err(Opaque(FOREIGN_KEY_VIOLATION)), t)
    else
      var p := t.posts[id].(title := input.title, content := input.content, userId := input.userId);
      (Ok(Some(p)), t.(posts := t.posts[id := p]))
  }

  /** `DELETE FROM posts WHERE id=$1 RETURNING ...`: the removed row, or no row when the id is unknown. */
  function Delete(t: Tables, id: Uuid): (r: (Option<Post>, Tables))
    requires WellFormed(t)
    ensures id !in t.posts ==> r == (None, t)
    ensures id in t.posts ==> r.0 == Some(t.posts[id]) && r.1.posts == t.posts - {id}
    ensures r.1.users == t.users && r.1.nextId == t.nextId && WellFormed(r.1)
    ensures Integrity(t) ==> Integrity(r.1)
  {
    if id !in t.posts then (None, t)
    else (Some(t.posts[id]), t.(posts := t.posts - {id}))
  }

  /** `SELECT ... FROM posts ORDER BY created_at DESC`: every row exactly once, newest first. */
  ghost predicate ListsPosts(table: map<Uuid, Post>, rows: seq<Post>)
  {
    && (forall i :: 0 <= i < |rows| ==> rows[i].id in table && table[rows[i].id] == rows[i])
    && (forall k :: k in table ==> exists i :: 0 <= i < |rows| && rows[i].id == k)
    && (forall i, j :: 0 <= i < j < |rows| ==> rows[i].id != rows[j].id)
    && (forall i, j :: 0 <= i < j < |rows| ==> rows[i].createdAt >= rows[j].createdAt)
  }

  /** A listing holds as many rows as the table. */
  lemma ListsPostsCount(table: map<Uuid, Post>, rows: seq<Post>)
    requires ListsPosts(table, rows)
    ensures |rows| == |table|
  {
    var ids := seq(|rows|, i requires 0 <= i < |rows| => rows[i].id);
    forall k | k in table.Keys
      ensures k in ids
    {
      var i :| 0 <= i < |rows| && rows[i].id == k;
      assert ids[i] == k;
    }
    DistinctCount(ids, table.Keys);
  }

  /** `PostsGetTx`: the row with that id; a missing row is an absence, not an error. */
  function PostsGetTx(tx: Tx, id: Uuid): (r: Result<Option<Post>>)
    reads tx
    ensures tx.readFailure.Some? ==> r == Err(Opaque(tx.readFailure.value))
    ensures tx.readFailure.None? ==> r.Ok? && (r.value.None? <==> id !in tx.posts)
    ensures r.Ok? && r.value.Some? ==> id in tx.posts && r.value.value == tx.posts[id]
  {
    if tx.readFailure.Some? then Err(Opaque(tx.readFailure.value))
    else if id in tx.posts then Ok(Some(tx.posts[id]))
    else Ok(None)
  }

  /** `PostsCreateTx` */
  method PostsCreateTx(tx: Tx, input: PostInput) returns (r: Result<Post>)
    requires tx.Valid()
    modifies tx
    ensures tx.Valid()
    ensures tx.writeFailure.Some? ==>
      r == Err(Opaque(tx.writeFailure.value)) && tx.Snapshot() == old(tx.Snapshot())
    ensures tx.writeFailure.None? ==>
      var (p, after) := Insert(old(tx.Snapshot()), input, tx.now);
      r == p && tx.Snapshot() == after
  {
    if tx.writeFailure.Some? {
      return Err(Opaque(tx.writeFailure.value));
    }
    if input.userId !in tx.users {
      return Err(Opaque(FOREIGN_KEY_VIOLATION));
    }
    var p := Post(tx.nextId, input.title, input.content, input.userId, tx.now, None);
    tx.posts := tx.posts[p.id := p];
    tx.nextId := tx.nextId + 1;
    r := Ok(p);
  }

  /** `PostsUpdateTx` */
  method PostsUpdateTx(tx: Tx, id: Uuid, input: PostInput) returns (r: Result<Option<Post>>)
    requires tx.Valid()
    modifies tx
    ensures tx.Valid()
    ensures tx.writeFailure.Some? ==>
      r == Err(Opaque(tx.writeFailure.value)) && tx.Snapshot() == old(tx.Snapshot())
    ensures tx.writeFailure.None? ==>
      var (p, after) := Update(old(tx.Snapshot()), id, input);
      r == p && tx.Snapshot() == after
  {
    if tx.writeFailure.Some? {
      return Err(Opaque(tx.writeFailure.value));
    }
    if id !in tx.posts {
      return Ok(None);
    }
    if input.userId !in tx.users {
      return Err(Opaque(FOREIGN_KEY_VIOLATION));
    }
    var p := tx.posts[id].(title := input.title, content := input.content, userId := input.userId);
    tx.posts := tx.posts[id := p];
    r := Ok(Some(p));
  }

  /** `PostsDeleteTx` */
  method PostsDeleteTx(tx: Tx, id: Uuid) returns (r: Result<Option<Post>>)
    requires tx.Valid()
    modifies tx
    ensures tx.Valid()
    ensures tx.writeFailure.Some? ==>
      r == Err(Opaque(tx.writeFailure.value)) && tx.Snapshot() == old(tx.Snapshot())
    ensures tx.writeFailure.None? ==>
      var (p, after) := Delete(old(tx.Snapshot()), id);
      r == Ok(p) && tx.Snapshot() == after
  {
    if tx.writeFailure.Some? {
      return Err(Opaque(tx.writeFailure.value));
    }
    if id !in tx.posts {
      return Ok(None);
    }
    var p := tx.posts[id];
    tx.posts := tx.posts - {id};
    r := Ok(Some(p));
  }

  /** `PostsGetAllTx`: the rows the ordered query returns, appended one by one as the cursor yields them. */
  method PostsGetAllTx(tx: Tx) returns (r: Result<seq<Post>>)
    requires tx.Valid()
    ensures tx.readFailure.Some? ==> r == Err(Opaque(tx.readFailure.value))
    ensures tx.readFailure.None? ==> r.Ok? && ListsPosts(tx.posts, r.value)
  {
    if tx.readFailure.Some? {
      return Err(Opaque(tx.readFailure.value));
    }
    var stamps := map k | k in tx.posts :: tx.posts[k].createdAt;
    var cursor := OrderByNewest(stamps);
    var posts: seq<Post> := [];
    var i := 0;
    while i < |cursor|
      invariant 0 <= i <= |cursor|
      invariant |posts| == i
      invariant forall n :: 0 <= n < i ==> posts[n] == tx.posts[cursor[n]]
    {
      posts := posts + [tx.posts[cursor[i]]];
      i := i + 1;
    }
    forall n | 0 <= n < |posts|
      ensures posts[n].id == cursor[n] && posts[n].id in tx.posts && tx.posts[posts[n].id] == posts[n]
    {
      assert cursor[n] in stamps;
    }
    forall m, n | 0 <= m < n < |posts|
      ensures posts[m].id != posts[n].id && posts[m].createdAt >= posts[n].createdAt
    {
      assert stamps[cursor[m]] >= stamps[cursor[n]];
    }
    forall k | k in tx.posts
      ensures exists n :: 0 <= n < |posts| && posts[n].id == k
    {
      assert k in stamps;
      var n :| 0 <= n < |cursor| && cursor[n] == k;
      assert posts[n].id == k;
    }
    r := Ok(posts);
  }
}
