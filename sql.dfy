/**
  * The relational store as the visible SQL statements use it: the rows of the
  * tables `users` and `posts`, a snapshot of both, a transaction handle that
  * works on a private copy of the snapshot, and the database's
  * `ORDER BY created_at DESC`.
  */
module Sql {
  import opened Wrappers
  import opened Helpers

  /** A UUID. The model only ever compares them. */
  type Uuid = nat

  /** A value of a timestamp column. The model only ever compares them. */
  type Timestamp = int

  /** A row of `users`, scanned into `handlers.User`. */
  datatype User = User(id: Uuid, email: string, name: string, createdAt: Timestamp, updatedAt: Option<Timestamp>)

  /** `handlers.UserInput`: the only columns a caller supplies. */
  datatype UserInput = UserInput(name: string, email: string)

  /** A row of `posts`, scanned into `handlers.Post`. */
  datatype Post = Post(id: Uuid, title: string, content: string, userId: Uuid, createdAt: Timestamp, updatedAt: Option<Timestamp>)

  /** `handlers.PostInput`: the only columns a caller supplies. */
  datatype PostInput = PostInput(title: string, content: string, userId: Uuid)

  /** Both tables, keyed by primary key, and the source of fresh ids the `id` column default draws on. */
  datatype Tables = Tables(users: map<Uuid, User>, posts: map<Uuid, Post>, nextId: nat)

  /** Every row is stored under its own id, and the id generator is past every id in use. */
  ghost predicate WellFormed(t: Tables)
  {
    && (forall k :: k in t.users ==> t.users[k].id == k && k < t.nextId)
    && (forall k :: k in t.posts ==> t.posts[k].id == k && k < t.nextId)
  }

  /** Every post references a user that exists: the foreign key `posts.user_id` into `users.id`. */
  ghost predicate Integrity(t: Tables)
  {
    forall k :: k in t.posts ==> t.posts[k].userId in t.users
  }

  /**
    * What the schema does when a user that posts still reference is deleted.
    * The schema is not part of this model, so both choices are kept: refuse the
    * delete, or delete the user's posts along with it.
    */
  datatype DeleteRule = Restrict | Cascade

  /**
    * What one request's database work depends on and the model cannot see: the
    * error, if any, that opening a connection, BEGIN, every SELECT, every
    * INSERT/UPDATE/DELETE and COMMIT report, and the transaction's `now()`.
    */
  datatype Env = Env(
    openFailure: Option<string>,
    beginFailure: Option<string>,
    readFailure: Option<string>,
    writeFailure: Option<string>,
    commitFailure: Option<string>,
    now: Timestamp)

  /** What the statements of one transaction see besides the tables: their failures, `now()` and the schema's delete rule. */
  datatype TxConditions = TxConditions(
    readFailure: Option<string>,
    writeFailure: Option<string>,
    now: Timestamp,
    onUserDelete: DeleteRule)

  /** `*sql.Tx`: an open transaction, with the tables as the statements issued so far have left them. */
  class Tx {
    var users: map<Uuid, User>
    var posts: map<Uuid, Post>
    var nextId: nat
    const readFailure: Option<string>
    const writeFailure: Option<string>
    const now: Timestamp
    const onUserDelete: DeleteRule

    /** BEGIN: a private copy of `t` on which the statements of one unit of work run. */
    constructor (t: Tables, env: Env, rule: DeleteRule)
      ensures Snapshot() == t
      ensures readFailure == env.readFailure && writeFailure == env.writeFailure && now == env.now
      ensures onUserDelete == rule
    {
      users, posts, nextId := t.users, t.posts, t.nextId;
      readFailure, writeFailure, now := env.readFailure, env.writeFailure, env.now;
      onUserDelete := rule;
    }

    function Conditions(): TxConditions
    {
      TxConditions(readFailure, writeFailure, now, onUserDelete)
    }

    function Snapshot(): Tables
      reads this
    {
      Tables(users, posts, nextId)
    }

    ghost predicate Valid()
      reads this
    {
      WellFormed(Snapshot())
    }
  }

  /** `ids` lists every key of `stamps` exactly once, latest timestamp first (ties in any order). */
  ghost predicate NewestFirst(stamps: map<Uuid, Timestamp>, ids: seq<Uuid>)
  {
    && (forall i :: 0 <= i < |ids| ==> ids[i] in stamps)
    && (forall k :: k in stamps ==> k in ids)
    && (forall i, j :: 0 <= i < j < |ids| ==> ids[i] != ids[j])
    && (forall i, j :: 0 <= i < j < |ids| ==> stamps[ids[i]] >= stamps[ids[j]])
  }

  /** A sequence without repetitions that covers exactly `keys` has one element per key. */
  lemma {:induction false} DistinctCount<K>(ids: seq<K>, keys: set<K>)
    requires forall i :: 0 <= i < |ids| ==> ids[i] in keys
    requires forall k :: k in keys ==> k in ids
    requires forall i, j :: 0 <= i < j < |ids| ==> ids[i] != ids[j]
    ensures |ids| == |keys|
    decreases |ids|
  {
    if |ids| > 0 {
      var last := ids[|ids| - 1];
      var front := ids[..|ids| - 1];
      forall k | k in keys - {last}
        ensures k in front
      {
        var i :| 0 <= i < |ids| && ids[i] == k;
        assert front[i] == k;
      }
      DistinctCount(front, keys - {last});
    }
  }

  /** The database's `ORDER BY created_at DESC`, given each row's key and `created_at`. */
  method OrderByNewest(stamps: map<Uuid, Timestamp>) returns (ids: seq<Uuid>)
    ensures NewestFirst(stamps, ids)
  {
    ids := [];
    var rest := stamps.Keys;
    while rest != {}
      invariant rest <= stamps.Keys
      invariant forall i :: 0 <= i < |ids| ==> ids[i] in stamps && ids[i] !in rest
      invariant forall k :: k in stamps && k !in rest ==> k in ids
      invariant forall i, j :: 0 <= i < j < |ids| ==> ids[i] != ids[j]
      invariant forall i, j :: 0 <= i < j < |ids| ==> stamps[ids[i]] >= stamps[ids[j]]
      invariant forall i, k :: 0 <= i < |ids| && k in rest ==> stamps[ids[i]] >= stamps[k]
      decreases rest
    {
      var k := Newest(stamps, rest);
      ids := ids + [k];
      rest := rest - {k};
    }
  }

  /** A key of `rest` whose timestamp no other key of `rest` exceeds. */
  method Newest(stamps: map<Uuid, Timestamp>, rest: set<Uuid>) returns (k: Uuid)
    requires rest != {} && rest <= stamps.Keys
    ensures k in rest
    ensures forall j :: j in rest ==> stamps[j] <= stamps[k]
  {
    k :| k in rest;
    var todo := rest - {k};
    while todo != {}
      invariant todo <= rest && k in rest
      invariant forall j :: j in rest && j !in todo ==> stamps[j] <= stamps[k]
      decreases todo
    {
      var j :| j in todo;
      if stamps[j] > stamps[k] {
        k := j;
      }
      todo := todo - {j};
    }
  }
}
