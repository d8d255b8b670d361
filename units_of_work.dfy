/**
  * The closures that the endpoint handlers (handlers_users.go, handlers_posts.go)
  * pass to `BeginTx`. Each runs one or two statements on the transaction,
  * classifies absence as an `*HTTPError`, and on success stores its row or rows
  * in a variable it captured from the handler. Go passes the closure as a value;
  * here `Work` names which closure and with which captured arguments, and `Run`
  * is the call `fn(tx)`.
  */
module UnitsOfWork {
  import opened Wrappers
  import opened Helpers
  import opened Sql
  import Users
  import Posts

  datatype Work =
    | UsersGetAll
    | UsersGet(id: Uuid)
    | UsersCreate(user: UserInput)
    | UsersUpdate(id: Uuid, user: UserInput)
    | UsersDelete(id: Uuid)
    | PostsGetAll
    | PostsGet(id: Uuid)
    | PostsCreate(post: PostInput)
    | PostsUpdate(id: Uuid, post: PostInput)
    | PostsDelete(id: Uuid)

  /** The handler variable the closure writes its result into. */
  datatype Captured =
    | UserList(users: seq<User>)
    | UserRow(user: Option<User>)
    | PostList(posts: seq<Post>)
    | PostRow(post: Option<Post>)

  /** `cap` has the type of the variable the closure of `w` writes. */
  predicate Fits(w: Work, cap: Captured)
  {
    match w
    case UsersGetAll => cap.UserList?
    case PostsGetAll => cap.PostList?
    case UsersGet(_) | UsersCreate(_) | UsersUpdate(_, _) | UsersDelete(_) => cap.UserRow?
    case PostsGet(_) | PostsCreate(_) | PostsUpdate(_, _) | PostsDelete(_) => cap.PostRow?
  }

  /** The captured variable before the closure runs: an empty list, or a nil pointer. */
  function Initial(w: Work): (cap: Captured)
    ensures w.UsersGetAll? ==> cap == UserList([])
    ensures w.PostsGetAll? ==> cap == PostList([])
    ensures (w.UsersGet? || w.UsersCreate? || w.UsersUpdate? || w.UsersDelete?) ==> cap == UserRow(None)
    ensures (w.PostsGet? || w.PostsCreate? || w.PostsUpdate? || w.PostsDelete?) ==> cap == PostRow(None)
    ensures Fits(w, cap)
  {
    match w
    case UsersGetAll => UserList([])
    case PostsGetAll => PostList([])
    case UsersGet(_) | UsersCreate(_) | UsersUpdate(_, _) | UsersDelete(_) => UserRow(None)
    case PostsGet(_) | PostsCreate(_) | PostsUpdate(_, _) | PostsDelete(_) => PostRow(None)
  }

  /** `NewHTTPError(http.StatusNotFound, fmt.Errorf("user does not exist"))` */
  const USER_NOT_FOUND := Classified(NewHTTPError(STATUS_NOT_FOUND, "user does not exist"))

  /** `NewHTTPError(http.StatusBadRequest, fmt.Errorf("user does not exist"))`: a post names a missing user. */
  const USER_MISSING := Classified(NewHTTPError(STATUS_BAD_REQUEST, "user does not exist"))

  /** `NewHTTPError(http.StatusNotFound, fmt.Errorf("post does not exist"))` */
  const POST_NOT_FOUND := Classified(NewHTTPError(STATUS_NOT_FOUND, "post does not exist"))

  /** The closure returned `e` before assigning the captured variable. */
  ghost predicate Failed(w: Work, e: Error, err: Option<Error>, cap: Captured)
  {
    err == Some(e) && cap == Initial(w)
  }

  /**
    * Running the closure of `w` on a transaction that starts from `t` under `c`
    * can return `err`, leave the captured variable at `cap` and the
    * transaction's tables at `t'`. The listings are the only freedom: rows with
    * equal `created_at` come in any order.
    */
  ghost predicate Performs(w: Work, t: Tables, c: TxConditions, err: Option<Error>, cap: Captured, t': Tables)
    requires WellFormed(t)
  {
    match w
    case UsersGetAll =>
      && t' == t
      && if c.readFailure.Some? then Failed(w, Opaque(c.readFailure.value), err, cap)
         else err == None && cap.UserList? && Users.ListsUsers(t.users, cap.users)
    case UsersGet(id) =>
      && t' == t
      && if c.readFailure.Some? then Failed(w, Opaque(c.readFailure.value), err, cap)
         else if id !in t.users then Failed(w, USER_NOT_FOUND, err, cap)
         else err == None && cap == UserRow(Some(t.users[id]))
    case UsersCreate(input) =>
      if c.writeFailure.Some? then t' == t && Failed(w, Opaque(c.writeFailure.value), err, cap)
      else
        var (u, after) := Users.Insert(t, input, c.now);
        t' == after && err == None && cap == UserRow(Some(u))
    case UsersUpdate(id, input) =>
      if c.writeFailure.Some? then t' == t && Failed(w, Opaque(c.writeFailure.value), err, cap)
      else
        var (u, after) := Users.Update(t, id, input);
        && t' == after
        && if u.None? then Failed(w, USER_NOT_FOUND, err, cap)
           else err == None && cap == UserRow(u)
    case UsersDelete(id) =>
      if c.writeFailure.Some? then t' == t && Failed(w, Opaque(c.writeFailure.value), err, cap)
      else
        var (u, after) := Users.Delete(t, id, c.onUserDelete);
        && t' == after
        && if u.Err? then Failed(w, u.error, err, cap)
           else if u.value.None? then Failed(w, USER_NOT_FOUND, err, cap)
           else err == None && cap == UserRow(u.value)
    case PostsGetAll =>
      && t' == t
      && if c.readFailure.Some? then Failed(w, Opaque(c.readFailure.value), err, cap)
         else err == None && cap.PostList? && Posts.ListsPosts(t.posts, cap.posts)
    case PostsGet(id) =>
      && t' == t
      && if c.readFailure.Some? then Failed(w, Opaque(c.readFailure.value), err, cap)
         else err == None && cap == PostRow(if id in t.posts then Some(t.posts[id]) else None)
    case PostsCreate(input) =>
      if c.readFailure.Some? then t' == t && Failed(w, Opaque(c.readFailure.value), err, cap)
      else if input.userId !in t.users then t' == t && Failed(w, USER_MISSING, err, cap)
      else if c.writeFailure.Some? then t' == t && Failed(w, Opaque(c.writeFailure.value), err, cap)
      else
        var (p, after) := Posts.Insert(t, input, c.now);
        && t' == after
        && if p.Err? then Failed(w, p.error, err, cap)
           else err == None && cap == PostRow(Some(p.value))
    case PostsUpdate(id, input) =>
      if c.readFailure.Some? then t' == t && Failed(w, Opaque(c.readFailure.value), err, cap)
      else if input.userId !in t.users then t' == t && Failed(w, USER_MISSING, err, cap)
      else if c.writeFailure.Some? then t' == t && Failed(w, Opaque(c.writeFailure.value), err, cap)
      else
        var (p, after) := Posts.Update(t, id, input);
        && t' == after
        && if p.Err? then Failed(w, p.error, err, cap)
           else if p.value.None? then Failed(w, POST_NOT_FOUND, err, cap)
           else err == None && cap == PostRow(p.value)
    case PostsDelete(id) =>
      if c.writeFailure.Some? then t' == t && Failed(w, Opaque(c.writeFailure.value), err, cap)
      else
        var (p, after) := Posts.Delete(t, id);
        && t' == after
        && if p.None? then Failed(w, POST_NOT_FOUND, err, cap)
           else err == None && cap == PostRow(p)
  }

  /** Whatever the closure of `w` stores has the type of its variable. */
  lemma PerformsFits(w: Work, t: Tables, c: TxConditions, err: Option<Error>, cap: Captured, t': Tables)
    requires WellFormed(t) && Performs(w, t, c, err, cap, t')
    ensures Fits(w, cap)
  {
  }

  /** Every classified error a unit of work returns is a 400 or a 404. */
  lemma ClassifiedCodes(w: Work, t: Tables, c: TxConditions, err: Option<Error>, cap: Captured, t': Tables)
    requires WellFormed(t) && Performs(w, t, c, err, cap, t')
    ensures err.Some? && err.value.Classified? ==>
      err.value.http.code == STATUS_BAD_REQUEST || err.value.http.code == STATUS_NOT_FOUND
  {
  }

  /**
    * The foreign-key guard of `postsCreate` and `postsUpdate`: when the database
    * itself does not fail, the only errors are the handler's own 400 for a
    * missing user and 404 for a missing post, so the database's foreign-key
    * check never fires, and a rejected write leaves the tables as they were.
    */
  lemma PostWritesCheckUserFirst(w: Work, t: Tables, c: TxConditions, err: Option<Error>, cap: Captured, t': Tables)
    requires WellFormed(t) && Performs(w, t, c, err, cap, t')
    requires w.PostsCreate? || w.PostsUpdate?
    requires c.readFailure.None? && c.writeFailure.None?
    ensures err.Some? ==> (err == Some(USER_MISSING) || err == Some(POST_NOT_FOUND)) && t' == t
    ensures err == Some(USER_MISSING) <==> w.post.userId !in t.users
  {
  }

  /** Without failures of the database the only error a unit of work can return is classified, or a refused user delete. */
  lemma HealthyErrorsAreClassified(w: Work, t: Tables, c: TxConditions, err: Option<Error>, cap: Captured, t': Tables)
    requires WellFormed(t) && Performs(w, t, c, err, cap, t')
    requires c.readFailure.None? && c.writeFailure.None?
    ensures err.Some? ==>
      err.value.Classified? || (w.UsersDelete? && c.onUserDelete == Restrict && err == Some(Opaque(Users.DELETE_VIOLATION)))
  {
  }

  /** A user that `usersCreate`'s closure inserted is what `usersGet`'s closure then finds. */
  lemma CreatedUserIsFound(input: UserInput, t: Tables, c: TxConditions, u: User, t1: Tables,
                           c2: TxConditions, err2: Option<Error>, cap2: Captured, t2: Tables)
    requires WellFormed(t) && Performs(UsersCreate(input), t, c, None, UserRow(Some(u)), t1)
    requires WellFormed(t1) && Performs(UsersGet(u.id), t1, c2, err2, cap2, t2)
    requires c2.readFailure.None?
    ensures u.name == input.name && u.email == input.email && u.createdAt == c.now
    ensures err2 == None && cap2 == UserRow(Some(u)) && t2 == t1
  {
  }

  /** After `usersUpdate`'s closure succeeds, `usersGet`'s closure finds the new name and email under the same id. */
  lemma UpdatedUserIsFound(id: Uuid, input: UserInput, t: Tables, c: TxConditions, u: User, t1: Tables,
                           c2: TxConditions, err2: Option<Error>, cap2: Captured, t2: Tables)
    requires WellFormed(t) && Performs(UsersUpdate(id, input), t, c, None, UserRow(Some(u)), t1)
    requires WellFormed(t1) && Performs(UsersGet(id), t1, c2, err2, cap2, t2)
    requires c2.readFailure.None?
    ensures id in t.users && u.id == id && u.name == input.name && u.email == input.email
    ensures u.createdAt == t.users[id].createdAt
    ensures err2 == None && cap2 == UserRow(Some(u))
  {
  }

  /** After `usersDelete`'s closure succeeds, `usersGet`'s closure reports the user as not found. */
  lemma DeletedUserIsGone(id: Uuid, t: Tables, c: TxConditions, u: User, t1: Tables,
                          c2: TxConditions, err2: Option<Error>, cap2: Captured, t2: Tables)
    requires WellFormed(t) && Performs(UsersDelete(id), t, c, None, UserRow(Some(u)), t1)
    requires WellFormed(t1) && Performs(UsersGet(id), t1, c2, err2, cap2, t2)
    requires c2.readFailure.None?
    ensures id in t.users && u == t.users[id]
    ensures err2 == Some(USER_NOT_FOUND) && cap2 == UserRow(None)
  {
  }

  /** A post that `postsCreate`'s closure inserted is what `postsGet`'s closure then finds, and its user exists. */
  lemma CreatedPostIsFound(input: PostInput, t: Tables, c: TxConditions, p: Post, t1: Tables,
                           c2: TxConditions, err2: Option<Error>, cap2: Captured, t2: Tables)
    requires WellFormed(t) && Performs(PostsCreate(input), t, c, None, PostRow(Some(p)), t1)
    requires WellFormed(t1) && Performs(PostsGet(p.id), t1, c2, err2, cap2, t2)
    requires c2.readFailure.None?
    ensures input.userId in t.users && p.userId == input.userId
    ensures p.title == input.title && p.content == input.content
    ensures err2 == None && cap2 == PostRow(Some(p))
  {
  }

  /** After `postsDelete`'s closure succeeds, `postsGet`'s closure finds no post: a nil row, not an error. */
  lemma DeletedPostIsGone(id: Uuid, t: Tables, c: TxConditions, p: Post, t1: Tables,
                          c2: TxConditions, err2: Option<Error>, cap2: Captured, t2: Tables)
    requires WellFormed(t) && Performs(PostsDelete(id), t, c, None, PostRow(Some(p)), t1)
    requires WellFormed(t1) && Performs(PostsGet(id), t1, c2, err2, cap2, t2)
    requires c2.readFailure.None?
    ensures id in t.posts && p == t.posts[id]
    ensures err2 == None && cap2 == PostRow(None)
  {
  }

  /** The closure in `usersGetAll`. */
  method UsersGetAllFn(tx: Tx) returns (err: Option<Error>, cap: Captured)
    requires tx.Valid()
    ensures Performs(UsersGetAll, tx.Snapshot(), tx.Conditions(), err, cap, tx.Snapshot())
  {
    cap := Initial(UsersGetAll);
    var u := Users.UsersGetAllTx(tx);
    if u.Err? {
      return Some(u.error), cap;
    }
    cap := UserList(u.value);
    err := None;
  }

  /** The closure in `usersGet`. */
  method UsersGetFn(tx: Tx, id: Uuid) returns (err: Option<Error>, cap: Captured)
    requires tx.Valid()
    ensures Performs(UsersGet(id), tx.Snapshot(), tx.Conditions(), err, cap, tx.Snapshot())
  {
    cap := Initial(UsersGet(id));
    var u := Users.UsersGetTx(tx, id);
    if u.Err? {
      return Some(u.error), cap;
    }
    if u.value.None? {
      return Some(USER_NOT_FOUND), cap;
    }
    cap := UserRow(u.value);
    err := None;
  }

  /** The closure in `usersCreate`. */
  method UsersCreateFn(tx: Tx, input: UserInput) returns (err: Option<Error>, cap: Captured)
    requires tx.Valid()
    modifies tx
    ensures tx.Valid()
    ensures Performs(UsersCreate(input), old(tx.Snapshot()), tx.Conditions(), err, cap, tx.Snapshot())
  {
    cap := Initial(UsersCreate(input));
    var u := Users.UsersCreateTx(tx, input);
    if u.Err? {
      return Some(u.error), cap;
    }
    cap := UserRow(Some(u.value));
    err := None;
  }

  /** The closure in `usersUpdate`. */
  method UsersUpdateFn(tx: Tx, id: Uuid, input: UserInput) returns (err: Option<Error>, cap: Captured)
    requires tx.Valid()
    modifies tx
    ensures tx.Valid()
    ensures Performs(UsersUpdate(id, input), old(tx.Snapshot()), tx.Conditions(), err, cap, tx.Snapshot())
  {
    cap := Initial(UsersUpdate(id, input));
    var u := Users.UsersUpdateTx(tx, id, input);
    if u.Err? {
      return Some(u.error), cap;
    }
    if u.value.None? {
      return Some(USER_NOT_FOUND), cap;
    }
    cap := UserRow(u.value);
    err := None;
  }

  /** The closure in `usersDelete`. */
  method UsersDeleteFn(tx: Tx, id: Uuid) returns (err: Option<Error>, cap: Captured)
    requires tx.Valid()
    modifies tx
    ensures tx.Valid()
    ensures Performs(UsersDelete(id), old(tx.Snapshot()), tx.Conditions(), err, cap, tx.Snapshot())
  {
    cap := Initial(UsersDelete(id));
    var u := Users.UsersDeleteTx(tx, id);
    if u.Err? {
      return Some(u.error), cap;
    }
    if u.value.None? {
      return Some(USER_NOT_FOUND), cap;
    }
    cap := UserRow(u.value);
    err := None;
  }

  /** The closure in `postsGetAll`. */
  method PostsGetAllFn(tx: Tx) returns (err: Option<Error>, cap: Captured)
    requires tx.Valid()
    ensures Performs(PostsGetAll, tx.Snapshot(), tx.Conditions(), err, cap, tx.Snapshot())
  {
    cap := Initial(PostsGetAll);
    var p := Posts.PostsGetAllTx(tx);
    if p.Err? {
      return Some(p.error), cap;
    }
    cap := PostList(p.value);
    err := None;
  }

  /** The closure in `postsGet`: a missing post is stored as nil, not reported. */
  method PostsGetFn(tx: Tx, id: Uuid) returns (err: Option<Error>, cap: Captured)
    requires tx.Valid()
    ensures Performs(PostsGet(id), tx.Snapshot(), tx.Conditions(), err, cap, tx.Snapshot())
  {
    cap := Initial(PostsGet(id));
    var p := Posts.PostsGetTx(tx, id);
    if p.Err? {
      return Some(p.error), cap;
    }
    cap := PostRow(p.value);
    err := None;
  }

  /** The closure in `postsCreate`: the referenced user is looked up before the insert. */
  method PostsCreateFn(tx: Tx, input: PostInput) returns (err: Option<Error>, cap: Captured)
    requires tx.Valid()
    modifies tx
    ensures tx.Valid()
    ensures Performs(PostsCreate(input), old(tx.Snapshot()), tx.Conditions(), err, cap, tx.Snapshot())
  {
    cap := Initial(PostsCreate(input));
    var u := Users.UsersGetTx(tx, input.userId);
    if u.Err? {
      return Some(u.error), cap;
    }
    if u.value.None? {
      return Some(USER_MISSING), cap;
    }
    var p := Posts.PostsCreateTx(tx, input);
    if p.Err? {
      return Some(p.error), cap;
    }
    cap := PostRow(Some(p.value));
    err := None;
  }

  /** The closure in `postsUpdate`: the referenced user is looked up before the post is. */
  method PostsUpdateFn(tx: Tx, id: Uuid, input: PostInput) returns (err: Option<Error>, cap: Captured)
    requires tx.Valid()
    modifies tx
    ensures tx.Valid()
    ensures Performs(PostsUpdate(id, input), old(tx.Snapshot()), tx.Conditions(), err, cap, tx.Snapshot())
  {
    cap := Initial(PostsUpdate(id, input));
    var u := Users.UsersGetTx(tx, input.userId);
    if u.Err? {
      return Some(u.error), cap;
    }
    if u.value.None? {
      return Some(USER_MISSING), cap;
    }
    var p := Posts.PostsUpdateTx(tx, id, input);
    if p.Err? {
      return Some(p.error), cap;
    }
    if p.value.None? {
      return Some(POST_NOT_FOUND), cap;
    }
    cap := PostRow(p.value);
    err := None;
  }

  /** The closure in `postsDelete`. */
  method PostsDeleteFn(tx: Tx, id: Uuid) returns (err: Option<Error>, cap: Captured)
    requires tx.Valid()
    modifies tx
    ensures tx.Valid()
    ensures Performs(PostsDelete(id), old(tx.Snapshot()), tx.Conditions(), err, cap, tx.Snapshot())
  {
    cap := Initial(PostsDelete(id));
    var p := Posts.PostsDeleteTx(tx, id);
    if p.Err? {
      return Some(p.error), cap;
    }
    if p.value.None? {
      return Some(POST_NOT_FOUND), cap;
    }
    cap := PostRow(p.value);
    err := None;
  }

  /** `fn(tx)`: calls the closure that `w` names. */
  method Run(tx: Tx, w: Work) returns (err: Option<Error>, cap: Captured)
    requires tx.Valid()
    modifies tx
    ensures tx.Valid()
    ensures Performs(w, old(tx.Snapshot()), tx.Conditions(), err, cap, tx.Snapshot())
  {
    match w
    case UsersGetAll => err, cap := UsersGetAllFn(tx);
    case UsersGet(id) => err, cap := UsersGetFn(tx, id);
    case UsersCreate(input) => err, cap := UsersCreateFn(tx, input);
    case UsersUpdate(id, input) => err, cap := UsersUpdateFn(tx, id, input);
    case UsersDelete(id) => err, cap := UsersDeleteFn(tx, id);
    case PostsGetAll => err, cap := PostsGetAllFn(tx);
    case PostsGet(id) => err, cap := PostsGetFn(tx, id);
    case PostsCreate(input) => err, cap := PostsCreateFn(tx, input);
    case PostsUpdate(id, input) => err, cap := PostsUpdateFn(tx, id, input);
    case PostsDelete(id) => err, cap := PostsDeleteFn(tx, id);
  }
}
