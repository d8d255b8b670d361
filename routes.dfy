/**
  * The `/api` part of routes.go: which adapter each endpoint is registered
  * with. GET and DELETE go through `handleQuery`, POST and PUT through
  * `handleMutation`. Matching a path to a route is not part of this model;
  * a `Request` names the matched route and carries its parsed id and body.
  */
module Routes {
  import opened Wrappers
  import opened Helpers
  import opened Sql
  import opened DbUtils
  import opened Middleware
  import UnitsOfWork
  import UserEndpoints
  import PostEndpoints

  datatype Request =
    | GetUsers                                                // GET    /api/users
    | GetUser(id: Result<Uuid>)                               // GET    /api/users/:id
    | PostUser(user: Result<UserInput>)                       // POST   /api/users
    | DeleteUser(id: Result<Uuid>)                            // DELETE /api/users/:id
    | PutUser(id: Result<Uuid>, user: Result<UserInput>)      // PUT    /api/users/:id
    | GetPosts                                                // GET    /api/posts
    | GetPost(id: Result<Uuid>)                               // GET    /api/posts/:id
    | PostPost(post: Result<PostInput>)                       // POST   /api/posts
    | DeletePost(id: Result<Uuid>)                            // DELETE /api/posts/:id
    | PutPost(id: Result<Uuid>, post: Result<PostInput>)      // PUT    /api/posts/:id

  /** The routes registered with `handleMutation`. */
  predicate IsMutation(req: Request)
  {
    req.PostUser? || req.PutUser? || req.PostPost? || req.PutPost?
  }

  /** The value `response.JSON` encodes. */
  datatype Payload =
    | UsersJson(users: seq<User>)
    | UserJson(user: Option<User>)
    | PostsJson(posts: seq<Post>)
    | PostJson(post: Option<Post>)

  /** The unit of work a request hands to `BeginTx`, or `None` when its input does not parse and no transaction starts. */
  function WorkOf(req: Request): (w: Option<UnitsOfWork.Work>)
    ensures req.GetUsers? ==> w == Some(UnitsOfWork.UsersGetAll)
    ensures req.GetPosts? ==> w == Some(UnitsOfWork.PostsGetAll)
    ensures (req.GetUser? || req.DeleteUser? || req.GetPost? || req.DeletePost?) ==> (w.Some? <==> req.id.Ok?)
    ensures req.PostUser? ==> (w.Some? <==> req.user.Ok?)
    ensures req.PostPost? ==> (w.Some? <==> req.post.Ok?)
    ensures req.PutUser? ==> (w.Some? <==> req.id.Ok? && req.user.Ok?)
    ensures req.PutPost? ==> (w.Some? <==> req.id.Ok? && req.post.Ok?)
  {
    match req
    case GetUsers => Some(UnitsOfWork.UsersGetAll)
    case GetUser(id) => if id.Ok? then Some(UnitsOfWork.UsersGet(id.value)) else None
    case PostUser(u) => if u.Ok? then Some(UnitsOfWork.UsersCreate(u.value)) else None
    case DeleteUser(id) => if id.Ok? then Some(UnitsOfWork.UsersDelete(id.value)) else None
    case PutUser(id, u) => if u.Ok? && id.Ok? then Some(UnitsOfWork.UsersUpdate(id.value, u.value)) else None
    case GetPosts => Some(UnitsOfWork.PostsGetAll)
    case GetPost(id) => if id.Ok? then Some(UnitsOfWork.PostsGet(id.value)) else None
    case PostPost(p) => if p.Ok? then Some(UnitsOfWork.PostsCreate(p.value)) else None
    case DeletePost(id) => if id.Ok? then Some(UnitsOfWork.PostsDelete(id.value)) else None
    case PutPost(id, p) => if p.Ok? && id.Ok? then Some(UnitsOfWork.PostsUpdate(id.value, p.value)) else None
  }

  /** What serving `req` can do to the tables `before`: nothing without a transaction, otherwise what `beginTx` does. */
  ghost predicate Effect(req: Request, before: Tables, fixture: Option<Fixture>, rule: DeleteRule, env: Env, after: Tables)
    requires WellFormed(before) && Integrity(before)
  {
    match WorkOf(req)
    case None => after == before
    case Some(w) => exists err, cap :: Transacts(before, fixture, rule, env, w, err, cap, after)
  }

  /** A handler's result with its value as the payload `handleQuery` encodes. */
  function Encoded<T>(r: Result<T>, wrap: T -> Payload): Result<Payload>
  {
    if r.Err? then Err(r.error) else Ok(wrap(r.value))
  }

  /** A handler's result with its non-nil row as the payload `handleMutation` encodes. */
  function EncodedRow<T>(r: Result<Option<T>>, wrap: Option<T> -> Payload): Result<Option<Payload>>
  {
    if r.Err? then Err(r.error) else if r.value.None? then Ok(None) else Ok(Some(wrap(r.value)))
  }

  /**
    * One request through `recoverPanic`, the adapter its route is registered
    * with, and its endpoint, with the handler goroutine recovering its own
    * panics (see `HandleQueryRecovering`). `bodyReadFailure` is whether
    * `io.ReadAll` of the body fails, `cancelled` whether the request's context
    * ends first, `encodeFailure` whether `response.JSON` fails.
    */
  method Serve(db: Database, env: Env, req: Request, bodyReadFailure: bool, cancelled: bool, encodeFailure: bool)
    returns (s: Served<Payload>)
    requires db.Valid()
    modifies db
    ensures db.Valid()
    ensures s.Answered?
    ensures s.response.Respond? ==>
      s.response.status in {STATUS_OK, STATUS_BAD_REQUEST, STATUS_NOT_FOUND, STATUS_INTERNAL_SERVER_ERROR}
    ensures IsMutation(req) && bodyReadFailure ==>
      && s == Answered(Respond(STATUS_BAD_REQUEST, PlainText(READ_BODY_ERROR)))
      && db.Snapshot() == old(db.Snapshot())
    ensures !(IsMutation(req) && bodyReadFailure) ==>
      && Effect(req, old(db.Snapshot()), db.fixture, db.onUserDelete, env, db.Snapshot())
      && (cancelled ==> s.response.NoResponse?)
    ensures !cancelled ==> s.response.Respond?
    ensures !cancelled && !(IsMutation(req) && bodyReadFailure) && WorkOf(req).None? ==>
      s.response.status == (if req.DeletePost? then STATUS_NOT_FOUND else STATUS_BAD_REQUEST)
  {
    if IsMutation(req) && bodyReadFailure {
      return RecoverPanic(None, HandleMutationRecovering<Payload>(true, cancelled, Completed(Ok(None)), encodeFailure));
    }
    var inner: Served<Payload>;
    match req {
      case GetUsers =>
        var r := UserEndpoints.UsersGetAll(db, env);
        var f := Completed(Encoded(r, rows => UsersJson(rows)));
        QueryRecoveringStatus(cancelled, f, encodeFailure);
        inner := HandleQueryRecovering(cancelled, f, encodeFailure);
      case GetUser(id) =>
        var r := UserEndpoints.UsersGet(db, env, id);
        var f := Completed(Encoded(r, row => UserJson(row)));
        QueryRecoveringStatus(cancelled, f, encodeFailure);
        inner := HandleQueryRecovering(cancelled, f, encodeFailure);
      case PostUser(u) =>
        var r := UserEndpoints.UsersCreate(db, env, u);
        var f := Completed(EncodedRow(r, row => UserJson(row)));
        MutationRecoveringStatus(false, cancelled, f, encodeFailure);
        inner := HandleMutationRecovering(false, cancelled, f, encodeFailure);
      case DeleteUser(id) =>
        var r := UserEndpoints.UsersDelete(db, env, id);
        var f := Completed(Encoded(r, row => UserJson(row)));
        QueryRecoveringStatus(cancelled, f, encodeFailure);
        inner := HandleQueryRecovering(cancelled, f, encodeFailure);
      case PutUser(id, u) =>
        var r := UserEndpoints.UsersUpdate(db, env, u, id);
        var f := Completed(EncodedRow(r, row => UserJson(row)));
        MutationRecoveringStatus(false, cancelled, f, encodeFailure);
        inner := HandleMutationRecovering(false, cancelled, f, encodeFailure);
      case GetPosts =>
        var r := PostEndpoints.PostsGetAll(db, env);
        var f := Completed(Encoded(r, rows => PostsJson(rows)));
        QueryRecoveringStatus(cancelled, f, encodeFailure);
        inner := HandleQueryRecovering(cancelled, f, encodeFailure);
      case GetPost(id) =>
        var r := PostEndpoints.PostsGet(db, env, id);
        var f := Completed(Encoded(r, row => PostJson(row)));
        QueryRecoveringStatus(cancelled, f, encodeFailure);
        inner := HandleQueryRecovering(cancelled, f, encodeFailure);
      case PostPost(p) =>
        var r := PostEndpoints.PostsCreate(db, env, p);
        var f := Completed(EncodedRow(r, row => PostJson(row)));
        MutationRecoveringStatus(false, cancelled, f, encodeFailure);
        inner := HandleMutationRecovering(false, cancelled, f, encodeFailure);
      case DeletePost(id) =>
        var r := PostEndpoints.PostsDelete(db, env, id);
        var f := Completed(Encoded(r, row => PostJson(row)));
        QueryRecoveringStatus(cancelled, f, encodeFailure);
        inner := HandleQueryRecovering(cancelled, f, encodeFailure);
      case PutPost(id, p) =>
        var r := PostEndpoints.PostsUpdate(db, env, p, id);
        var f := Completed(EncodedRow(r, row => PostJson(row)));
        MutationRecoveringStatus(false, cancelled, f, encodeFailure);
        inner := HandleMutationRecovering(false, cancelled, f, encodeFailure);
    }
    s := RecoverPanic(None, inner);
  }

  /**
    * `GET /api/posts/:id` for a post that does not exist is answered 200 with
    * the JSON `null`: `postsGet` does not turn absence into an error and
    * `handleQuery` has no nil check.
    */
  lemma MissingPostIsOkNull(db: Tables, fixture: Option<Fixture>, rule: DeleteRule, env: Env, id: Uuid,
                            err: Option<Error>, cap: UnitsOfWork.Captured, end: Tables)
    requires WellFormed(db) && Integrity(db)
    requires Transacts(db, fixture, rule, env, UnitsOfWork.PostsGet(id), err, cap, end)
    requires env.openFailure.None? && env.beginFailure.None? && env.readFailure.None? && env.commitFailure.None?
    requires id !in Opened(db, fixture, env.now).posts
    ensures err == None && cap == UnitsOfWork.PostRow(None)
    ensures HandleQueryRecovering(false, Completed(Encoded(Returned(err, cap.post), row => PostJson(row))), false)
         == Answered(Respond(STATUS_OK, Json(PostJson(None))))
  {
    var start := Opened(db, fixture, env.now);
    var workErr, after :| Concludes(start, env, rule, UnitsOfWork.PostsGet(id), workErr, cap, after, err, end);
  }

  /** `GET /api/users/:id` for a user that does not exist is answered 404 with the message "user does not exist". */
  lemma MissingUserIsNotFound(db: Tables, fixture: Option<Fixture>, rule: DeleteRule, env: Env, id: Uuid,
                              err: Option<Error>, cap: UnitsOfWork.Captured, end: Tables)
    requires WellFormed(db) && Integrity(db)
    requires Transacts(db, fixture, rule, env, UnitsOfWork.UsersGet(id), err, cap, end)
    requires env.openFailure.None? && env.beginFailure.None? && env.readFailure.None?
    requires id !in Opened(db, fixture, env.now).users
    ensures err == Some(UnitsOfWork.USER_NOT_FOUND) && cap == UnitsOfWork.UserRow(None)
    ensures HandleQueryRecovering(false, Completed(Encoded(Returned(err, cap.user), row => UserJson(row))), false)
         == Answered(Respond(STATUS_NOT_FOUND, ErrorMessage("user does not exist")))
  {
    var start := Opened(db, fixture, env.now);
    var workErr, after :| Concludes(start, env, rule, UnitsOfWork.UsersGet(id), workErr, cap, after, err, end);
  }
}
