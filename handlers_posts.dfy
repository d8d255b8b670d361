/**
  * The `/api/posts` endpoints of handlers_posts.go. Each handler parses its path
  * id and its body, answers input that does not parse with a 400 and without
  * opening a transaction, and otherwise returns what `BeginTx` reports: its
  * error unchanged, or the row or rows its unit of work captured.
  *
  * The id and the body arrive already parsed: `id` is what `uuid.Parse` and
  * `body` what `json.Unmarshal` made of the request.
  */
module PostEndpoints {
  import opened Wrappers
  import opened Helpers
  import opened Sql
  import opened DbUtils
  import UnitsOfWork

  /** `postsGetAll` */
  method PostsGetAll(db: Database, env: Env) returns (r: Result<seq<Post>>)
    requires db.Valid()
    modifies db
    ensures db.Valid() && ClassifiedAsClientError(r)
    ensures exists err, cap ::
      && Transacts(old(db.Snapshot()), db.fixture, db.onUserDelete, env, UnitsOfWork.PostsGetAll, err, cap, db.Snapshot())
      && cap.PostList? && r == Returned(err, cap.posts)
  {
    var err, cap := db.BeginTx(env, UnitsOfWork.PostsGetAll);
    r := Returned(err, cap.posts);
  }

  /** `postsGet`: a missing post is a nil row, not an error. */
  method PostsGet(db: Database, env: Env, id: Result<Uuid>) returns (r: Result<Option<Post>>)
    requires db.Valid()
    modifies db
    ensures db.Valid() && ClassifiedAsClientError(r)
    ensures id.Err? ==> r == Err(BadRequest(id.error)) && db.Snapshot() == old(db.Snapshot())
    ensures id.Ok? ==> exists err, cap ::
      && Transacts(old(db.Snapshot()), db.fixture, db.onUserDelete, env, UnitsOfWork.PostsGet(id.value), err, cap, db.Snapshot())
      && cap.PostRow? && r == Returned(err, cap.post)
  {
    if id.Err? {
      return Err(BadRequest(id.error));
    }
    var err, cap := db.BeginTx(env, UnitsOfWork.PostsGet(id.value));
    r := Returned(err, cap.post);
  }

  /** `postsCreate`: its unit of work looks the referenced user up first. */
  method PostsCreate(db: Database, env: Env, body: Result<PostInput>) returns (r: Result<Option<Post>>)
    requires db.Valid()
    modifies db
    ensures db.Valid() && ClassifiedAsClientError(r)
    ensures body.Err? ==> r == Err(BadRequest(body.error)) && db.Snapshot() == old(db.Snapshot())
    ensures body.Ok? ==> exists err, cap ::
      && Transacts(old(db.Snapshot()), db.fixture, db.onUserDelete, env, UnitsOfWork.PostsCreate(body.value), err, cap, db.Snapshot())
      && cap.PostRow? && r == Returned(err, cap.post)
  {
    if body.Err? {
      return Err(BadRequest(body.error));
    }
    var err, cap := db.BeginTx(env, UnitsOfWork.PostsCreate(body.value));
    r := Returned(err, cap.post);
  }

  /** `postsUpdate`: the body is decoded before the id is parsed; the unit of work looks the user up before the post. */
  method PostsUpdate(db: Database, env: Env, body: Result<PostInput>, id: Result<Uuid>) returns (r: Result<Option<Post>>)
    requires db.Valid()
    modifies db
    ensures db.Valid() && ClassifiedAsClientError(r)
    ensures body.Err? ==> r == Err(BadRequest(body.error)) && db.Snapshot() == old(db.Snapshot())
    ensures body.Ok? && id.Err? ==> r == Err(BadRequest(id.error)) && db.Snapshot() == old(db.Snapshot())
    ensures body.Ok? && id.Ok? ==> exists err, cap ::
      && Transacts(old(db.Snapshot()), db.fixture, db.onUserDelete, env,
                   UnitsOfWork.PostsUpdate(id.value, body.value), err, cap, db.Snapshot())
      && cap.PostRow? && r == Returned(err, cap.post)
  {
    if body.Err? {
      return Err(BadRequest(body.error));
    }
    if id.Err? {
      return Err(BadRequest(id.error));
    }
    var err, cap := db.BeginTx(env, UnitsOfWork.PostsUpdate(id.value, body.value));
    r := Returned(err, cap.post);
  }

  /** `postsDelete`: unlike every other handler, a malformed id is answered with the 404 of a missing post. */
  method PostsDelete(db: Database, env: Env, id: Result<Uuid>) returns (r: Result<Option<Post>>)
    requires db.Valid()
    modifies db
    ensures db.Valid() && ClassifiedAsClientError(r)
    ensures id.Err? ==> r == Err(UnitsOfWork.POST_NOT_FOUND) && db.Snapshot() == old(db.Snapshot())
    ensures id.Ok? ==> exists err, cap ::
      && Transacts(old(db.Snapshot()), db.fixture, db.onUserDelete, env, UnitsOfWork.PostsDelete(id.value), err, cap, db.Snapshot())
      && cap.PostRow? && r == Returned(err, cap.post)
  {
    if id.Err? {
      return Err(UnitsOfWork.POST_NOT_FOUND);
    }
    var err, cap := db.BeginTx(env, UnitsOfWork.PostsDelete(id.value));
    r := Returned(err, cap.post);
  }
}
