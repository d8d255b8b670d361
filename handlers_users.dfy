/**
  * The `/api/users` endpoints of handlers_users.go. Each handler parses its path
  * id and its body, answers input that does not parse with a 400 and without
  * opening a transaction, and otherwise returns what `BeginTx` reports: its
  * error unchanged, or the row or rows its unit of work captured.
  *
  * The id and the body arrive already parsed: `id` is what `uuid.Parse` and
  * `body` what `json.Unmarshal` made of the request.
  */
module UserEndpoints {
  import opened Wrappers
  import opened Helpers
  import opened Sql
  import opened DbUtils
  import UnitsOfWork

  /** `usersGetAll` */
  method UsersGetAll(db: Database, env: Env) returns (r: Result<seq<User>>)
    requires db.Valid()
    modifies db
    ensures db.Valid() && ClassifiedAsClientError(r)
    ensures exists err, cap ::
      && Transacts(old(db.Snapshot()), db.fixture, db.onUserDelete, env, UnitsOfWork.UsersGetAll, err, cap, db.Snapshot())
      && cap.UserList? && r == Returned(err, cap.users)
  {
    var err, cap := db.BeginTx(env, UnitsOfWork.UsersGetAll);
    r := Returned(err, cap.users);
  }

  /** `usersGet` */
  method UsersGet(db: Database, env: Env, id: Result<Uuid>) returns (r: Result<Option<User>>)
    requires db.Valid()
    modifies db
    ensures db.Valid() && ClassifiedAsClientError(r)
    ensures id.Err? ==> r == Err(BadRequest(id.error)) && db.Snapshot() == old(db.Snapshot())
    ensures id.Ok? ==> exists err, cap ::
      && Transacts(old(db.Snapshot()), db.fixture, db.onUserDelete, env, UnitsOfWork.UsersGet(id.value), err, cap, db.Snapshot())
      && cap.UserRow? && r == Returned(err, cap.user)
  {
    if id.Err? {
      return Err(BadRequest(id.error));
    }
    var err, cap := db.BeginTx(env, UnitsOfWork.UsersGet(id.value));
    r := Returned(err, cap.user);
  }

  /** `usersCreate` */
  method UsersCreate(db: Database, env: Env, body: Result<UserInput>) returns (r: Result<Option<User>>)
    requires db.Valid()
    modifies db
    ensures db.Valid() && ClassifiedAsClientError(r)
    ensures body.Err? ==> r == Err(BadRequest(body.error)) && db.Snapshot() == old(db.Snapshot())
    ensures body.Ok? ==> exists err, cap ::
      && Transacts(old(db.Snapshot()), db.fixture, db.onUserDelete, env, UnitsOfWork.UsersCreate(body.value), err, cap, db.Snapshot())
      && cap.UserRow? && r == Returned(err, cap.user)
  {
    if body.Err? {
      return Err(BadRequest(body.error));
    }
    var err, cap := db.BeginTx(env, UnitsOfWork.UsersCreate(body.value));
    r := Returned(err, cap.user);
  }

  /** `usersUpdate`: the body is decoded before the id is parsed. */
  method UsersUpdate(db: Database, env: Env, body: Result<UserInput>, id: Result<Uuid>) returns (r: Result<Option<User>>)
    requires db.Valid()
    modifies db
    ensures db.Valid() && ClassifiedAsClientError(r)
    ensures body.Err? ==> r == Err(BadRequest(body.error)) && db.Snapshot() == old(db.Snapshot())
    ensures body.Ok? && id.Err? ==> r == Err(BadRequest(id.error)) && db.Snapshot() == old(db.Snapshot())
    ensures body.Ok? && id.Ok? ==> exists err, cap ::
      && Transacts(old(db.Snapshot()), db.fixture, db.onUserDelete, env,
                   UnitsOfWork.UsersUpdate(id.value, body.value), err, cap, db.Snapshot())
      && cap.UserRow? && r == Returned(err, cap.user)
  {
    if body.Err? {
      return Err(BadRequest(body.error));
    }
    if id.Err? {
      return Err(BadRequest(id.error));
    }
    var err, cap := db.BeginTx(env, UnitsOfWork.UsersUpdate(id.value, body.value));
    r := Returned(err, cap.user);
  }

  /** `usersDelete` */
  method UsersDelete(db: Database, env: Env, id: Result<Uuid>) returns (r: Result<Option<User>>)
    requires db.Valid()
    modifies db
    ensures db.Valid() && ClassifiedAsClientError(r)
    ensures id.Err? ==> r == Err(BadRequest(id.error)) && db.Snapshot() == old(db.Snapshot())
    ensures id.Ok? ==> exists err, cap ::
      && Transacts(old(db.Snapshot()), db.fixture, db.onUserDelete, env, UnitsOfWork.UsersDelete(id.value), err, cap, db.Snapshot())
      && cap.UserRow? && r == Returned(err, cap.user)
  {
    if id.Err? {
      return Err(BadRequest(id.error));
    }
    var err, cap := db.BeginTx(env, UnitsOfWork.UsersDelete(id.value));
    r := Returned(err, cap.user);
  }
}
