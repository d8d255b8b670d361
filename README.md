# trase-demo API core, modelled in Dafny

This project models the JSON API of `trase-demo`: a Go HTTP server with users and posts stored in PostgreSQL. The model has these layers:

- **Error value.** `handlers.HTTPError` is the error a handler raises to choose the HTTP status (module `Helpers`).
- **SQL statements.** These are the statements of `handlers/users.go` and `handlers/posts.go`.
  - As pure functions on a snapshot of the two tables: `Users.Insert/Update/Delete` and `Posts.Insert/Update/Delete`.
  - As methods on an open transaction `Sql.Tx`, whose tables they change in place.
  - A listing is a loop: the ordered query's cursor appends each row to the result.
- **Units of work.** These are the closures the endpoint handlers pass to `BeginTx` (module `UnitsOfWork`).
  - `Work` names a closure and its captured arguments. `Run` is the call `fn(tx)`.
  - The ghost predicate `Performs` specifies what each closure does: what it returns, what it stores in the handler's variable, and what it leaves in the transaction.
- **Database.** The production `DB` and the test `TestDB` of `utils/db.go` are one class, `DbUtils.Database`.
  - `BeginTx` opens a connection. On a test database this truncates every table and writes the fixture rows again.
  - It then runs BEGIN and the unit of work, and commits only when nothing failed.
  - It is proved against the ghost predicate `Transacts`.
- **Endpoints and adapters.**
  - The endpoint handlers of `handlers_users.go` and `handlers_posts.go`.
  - The adapters `handleQuery` and `handleMutation` and `recoverPanic` of `middleware.go`.
  - The `/api` routes of `routes.go`, combined in `Routes.Serve`.

What the model cannot see is a parameter:

- An `Env` holds the error, if any, that opening a connection, BEGIN, the SELECTs, the writes and COMMIT each report. It also holds the transaction's clock reading.
- Booleans say whether reading the request body fails, whether the request is cancelled first, and whether JSON encoding fails.
- Path ids and request bodies arrive already parsed, as `Result` values.

The database schema is not part of the repository's core, but three of its rules matter, and the model fixes them as follows:

- A post's `user_id` must name an existing user (the foreign key). This is `Sql.Integrity`, and every operation is proved to preserve it.
- Ids and `created_at` come from column defaults. Here they are a counter and the transaction's `now`.
- Deleting a user that posts still reference is either refused or cascades to those posts. Both are modelled as `Sql.DeleteRule`. The delete test in `users_test.go` deletes a user that a fixture post references and expects success, so the delete is at least not restricted. Cascading is the choice the model can express; a schema that sets `user_id` to NULL instead is not modelled.

## Model

| member | source | states |
|---|---|---|
| `Helpers.HTTPError.Error` | api/cmd/api/handlers/helpers.go:10-12 | The text starts with "Error Code " and then holds the code and the message. |
| `Helpers.NewHTTPError` | api/cmd/api/handlers/helpers.go:14-19 | The error carries exactly the given code and wrapped error. |
| `Helpers.FormatInt` | api/cmd/api/handlers/helpers.go:11 | `%d` writes a non-empty text of digits and a minus sign. |
| `Helpers.ParseFormatInt` | api/cmd/api/handlers/helpers.go:11 | Reading the `%d` text back gives the same integer. |
| `Helpers.ErrorRoundTrip` | api/cmd/api/handlers/helpers.go:10-12 | The code and the message can be read back from `Error()`'s text, so the format loses nothing. |
| `Helpers.ErrorInjective` | api/cmd/api/handlers/helpers.go:10-12 | Two HTTP errors with the same `Error()` text are equal. |
| `Helpers.Returned` | api/cmd/api/handlers_users.go:34-37 | A handler returns an error exactly when `BeginTx` did, that error unchanged, and otherwise the captured value. |
| `Helpers.BadRequest` | api/cmd/api/handlers_users.go:52-55 | Input that does not parse becomes a 400 that carries the parse error's text. |
| `Sql.Tx.constructor` | api/cmd/api/utils/db.go:123 | A new transaction sees exactly the tables as they were at BEGIN, under that request's failures, clock and delete rule. |
| `Sql.OrderByNewest` | api/cmd/api/handlers/users.go:65 | `ORDER BY created_at DESC`: every key exactly once, with non-increasing timestamps. |
| `Users.Insert` | api/cmd/api/handlers/users.go:37-42 | A new row under an id not in use, with the given name and email, `created_at` now and no `updated_at`. Nothing else changes. Well-formedness and the foreign key are kept. |
| `Users.Update` | api/cmd/api/handlers/users.go:44-52 | An unknown id gives no row and no change. Otherwise only name and email of that row change, and the row is returned. |
| `Users.Delete` | api/cmd/api/handlers/users.go:54-62 | An unknown id gives no row and no change. A referenced user under `Restrict` gives the driver error and no change. Otherwise the row is returned and removed, with exactly the posts not referencing it kept. The foreign key is kept. |
| `Users.ListsUsersCount` | api/cmd/api/handlers/users.go:64-85 | A listing of the table has exactly one entry per row. |
| `Users.UsersGetTx` | api/cmd/api/handlers/users.go:27-35 | A read failure is returned as the error. Otherwise there is no error, and a row is returned exactly when the id is present, and it is that row. |
| `Users.UsersCreateTx` | api/cmd/api/handlers/users.go:37-42 | A write failure returns an error and leaves the transaction unchanged. Otherwise the result and the transaction's new tables are those of `Users.Insert`. |
| `Users.UsersUpdateTx` | api/cmd/api/handlers/users.go:44-52 | As `UsersCreateTx`, with `Users.Update`. |
| `Users.UsersDeleteTx` | api/cmd/api/handlers/users.go:54-62 | As `UsersCreateTx`, with `Users.Delete` under the transaction's delete rule. |
| `Users.UsersGetAllTx` | api/cmd/api/handlers/users.go:64-85 | A read failure is returned as the error. Otherwise every row of `users` comes exactly once, newest first. |
| `Posts.Insert` | api/cmd/api/handlers/posts.go:39-44 | A missing user gives the foreign-key error and no change. Otherwise a new row under an id not in use, with the given title, content and user, `created_at` now; nothing else changes. The foreign key is kept. |
| `Posts.Update` | api/cmd/api/handlers/posts.go:46-54 | An unknown id gives no row and no change. A missing user gives the foreign-key error and no change. Otherwise only title, content and user of that row change. |
| `Posts.Delete` | api/cmd/api/handlers/posts.go:56-64 | An unknown id gives no row and no change. Otherwise the row is returned and removed, and users are untouched. |
| `Posts.ListsPostsCount` | api/cmd/api/handlers/posts.go:66-84 | A listing of the table has exactly one entry per row. |
| `Posts.PostsGetTx` | api/cmd/api/handlers/posts.go:29-37 | A read failure is returned as the error. Otherwise a row is returned exactly when the id is present, and it is that row. |
| `Posts.PostsCreateTx` | api/cmd/api/handlers/posts.go:39-44 | A write failure returns an error and leaves the transaction unchanged. Otherwise the result and new tables are those of `Posts.Insert`. |
| `Posts.PostsUpdateTx` | api/cmd/api/handlers/posts.go:46-54 | As `PostsCreateTx`, with `Posts.Update`. |
| `Posts.PostsDeleteTx` | api/cmd/api/handlers/posts.go:56-64 | As `PostsCreateTx`, with `Posts.Delete`. |
| `Posts.PostsGetAllTx` | api/cmd/api/handlers/posts.go:66-84 | A read failure is returned as the error. Otherwise every row of `posts` comes exactly once, newest first. |
| `UnitsOfWork.Initial` | api/cmd/api/handlers_users.go:25 | Before its closure runs, a handler's variable is an empty list or a nil row, of the closure's type. |
| `UnitsOfWork.PerformsFits` | api/cmd/api/handlers_users.go:26-33 | Whatever a closure stores has the type of the handler's variable. |
| `UnitsOfWork.ClassifiedCodes` | api/cmd/api/handlers_posts.go:139-157 | Every HTTP error a closure raises is a 400 or a 404. |
| `UnitsOfWork.PostWritesCheckUserFirst` | api/cmd/api/handlers_posts.go:91-106 | When the database does not fail, creating or updating a post fails only with the handler's own 400 (exactly when the user is missing) or 404, and then writes nothing. So the database's foreign-key error never reaches the client. |
| `UnitsOfWork.HealthyErrorsAreClassified` | api/cmd/api/handlers_users.go:166-176 | When the database does not fail, every closure's error is an HTTP error, except a user delete refused under `Restrict`. |
| `UnitsOfWork.CreatedUserIsFound` | api/cmd/api/handlers_users.go:93-100 | A user the create closure inserted is what the get closure then finds, with the given name and email. |
| `UnitsOfWork.UpdatedUserIsFound` | api/cmd/api/handlers_users.go:132-142 | After a successful update, the get closure finds the new name and email under the same id and the old `created_at`. |
| `UnitsOfWork.DeletedUserIsGone` | api/cmd/api/handlers_users.go:166-176 | After a successful delete, the get closure reports "user does not exist" with a 404. |
| `UnitsOfWork.CreatedPostIsFound` | api/cmd/api/handlers_posts.go:91-106 | A post the create closure inserted references an existing user and is what the get closure finds. |
| `UnitsOfWork.DeletedPostIsGone` | api/cmd/api/handlers_posts.go:181-191 | After a successful delete, the get closure finds a nil post and raises no error. |
| `UnitsOfWork.UsersGetAllFn` | api/cmd/api/handlers_users.go:26-33 | Its error, stored variable and tables are as `Performs` says for this closure. |
| `UnitsOfWork.UsersGetFn` | api/cmd/api/handlers_users.go:57-67 | As `Performs` says: a read error, a 404 "user does not exist" when the id is absent, or the row. |
| `UnitsOfWork.UsersCreateFn` | api/cmd/api/handlers_users.go:93-100 | As `Performs` says: a write error, or the inserted row and its tables. |
| `UnitsOfWork.UsersUpdateFn` | api/cmd/api/handlers_users.go:132-142 | As `Performs` says: a write error, a 404 for an unknown id, or the updated row. |
| `UnitsOfWork.UsersDeleteFn` | api/cmd/api/handlers_users.go:166-176 | As `Performs` says: a write or constraint error, a 404 for an unknown id, or the deleted row. |
| `UnitsOfWork.PostsGetAllFn` | api/cmd/api/handlers_posts.go:26-33 | Its error, stored variable and tables are as `Performs` says for this closure. |
| `UnitsOfWork.PostsGetFn` | api/cmd/api/handlers_posts.go:57-64 | As `Performs` says: a read error, or the row or nil, with no error for a missing post. |
| `UnitsOfWork.PostsCreateFn` | api/cmd/api/handlers_posts.go:91-106 | As `Performs` says: the user is looked up first, and a missing user is a 400 before anything is written. |
| `UnitsOfWork.PostsUpdateFn` | api/cmd/api/handlers_posts.go:139-157 | As `Performs` says: user check first (400), then the update, with a 404 for an unknown post. |
| `UnitsOfWork.PostsDeleteFn` | api/cmd/api/handlers_posts.go:181-191 | As `Performs` says: a write error, a 404 for an unknown id, or the deleted row. |
| `UnitsOfWork.Run` | api/cmd/api/utils/db.go:127 | Calling the closure does what `Performs` says for it. |
| `DbUtils.Seed` | api/cmd/api/utils/db.go:73-103 | After a test open, exactly the two fixture users and the two fixture posts exist, with the fixture names, emails, titles and contents; post 1 belongs to user 1 and post 2 to user 2. The tables are well-formed and satisfy the foreign key. |
| `DbUtils.Opened` | api/cmd/api/utils/db.go:24-26 | Opening a connection leaves a production database as it is and reseeds a test database. |
| `DbUtils.PerformsPreservesIntegrity` | api/cmd/api/handlers_users.go:26-33 | No unit of work can break well-formedness or the foreign key. |
| `DbUtils.TransactsPreservesIntegrity` | api/cmd/api/utils/db.go:118-132 | No transaction, failed or committed, can break well-formedness or the foreign key. |
| `DbUtils.FailedTransactionKeepsNothing` | api/cmd/api/utils/db.go:118-132 | A transaction that returns an error keeps none of its writes. |
| `DbUtils.HealthyTransactionCommits` | api/cmd/api/utils/db.go:127-131 | A successful transaction commits exactly what its unit of work left. |
| `DbUtils.ConcludedCommit` | api/cmd/api/utils/db.go:127-131 | Once BEGIN succeeded, a nil error means the unit of work returned nil, COMMIT succeeded, and the tables are exactly what the unit of work left. |
| `DbUtils.CommittedUserIsVisible` | api/cmd/api/utils/db.go:118-132 | On a production database, a user committed by one request is found by a later request. |
| `DbUtils.TestDatabaseForgets` | api/cmd/api/handlers/users_test.go:13-73 | On the test database, a healthy listing of users returns exactly the two fixture users, whatever was committed before. |
| `DbUtils.FixtureUserDelete` | api/cmd/api/handlers/users_test.go:288-350 | Deleting fixture user 2 is refused under `Restrict`. Under `Cascade` it succeeds and leaves only user 1 and post 1. |
| `DbUtils.Database.constructor` | api/cmd/api/utils/db.go:45-65 | A database holding the given tables, production or test, with its delete rule. |
| `DbUtils.Database.Open` | api/cmd/api/utils/db.go:67-112 | A failed open returns its error and changes nothing. Otherwise a test database holds exactly its fixture, and a production database is unchanged. |
| `DbUtils.Database.BeginTx` | api/cmd/api/utils/db.go:118-132 | Open, BEGIN, the unit of work and COMMIT, as `Transacts` says. The error is returned from the first step that fails. The stored variable has its closure's type. Every HTTP error is a 400 or a 404. The invariants are kept. |
| `UserEndpoints.UsersGetAll` | api/cmd/api/handlers_users.go:24-38 | The result is what the listing transaction returned. Only 400 or 404 HTTP errors occur. |
| `UserEndpoints.UsersGet` | api/cmd/api/handlers_users.go:50-72 | A malformed id is a 400 with no transaction. Otherwise the result is what the transaction returned. |
| `UserEndpoints.UsersCreate` | api/cmd/api/handlers_users.go:85-105 | A malformed body is a 400 with no transaction. Otherwise the result is what the transaction returned. |
| `UserEndpoints.UsersUpdate` | api/cmd/api/handlers_users.go:119-147 | A malformed body and then a malformed id are each a 400 with no transaction, checked in that order. Otherwise the result is what the transaction returned. |
| `UserEndpoints.UsersDelete` | api/cmd/api/handlers_users.go:159-181 | A malformed id is a 400 with no transaction. Otherwise the result is what the transaction returned. |
| `PostEndpoints.PostsGetAll` | api/cmd/api/handlers_posts.go:24-38 | The result is what the listing transaction returned. Only 400 or 404 HTTP errors occur. |
| `PostEndpoints.PostsGet` | api/cmd/api/handlers_posts.go:50-69 | A malformed id is a 400 with no transaction. Otherwise the result is what the transaction returned. |
| `PostEndpoints.PostsCreate` | api/cmd/api/handlers_posts.go:83-111 | A malformed body is a 400 with no transaction. Otherwise the result is what the transaction returned. |
| `PostEndpoints.PostsUpdate` | api/cmd/api/handlers_posts.go:126-162 | Body first, then id, each a 400 when malformed. Otherwise the result is what the transaction returned. |
| `PostEndpoints.PostsDelete` | api/cmd/api/handlers_posts.go:174-196 | A malformed id is a 404 "post does not exist", not a 400. Otherwise the result is what the transaction returned. |
| `Middleware.ErrorResponse` | api/cmd/api/middleware.go:71-78 | An HTTP error is answered with its own code and message. Any other error is a 500 server-error page. |
| `Middleware.HandleQuery` | api/cmd/api/middleware.go:51-87 | As written: the process crashes exactly when the handler panics. A handler that returns gets no response exactly when the request was cancelled. |
| `Middleware.HandleMutation` | api/cmd/api/middleware.go:89-133 | An unreadable body is a 400 "Error reading request body" before the handler starts. Otherwise as written: a crash exactly on a handler panic, and no response exactly when cancelled. |
| `Middleware.RecoverPanic` | api/cmd/api/middleware.go:18-29 | A panic in the serving goroutine becomes a 500. A crashed process stays crashed, and other responses pass through. |
| `Middleware.Recovered` | api/cmd/api/middleware.go:61-107 | With a recover in the handler goroutine, a panic becomes an ordinary unclassified error and a returned result is kept. |
| `Middleware.HandleQueryRecovering` | api/cmd/api/middleware.go:51-87 | With that recover, the query adapter always answers. |
| `Middleware.HandleMutationRecovering` | api/cmd/api/middleware.go:89-133 | With that recover, the mutation adapter always answers. |
| `Middleware.HandlerPanicCrashes` | api/cmd/api/middleware.go:61-107 | A handler panic crashes the process, and the outer `recoverPanic` does not prevent it. |
| `Middleware.RecoveredPanicIsServerError` | api/cmd/api/middleware.go:18-29 | With the recover in place, a handler panic is answered with a 500, or with nothing once cancelled. |
| `Middleware.QueryStatus` | api/cmd/api/middleware.go:66-86 | The status is 200 exactly for a result that encodes, and the body is that result. It is 500 exactly for an unclassified error or a failed encoding. Otherwise it is the HTTP error's own code and message. |
| `Middleware.MutationStatus` | api/cmd/api/middleware.go:97-131 | The status is 200 exactly for a non-nil result that encodes, and the body is that row. A nil result is exactly the 404 page. It is 500 exactly for an unclassified error or a failed encoding. An HTTP error is answered with its own code and message. An unreadable body is a 400. |
| `Middleware.QueryRecoveringStatus` | api/cmd/api/middleware.go:66-86 | The recovering query adapter answers every request that is not cancelled. With only 400 or 404 HTTP errors from the handler, its status is 200, 400, 404 or 500. |
| `Middleware.MutationRecoveringStatus` | api/cmd/api/middleware.go:97-131 | The recovering mutation adapter answers every request that is not cancelled (an unreadable body included), with the same four statuses. |
| `Routes.WorkOf` | api/cmd/api/routes.go:18-28 | A transaction starts exactly when every input of the route parses. |
| `Routes.Serve` | api/cmd/api/routes.go:18-30 | Every request that is not cancelled gets a response, with 200, 400, 404 or 500. A path whose id does not parse, or a bad body, is answered 400 (404 for `DELETE /api/posts/<id>`). An unreadable mutation body is a 400 that changes nothing. Otherwise the tables change exactly as the route's transaction allows, and a cancelled request gets no response. The invariants are kept. |
| `Routes.MissingPostIsOkNull` | api/cmd/api/handlers_posts.go:50-69 | `GET /api/posts/:id` for a missing post is a 200 with JSON `null`. |
| `Routes.MissingUserIsNotFound` | api/cmd/api/handlers_users.go:57-67 | `GET /api/users/:id` for a missing user is a 404 "user does not exist". |

## Left out

- The SQL engine is not modelled, and the schema is not part of this model. Only the effects of the visible statements are modelled. Beyond that, the model assumes three things: the foreign key `posts.user_id`, a fresh-id default, and a delete rule given as a parameter.
- JSON decoding, UUID parsing and JSON encoding are inputs: a parsed `Result`, and an `encodeFailure` flag. The error texts of the Go decoders are not modelled.
- The answers of `app.errorMessage`, `app.serverError` and `app.notFound` are markers in the model. The file that writes them (errors.go) is not part of this model.
- Connection strings and environment variables (`open`, utils/db.go:134-149) are left out; a failure to open is `Env.openFailure`.
- Connection pools are never closed and a failed transaction is never rolled back explicitly. The model treats an uncommitted transaction as discarded and ignores the leaked connections.
- `TestDB.Open` reports a failure of the open call or any of its six SQL statements as one `openFailure`. The partial seeding that such a failure leaves is not modelled.
- All fixture rows take one clock reading for `created_at`, so the order in which they are listed is free.
- A failure is the same for every read, and for every write, of one transaction. There is no failure in the middle of a cursor.
- `UsersGetAllTx` and `PostsGetAllTx` never check `rows.Err()`, and the model has no failure in the middle of iteration to miss.
- The `sql.ErrNoRows` branch of `UsersGetAllTx` (handlers/users.go:67-69) cannot fire for a `Query` and is left out.
- `updated_at` stays what it was. No trigger is modelled.
- UUIDs are natural numbers. Fresh ids come from a counter instead of random generation.
- Goroutines and the `select` in the adapters are not modelled; `cancelled` says which case the `select` took.
- A cancelled request's transaction may still run. `beginTx` hands the request context to `BEGIN` (utils/db.go:123), so the database can roll it back on cancellation and make COMMIT fail. The model leaves whether it commits to `Env.commitFailure`, and `Routes.Serve`'s `Effect` does not depend on `cancelled`.
- `Routes.Serve`: no panic in the serving goroutine itself is modelled (`RecoverPanic` is given none). Handler panics are covered by `Middleware.Recovered` and the lemmas beside it.
- The isolation of concurrent transactions is not modelled; each request sees the tables as the previous one left them.
- The swagger comments promise 201 for a created row, but the code answers 200. The model follows the code.
- Out of scope: `logAccess`, `/health`, `/docs`, `notFound` and `methodNotAllowed` for unmatched routes, path matching, and server start-up (main.go).

## Findings

| source | as written | input that shows it | evidently intended | confidence | as-written member | corrected member |
|---|---|---|---|---|---|---|
| api/cmd/api/middleware.go:104-107 | The handler runs in a goroutine of its own with no `recover` (here `handleMutation`'s; `handleQuery`'s at middleware.go:61-64 is the same). `recoverPanic` (middleware.go:18-29) defers its `recover` in the serving goroutine, where it cannot catch that panic, so a handler panic ends the whole process. | `POST /api/users` with the body `null`: `json.Unmarshal` leaves `input` nil and `UsersCreateTx` dereferences it. The same happens with `PUT /api/users/<valid id>`. | A handler panic is answered with a 500, as `recoverPanic` intends. `Routes.Serve` uses the recovering adapters `HandleQueryRecovering` and `HandleMutationRecovering`. | high; not executed | `Middleware.HandlerPanicCrashes` | `Middleware.RecoveredPanicIsServerError` |
