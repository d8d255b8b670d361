/**
  * middleware.go: how `handleQuery` and `handleMutation` turn what a handler
  * returned into an HTTP response, and `recoverPanic` around the router.
  *
  * Both adapters run the handler in a goroutine of its own and wait for it or
  * for the request's cancellation; `cancelled` says which of the two the
  * `select` took. The handler may still be running its transaction after a
  * cancellation; whether that transaction commits is left to the database's `Env`.
  */
module Middleware {
  import opened Wrappers
  import opened Helpers

  /** What is written to the client. */
  datatype Body<T> =
    | Json(value: T)                // `response.JSON(w, http.StatusOK, result)`
    | ErrorMessage(message: string) // `app.errorMessage(w, r, code, message, nil)`
    | ServerErrorPage               // `app.serverError(w, r, err)`
    | NotFoundPage                  // `app.notFound(w, r)`
    | PlainText(text: string)       // `http.Error(w, text, code)`

  /** `NoResponse`: the adapter returned without writing anything. */
  datatype Response<T> = NoResponse | Respond(status: int, body: Body<T>)

  /** How the handler's goroutine ended: it returned, or it panicked with a value. */
  datatype Finished<T> = Completed(result: Result<T>) | Panicked(value: string)

  /** `Crashed`: a panic no `recover` catches ends the whole server process. */
  datatype Served<T> = Answered(response: Response<T>) | Crashed

  /** `http.Error` adds a newline to the text. */
  const READ_BODY_ERROR := "Error reading request body\n"

  /** The error branch both adapters share. */
  function ErrorResponse<T>(e: Error): (resp: Response<T>)
    ensures e.Classified? ==> resp == Respond(e.http.code, ErrorMessage(e.http.message))
    ensures e.Opaque? ==> resp == Respond(STATUS_INTERNAL_SERVER_ERROR, ServerErrorPage)
  {
    match e
    case Classified(h) => Respond(h.code, ErrorMessage(h.message))
    case Opaque(_) => Respond(STATUS_INTERNAL_SERVER_ERROR, ServerErrorPage)
  }

  /**
    * `handleQuery` as written. A panic in the handler's goroutine is not
    * recovered there, and `recoverPanic` runs in another goroutine, so the
    * process crashes.
    */
  function HandleQuery<T>(cancelled: bool, finished: Finished<T>, encodeFailure: bool): (s: Served<T>)
    ensures s.Crashed? <==> finished.Panicked?
    ensures finished.Completed? ==> (s.response.NoResponse? <==> cancelled)
  {
    match finished
    case Panicked(_) => Crashed
    case Completed(result) =>
      if cancelled then Answered(NoResponse)
      else if result.Err? then Answered(ErrorResponse(result.error))
      else if encodeFailure then Answered(Respond(STATUS_INTERNAL_SERVER_ERROR, ServerErrorPage))
      else Answered(Respond(STATUS_OK, Json(result.value)))
  }

  /**
    * `handleMutation` as written: a body that cannot be read is answered with a
    * 400 before the handler is started; a nil result with a nil error is a 404.
    * A panic in the handler's goroutine crashes the process as in `handleQuery`.
    */
  function HandleMutation<T>(bodyReadFailure: bool, cancelled: bool, finished: Finished<Option<T>>, encodeFailure: bool): (s: Served<T>)
    ensures bodyReadFailure ==> s == Answered(Respond(STATUS_BAD_REQUEST, PlainText(READ_BODY_ERROR)))
    ensures !bodyReadFailure ==> (s.Crashed? <==> finished.Panicked?)
    ensures !bodyReadFailure && finished.Completed? ==> (s.response.NoResponse? <==> cancelled)
  {
    if bodyReadFailure then Answered(Respond(STATUS_BAD_REQUEST, PlainText(READ_BODY_ERROR)))
    else match finished
      case Panicked(_) => Crashed
      case Completed(result) =>
        if cancelled then Answered(NoResponse)
        else if result.Err? then Answered(ErrorResponse(result.error))
        else if result.value.None? then Answered(Respond(STATUS_NOT_FOUND, NotFoundPage))
        else if encodeFailure then Answered(Respond(STATUS_INTERNAL_SERVER_ERROR, ServerErrorPage))
        else Answered(Respond(STATUS_OK, Json(result.value.value)))
  }

  /**
    * `recoverPanic`: a panic in the goroutine that serves the request becomes
    * a 500. It cannot reach a panic of another goroutine, nor revive a
    * crashed process.
    */
  function RecoverPanic<T>(panicked: Option<string>, inner: Served<T>): (s: Served<T>)
    ensures inner.Crashed? ==> s.Crashed?
    ensures inner.Answered? && panicked.Some? ==> s == Answered(Respond(STATUS_INTERNAL_SERVER_ERROR, ServerErrorPage))
    ensures inner.Answered? && panicked.None? ==> s == inner
  {
    if inner.Crashed? then Crashed
    else if panicked.Some? then Answered(Respond(STATUS_INTERNAL_SERVER_ERROR, ServerErrorPage))
    else inner
  }

  /** The recover the handler goroutine needs: a panic becomes the error `fmt.Errorf("%s", p)`. */
  function Recovered<T>(finished: Finished<T>): (f: Finished<T>)
    ensures f.Completed?
    ensures finished.Completed? ==> f == finished
    ensures finished.Panicked? ==> f.result == Err(Opaque(finished.value))
  {
    match finished
    case Completed(_) => finished
    case Panicked(p) => Completed(Err(Opaque(p)))
  }

  /** `handleQuery` with the handler goroutine recovering its own panic. */
  function HandleQueryRecovering<T>(cancelled: bool, finished: Finished<T>, encodeFailure: bool): (s: Served<T>)
    ensures s.Answered?
  {
    HandleQuery(cancelled, Recovered(finished), encodeFailure)
  }

  /** `handleMutation` with the handler goroutine recovering its own panic. */
  function HandleMutationRecovering<T>(bodyReadFailure: bool, cancelled: bool, finished: Finished<Option<T>>, encodeFailure: bool): (s: Served<T>)
    ensures s.Answered?
  {
    HandleMutation(bodyReadFailure, cancelled, Recovered(finished), encodeFailure)
  }

  /** As written, a handler that panics ends the server instead of being answered with a 500. */
  lemma HandlerPanicCrashes<T>(cancelled: bool, encodeFailure: bool, bodyReadFailure: bool, p: string)
    ensures HandleQuery<T>(cancelled, Panicked(p), encodeFailure) == Crashed
    ensures !bodyReadFailure ==> HandleMutation<T>(bodyReadFailure, cancelled, Panicked(p), encodeFailure) == Crashed
    ensures RecoverPanic(None, HandleQuery<T>(cancelled, Panicked(p), encodeFailure)) == Crashed
  {
  }

  /** With the recover in place, a panic is answered like any other unclassified error: a 500, or nothing once cancelled. */
  lemma RecoveredPanicIsServerError<T>(cancelled: bool, encodeFailure: bool, bodyReadFailure: bool, p: string)
    ensures HandleQueryRecovering<T>(cancelled, Panicked(p), encodeFailure)
         == Answered(if cancelled then NoResponse else Respond(STATUS_INTERNAL_SERVER_ERROR, ServerErrorPage))
    ensures !bodyReadFailure ==>
      HandleMutationRecovering<T>(bodyReadFailure, cancelled, Panicked(p), encodeFailure)
        == Answered(if cancelled then NoResponse else Respond(STATUS_INTERNAL_SERVER_ERROR, ServerErrorPage))
  {
  }

  /**
    * What status `handleQuery` answers with, when the handler returns and only
    * classifies errors as 400 or 404: 200 exactly for a result that encodes,
    * 500 exactly for an unclassified error or a failed encoding, and otherwise
    * the classified error's own code and message.
    */
  lemma QueryStatus<T>(finished: Finished<T>, encodeFailure: bool)
    requires finished.Completed? && ClassifiedAsClientError(finished.result)
    ensures var s := HandleQuery(false, finished, encodeFailure);
      && s.Answered? && s.response.Respond?
      && (s.response.status == STATUS_OK <==> finished.result.Ok? && !encodeFailure)
      && (s.response.status == STATUS_OK ==> s.response.body == Json(finished.result.value))
      && (s.response.status == STATUS_INTERNAL_SERVER_ERROR <==>
            (finished.result.Err? && finished.result.error.Opaque?) || (finished.result.Ok? && encodeFailure))
      && (finished.result.Err? && finished.result.error.Classified? ==>
            s.response == Respond(finished.result.error.http.code, ErrorMessage(finished.result.error.http.message)))
  {
  }

  /**
    * What status `handleMutation` answers with, under the same assumption: as
    * `handleQuery`, except that a nil result is a 404 and an unreadable body a 400.
    */
  lemma MutationStatus<T>(bodyReadFailure: bool, finished: Finished<Option<T>>, encodeFailure: bool)
    requires finished.Completed? && ClassifiedAsClientError(finished.result)
    ensures var s := HandleMutation(bodyReadFailure, false, finished, encodeFailure);
      && s.Answered? && s.response.Respond?
      && (s.response.status == STATUS_OK <==>
            !bodyReadFailure && finished.result.Ok? && finished.result.value.Some? && !encodeFailure)
      && (s.response.status == STATUS_OK ==> s.response.body == Json(finished.result.value.value))
      && (s.response.body == NotFoundPage <==> !bodyReadFailure && finished.result == Ok(None))
      && (s.response.status == STATUS_INTERNAL_SERVER_ERROR <==>
            !bodyReadFailure &&
            ((finished.result.Err? && finished.result.error.Opaque?) ||
             (finished.result.Ok? && finished.result.value.Some? && encodeFailure)))
      && (!bodyReadFailure && finished.result.Err? && finished.result.error.Classified? ==>
            s.response == Respond(finished.result.error.http.code, ErrorMessage(finished.result.error.http.message)))
  {
  }

  /** The recovering query adapter answers every request not cancelled, and the statuses a client can see from it, when the handler only classifies errors as 400 or 404. */
  lemma QueryRecoveringStatus<T>(cancelled: bool, finished: Finished<T>, encodeFailure: bool)
    requires finished.Completed? ==> ClassifiedAsClientError(finished.result)
    ensures var s := HandleQueryRecovering(cancelled, finished, encodeFailure);
      && (!cancelled ==> s.response.Respond?)
      && (s.response.Respond? ==>
            s.response.status in {STATUS_OK, STATUS_BAD_REQUEST, STATUS_NOT_FOUND, STATUS_INTERNAL_SERVER_ERROR})
  {
  }

  /** The same for the recovering mutation adapter, under the same assumption. */
  lemma MutationRecoveringStatus<T>(bodyReadFailure: bool, cancelled: bool, finished: Finished<Option<T>>, encodeFailure: bool)
    requires finished.Completed? ==> ClassifiedAsClientError(finished.result)
    ensures var s := HandleMutationRecovering(bodyReadFailure, cancelled, finished, encodeFailure);
      && (!cancelled ==> s.response.Respond?)
      && (s.response.Respond? ==>
            s.response.status in {STATUS_OK, STATUS_BAD_REQUEST, STATUS_NOT_FOUND, STATUS_INTERNAL_SERVER_ERROR})
  {
  }
}
