/**
 * What the handlers exchange with the web framework: the bound request body,
 * the per-request context, and the status and JSON body they answer with.
 */
module Gin {
  import opened Wrappers
  import opened Models

  const StatusOK := 200
  const StatusCreated := 201
  const StatusBadRequest := 400
  const StatusNotFound := 404
  const StatusInternalServerError := 500

  /** The origin of an `err.Error()` text echoed to the client; its wording is not modelled. */
  datatype Cause = Bind | Decode | Backend

  datatype Body =
    | TaskJson(task: Task)            // a task
    | TaskListJson(tasks: seq<Task>)  // an array of tasks
    | UpdateJson(req: UpdateReq)      // the update request, echoed
    | Message(text: string)                  // {"message": text}
    | Error(text: string)                    // {"error": text} with a fixed text
    | ErrorFrom(cause: Cause)                // {"error": err.Error()}
    | Panicked                               // the empty 500 of the recovery middleware

  datatype Response = Response(status: int, body: Body)

  /** A JSON request body as BindJSON / ShouldBindJSON leave it: malformed, or bound to a value. */
  datatype Bound<T> = Malformed | Bound(value: T)

  /** A value stored in a request context: a *models.Handler, or something of another type. */
  datatype CtxValue = HandlerValue | OtherValue

  type Context = map<string, CtxValue>

  /**
   * `c.Get(key)` followed by the type assertion to *models.Handler: None when
   * a handler is there, otherwise the 500 response the handler gives up with.
   */
  function FetchHandler(ctx: Context, key: string): (denied: Option<Response>)
    ensures denied.None? <==> key in ctx && ctx[key] == HandlerValue
    ensures denied.Some? ==> denied.value.status == StatusInternalServerError
    ensures key !in ctx ==> denied == Some(Response(StatusInternalServerError, Error("Failed to fetch handler")))
    ensures key in ctx && ctx[key] != HandlerValue ==>
      denied == Some(Response(StatusInternalServerError, Error("Invalid handler type")))
  {
    if key !in ctx then Some(Response(StatusInternalServerError, Error("Failed to fetch handler")))
    else if ctx[key] != HandlerValue then Some(Response(StatusInternalServerError, Error("Invalid handler type")))
    else None
  }
}
