/**
 * The two route closures of routers/routers.go whose handlers read the
 * context under a key the router never sets. Every closure stores its
 * handler under "handler" in a fresh request context; the create and list
 * handlers look under "client", so they always answer 500.
 */
module Routers {
  import opened Wrappers
  import opened Models
  import opened Etcd
  import opened Gin
  import CreateTaskHandler
  import GetAllTasksHandler

  /** The request context after `c.Set("handler", handlerN)` on a context that held nothing. */
  function RouteContext(): Context
  {
    map[]["handler" := HandlerValue]
  }

  /** Under the router's context "handler" is found and "client" is not. */
  lemma RouteContextHasNoClient()
    ensures FetchHandler(RouteContext(), "handler") == None
    ensures FetchHandler(RouteContext(), "client") == Some(Response(StatusInternalServerError, Error("Failed to fetch handler")))
  {
  }

  /** POST /tasks: always 500; no id is drawn and nothing is written. */
  method PostTasks(cli: Client, ids: IdGenerator, body: Bound<Task>, putFails: bool) returns (r: Response)
    requires ids.Valid()
    modifies cli, ids
    ensures r == Response(StatusInternalServerError, Error("Failed to fetch handler"))
    ensures cli.kv == old(cli.kv) && ids.counter == old(ids.counter) && ids.issued == old(ids.issued)
  {
    RouteContextHasNoClient();
    r := CreateTaskHandler.CreateTask(RouteContext(), cli, ids, body, putFails);
  }

  /** GET /tasks: always 500, whatever the keyspace holds. */
  method GetTasks(cli: Client, scanFails: bool) returns (r: Response)
    ensures r == Response(StatusInternalServerError, Error("Failed to fetch handler"))
  {
    RouteContextHasNoClient();
    r := GetAllTasksHandler.GetAllTasks(RouteContext(), cli, scanFails);
  }
}
