/** DeleteTask of handlers/deleteTask.go: the canonical delete behind a handler taken from the request context. */
module DeleteTaskHandler {
  import opened Etcd
  import opened Gin
  import Handlers

  /** A missing or mistyped "handler" is a 500; otherwise the canonical delete, with a read error answered by 500. */
  method DeleteTask(ctx: Context, cli: Client, id: string, fetchFails: bool, deleteFails: bool) returns (r: Response)
    modifies cli
    ensures FetchHandler(ctx, "handler").Some? ==> r == FetchHandler(ctx, "handler").value && cli.kv == old(cli.kv)
    ensures FetchHandler(ctx, "handler").None? ==> Handlers.DeleteOutcome(old(cli.kv), cli.kv, id, fetchFails, deleteFails, r)
  {
    var denied := FetchHandler(ctx, "handler");
    if denied.Some? {
      return denied.value;
    }
    r := Handlers.DeleteTask(cli, id, fetchFails, deleteFails);
  }
}
