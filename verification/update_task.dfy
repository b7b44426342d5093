/** UpdateTask of handlers/updateTask.go: the canonical update behind a handler taken from the request context. */
module UpdateTaskHandler {
  import opened Models
  import opened Etcd
  import opened Gin
  import Handlers

  /** A missing or mistyped "handler" is a 500; otherwise the canonical update, with a read error answered by 404. */
  method UpdateTask(ctx: Context, cli: Client, id: string, body: Bound<UpdateReq>, fetchFails: bool, putFails: bool)
    returns (r: Response)
    modifies cli
    ensures FetchHandler(ctx, "handler").Some? ==> r == FetchHandler(ctx, "handler").value && cli.kv == old(cli.kv)
    ensures FetchHandler(ctx, "handler").None? ==> Handlers.UpdateOutcome(old(cli.kv), cli.kv, id, body, fetchFails, putFails, r)
  {
    var denied := FetchHandler(ctx, "handler");
    if denied.Some? {
      return denied.value;
    }
    r := Handlers.UpdateTask(cli, id, body, fetchFails, putFails);
  }
}
