/** GetAllTasks of handlers/getAllTasks.go: the canonical list behind a handler looked up under "client". */
module GetAllTasksHandler {
  import opened Etcd
  import opened Gin
  import Handlers

  /** A missing or mistyped "client" is a 500; otherwise the canonical list. The keyspace is only read. */
  method GetAllTasks(ctx: Context, cli: Client, scanFails: bool) returns (r: Response)
    ensures FetchHandler(ctx, "client").Some? ==> r == FetchHandler(ctx, "client").value
    ensures FetchHandler(ctx, "client").None? ==> Handlers.ListOutcome(cli.kv, scanFails, r)
  {
    var denied := FetchHandler(ctx, "client");
    if denied.Some? {
      return denied.value;
    }
    r := Handlers.GetAllTasks(cli, scanFails);
  }
}
