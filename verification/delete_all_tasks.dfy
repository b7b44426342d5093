/** DeleteAllTasks of handlers/deleteAllTasks.go: like the canonical one, but 201 on success. */
module DeleteAllTasksHandler {
  import opened Etcd
  import opened Gin
  import Handlers

  /** A missing or mistyped "handler" is a 500; otherwise scan and delete one key at a time, answering 201. */
  method DeleteAllTasks(ctx: Context, cli: Client, scanFails: bool, firstFailure: nat) returns (r: Response)
    modifies cli
    ensures FetchHandler(ctx, "handler").Some? ==> r == FetchHandler(ctx, "handler").value && cli.kv == old(cli.kv)
    ensures FetchHandler(ctx, "handler").None? ==>
      Handlers.DeleteAllOutcome(old(cli.kv), cli.kv, scanFails, firstFailure, StatusCreated, r)
  {
    var denied := FetchHandler(ctx, "handler");
    if denied.Some? {
      return denied.value;
    }
    if scanFails {
      return Response(StatusInternalServerError, Error("Failed to fetch tasks"));
    }
    var keys := Range(cli.kv, Handlers.Prefix);
    if |keys| == 0 {
      return Response(StatusNotFound, Message("No tasks to delete"));
    }
    var err := Handlers.DeleteKeys(cli, keys, firstFailure);
    if err {
      return Response(StatusInternalServerError, Error("Failed to delete tasks"));
    }
    r := Response(StatusCreated, Message("All tasks deleted"));
  }
}
