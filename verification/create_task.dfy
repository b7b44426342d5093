/** CreateTask of handlers/createTask.go: the handler is looked up under "client". */
module CreateTaskHandler {
  import opened Wrappers
  import opened Models
  import opened Etcd
  import opened Gin
  import Handlers

  /**
   * A missing or mistyped "client" is a 500 before anything else; otherwise
   * the steps of the canonical Create, with its own text for an empty title.
   */
  method CreateTask(ctx: Context, cli: Client, ids: IdGenerator, body: Bound<Task>, putFails: bool)
    returns (r: Response)
    requires ids.Valid()
    modifies cli, ids
    ensures ids.Valid()
    ensures FetchHandler(ctx, "client").Some? ==>
      r == FetchHandler(ctx, "client").value && cli.kv == old(cli.kv) && ids.issued == old(ids.issued)
      && ids.counter == old(ids.counter)
    ensures FetchHandler(ctx, "client").None? ==>
      && ids.issued == old(ids.issued) + (if Handlers.DrawsId(body) then [old(ids.counter)] else [])
      && (!Handlers.DrawsId(body) ==> ids.counter == old(ids.counter))
      && Handlers.CreateOutcome(old(cli.kv), cli.kv, old(ids.counter), body, putFails, "Idea and owner cannot be empty", r)
    ensures r.status == StatusCreated && old(Handlers.KeysBelow(cli.kv, ids.counter)) ==>
      Handlers.TaskKey(old(ids.counter)) !in old(cli.kv)
    ensures old(Handlers.KeysBelow(cli.kv, ids.counter)) && old(ids.counter) < MaxInt64 ==>
      Handlers.KeysBelow(cli.kv, ids.counter)
  {
    var denied := FetchHandler(ctx, "client");
    if denied.Some? {
      return denied.value;
    }
    if body.Malformed? {
      return Response(StatusBadRequest, ErrorFrom(Bind));
    }
    var task := body.value;
    if task.id.Some? {
      return Response(StatusBadRequest, Error("Manual ID entry is not allowed"));
    }
    var id := ids.GenerateUniqueID();
    task := task.(id := Some(id));
    if task.title == "" {
      return Response(StatusBadRequest, Error("Idea and owner cannot be empty"));
    }
    var err := cli.Put(Handlers.TaskKey(id), Valid(task), putFails);
    if err {
      return Response(StatusInternalServerError, ErrorFrom(Backend));
    }
    r := Response(StatusCreated, TaskJson(task));
    if old(Handlers.KeysBelow(cli.kv, ids.counter)) {
      Handlers.CreateWritesFreshKey(old(cli.kv), id);
      Handlers.CreateKeepsKeysBelow(old(cli.kv), id, Valid(task));
    }
  }
}
