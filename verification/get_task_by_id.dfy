/**
 * GetTask of handlers/getTaskByID.go. It scans the whole tasks/ prefix and
 * answers with the first entry of the range, whatever id was asked for.
 */
module GetTaskByIdHandler {
  import opened Wrappers
  import opened Models
  import opened Etcd
  import opened Gin
  import Handlers
  import Decimal

  /** The path parameter id is accepted and never read. The keyspace is only read. */
  function GetTask(ctx: Context, kv: map<string, Stored>, id: string, scanFails: bool): (r: Response)
    ensures FetchHandler(ctx, "handler").Some? ==> r == FetchHandler(ctx, "handler").value
    ensures FetchHandler(ctx, "handler").None? && scanFails ==>
      r == Response(StatusInternalServerError, Error("Failed to fetch tasks"))
    ensures FetchHandler(ctx, "handler").None? && !scanFails ==>
      (r.status == StatusNotFound <==> forall k :: k in kv ==> !HasPrefix(k, Handlers.Prefix))
    ensures r.status == StatusOK ==>
      r.body.TaskJson? && exists k :: IsLeastKey(kv, Handlers.Prefix, k) && kv[k] == Valid(r.body.task)
    ensures FetchHandler(ctx, "handler").None? && !scanFails ==>
      forall k :: IsLeastKey(kv, Handlers.Prefix, k) && kv[k].Corrupt? ==>
        r == Response(StatusInternalServerError, Error("Failed to parse task"))
    ensures FetchHandler(ctx, "handler").None? && !scanFails ==>
      forall k :: IsLeastKey(kv, Handlers.Prefix, k) && kv[k].Valid? ==>
        r == Response(StatusOK, TaskJson(kv[k].task))
  {
    var denied := FetchHandler(ctx, "handler");
    if denied.Some? then denied.value
    else if scanFails then Response(StatusInternalServerError, Error("Failed to fetch tasks"))
    else
      var keys := Range(kv, Handlers.Prefix);
      if keys == [] then Response(StatusNotFound, Error("Task not found"))
      else
        RangeStartsWithLeast(kv, Handlers.Prefix);
        LeastKeyUnique(kv, keys[0]);
        match kv[keys[0]]
        case Corrupt => Response(StatusInternalServerError, Error("Failed to parse task"))
        case Valid(t) => Response(StatusOK, TaskJson(t))
  }

  lemma LeastKeyUnique(kv: map<string, Stored>, k: string)
    requires IsLeastKey(kv, Handlers.Prefix, k)
    ensures forall k' :: IsLeastKey(kv, Handlers.Prefix, k') ==> k' == k
  {
    forall k' | IsLeastKey(kv, Handlers.Prefix, k')
      ensures k' == k
    {
      KeyLeAntisymmetric(k, k');
    }
  }

  /** Asking for any two ids gives the same answer. */
  lemma AnswerIgnoresId(ctx: Context, kv: map<string, Stored>, a: string, b: string, scanFails: bool)
    ensures GetTask(ctx, kv, a, scanFails) == GetTask(ctx, kv, b, scanFails)
  {
  }

  /**
   * With only task 1 stored, asking for task 7 answers with task 1, where the
   * canonical GetTask answers 404.
   */
  lemma AnswersWithAnotherTask()
    ensures var t := Task(Some(1), "a", false);
            var kv := map[Handlers.TaskKey(1) := Valid(t)];
            && GetTask(map["handler" := HandlerValue], kv, "7", false) == Response(StatusOK, TaskJson(t))
            && Handlers.GetTask(kv, "7", false).status == StatusNotFound
  {
    var t := Task(Some(1), "a", false);
    var key := Handlers.TaskKey(1);
    var kv := map[key := Valid(t)];
    Handlers.PathKeyHasPrefix(Decimal.Itoa(1));
    var keys := Range(kv, Handlers.Prefix);
    assert key in keys;
    assert keys[0] == key;
    assert Decimal.Itoa(1) == "1";
    assert Handlers.PathKey("7") != key by {
      assert Handlers.PathKey("7")[6] == '7';
      assert key[6] == '1';
    }
  }
}
