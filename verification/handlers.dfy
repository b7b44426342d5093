/**
 * The canonical handlers of handlers/handlers.go, over the global etcd client
 * `cli` and the package-level id counter of models. Each operation is a method
 * whose contract is one outcome predicate: the status and body it answers with,
 * and the keyspace it leaves. The variant handlers of the other files reuse
 * these predicates.
 */
module Handlers {
  import opened Wrappers
  import opened Models
  import opened Decimal
  import opened Etcd
  import opened Gin

  const Prefix: string := "tasks/"

  /** The key a path parameter names: "tasks/" + c.Param("id"). */
  function PathKey(id: string): string
  {
    Prefix + id
  }

  /** The key Create writes a task with a generated id under: "tasks/" + strconv.Itoa(id). */
  function TaskKey(id: int): string
  {
    PathKey(Itoa(id))
  }

  lemma PathKeyInjective(a: string, b: string)
    ensures PathKey(a) == PathKey(b) ==> a == b
  {
    assert PathKey(a)[|Prefix|..] == a;
    assert PathKey(b)[|Prefix|..] == b;
  }

  /** Distinct ids are stored under distinct keys. */
  lemma TaskKeyInjective(a: int, b: int)
    ensures TaskKey(a) == TaskKey(b) ==> a == b
  {
    PathKeyInjective(Itoa(a), Itoa(b));
    ItoaInjective(a, b);
  }

  /** Every key is under the scanned prefix. */
  lemma PathKeyHasPrefix(id: string)
    ensures HasPrefix(PathKey(id), Prefix)
  {
    assert PathKey(id)[..|Prefix|] == Prefix;
  }

  /** Every key of the form tasks/<n> names an id the counter has already passed. */
  ghost predicate KeysBelow(kv: map<string, Stored>, counter: int)
  {
    forall n: int :: TaskKey(n) in kv ==> n < counter
  }

  // ---------------------------------------------------------------- reading

  /** The entries under the given keys all decode. */
  predicate AllValid(kv: map<string, Stored>, keys: seq<string>)
  {
    forall i :: 0 <= i < |keys| ==> keys[i] in kv && kv[keys[i]].Valid?
  }

  /** The decoded tasks under the given keys, in the keys' order. */
  function Decoded(kv: map<string, Stored>, keys: seq<string>): (tasks: seq<Task>)
    requires AllValid(kv, keys)
    ensures |tasks| == |keys|
    ensures forall i :: 0 <= i < |keys| ==> tasks[i] == kv[keys[i]].task
  {
    seq(|keys|, i requires 0 <= i < |keys| => kv[keys[i]].task)
  }

  /**
   * The loop over resp.Kvs that unmarshals every entry: it stops at the first
   * entry that does not decode, and then nothing of what was decoded is kept.
   */
  method DecodeEntries(kv: map<string, Stored>, keys: seq<string>) returns (ok: bool, tasks: seq<Task>)
    requires forall i :: 0 <= i < |keys| ==> keys[i] in kv
    ensures ok <==> AllValid(kv, keys)
    ensures ok ==> |tasks| == |keys| && forall i :: 0 <= i < |keys| ==> tasks[i] == kv[keys[i]].task
    ensures !ok ==> tasks == []
  {
    tasks := [];
    var i := 0;
    while i < |keys|
      invariant 0 <= i <= |keys|
      invariant |tasks| == i
      invariant forall j :: 0 <= j < i ==> kv[keys[j]].Valid? && tasks[j] == kv[keys[j]].task
    {
      match kv[keys[i]]
      case Corrupt =>
        return false, [];
      case Valid(t) =>
        tasks := tasks + [t];
      i := i + 1;
    }
    ok := true;
  }

  /** The sort key of the comparator `*tasks[i].ID < *tasks[j].ID`; read only when the id is present. */
  function IdOf(t: Task): int
  {
    if t.id.Some? then t.id.value else 0
  }

  predicate SortedById(tasks: seq<Task>)
  {
    forall i, j :: 0 <= i < j < |tasks| ==> IdOf(tasks[i]) <= IdOf(tasks[j])
  }

  /**
   * sort.Slice calls the comparator only when there are two tasks or more, and
   * then on every task; a nil id is then dereferenced and the handler panics.
   */
  predicate SortPanics(tasks: seq<Task>)
  {
    |tasks| >= 2 && exists i :: 0 <= i < |tasks| && tasks[i].id.None?
  }

  function InsertById(t: Task, tasks: seq<Task>): (r: seq<Task>)
    requires SortedById(tasks)
    ensures SortedById(r)
    ensures multiset(r) == multiset(tasks) + multiset{t}
  {
    if tasks == [] || IdOf(t) <= IdOf(tasks[0]) then [t] + tasks
    else
      var rest := InsertById(t, tasks[1..]);
      assert tasks == [tasks[0]] + tasks[1..];
      assert forall j :: 0 <= j < |rest| ==> IdOf(tasks[0]) <= IdOf(rest[j]) by {
        forall j | 0 <= j < |rest|
          ensures IdOf(tasks[0]) <= IdOf(rest[j])
        {
          assert rest[j] in multiset(rest);
          if rest[j] != t {
            assert rest[j] in multiset(tasks[1..]);
            var k :| 0 <= k < |tasks[1..]| && tasks[1..][k] == rest[j];
            assert tasks[k + 1] == rest[j];
          }
        }
      }
      [tasks[0]] + rest
  }

  /** sort.Slice by ascending id (the order among equal ids is not promised). */
  function SortById(tasks: seq<Task>): (r: seq<Task>)
    ensures SortedById(r)
    ensures multiset(r) == multiset(tasks)
  {
    if tasks == [] then []
    else
      assert tasks == [tasks[0]] + tasks[1..];
      InsertById(tasks[0], SortById(tasks[1..]))
  }

  /** The answers GetAllTasks may give over keyspace kv. */
  ghost predicate ListOutcome(kv: map<string, Stored>, scanFails: bool, r: Response)
  {
    var keys := Range(kv, Prefix);
    if scanFails then r == Response(StatusInternalServerError, Error("Failed to fetch tasks"))
    else if !AllValid(kv, keys) then r == Response(StatusInternalServerError, Error("Failed to parse task"))
    else if SortPanics(Decoded(kv, keys)) then r == Response(StatusInternalServerError, Panicked)
    else
      && r.status == StatusOK
      && r.body.TaskListJson?
      && SortedById(r.body.tasks)
      && multiset(r.body.tasks) == multiset(Decoded(kv, keys))
  }

  /**
   * GetAllTasks: scan the tasks/ prefix, decode every entry, sort by id.
   * One entry that does not decode fails the whole call.
   */
  method GetAllTasks(cli: Client, scanFails: bool) returns (r: Response)
    ensures ListOutcome(cli.kv, scanFails, r)
  {
    if scanFails {
      return Response(StatusInternalServerError, Error("Failed to fetch tasks"));
    }
    var keys := Range(cli.kv, Prefix);
    assert forall i :: 0 <= i < |keys| ==> keys[i] in cli.kv;
    var ok, tasks := DecodeEntries(cli.kv, keys);
    if !ok {
      return Response(StatusInternalServerError, Error("Failed to parse task"));
    }
    assert tasks == Decoded(cli.kv, keys);
    if SortPanics(tasks) {
      return Response(StatusInternalServerError, Panicked);
    }
    r := Response(StatusOK, TaskListJson(SortById(tasks)));
  }

  /** GetTask: one read of tasks/<id>; the keyspace is only read. */
  function GetTask(kv: map<string, Stored>, id: string, fetchFails: bool): (r: Response)
    ensures fetchFails ==> r == Response(StatusInternalServerError, Error("Failed to fetch task"))
    ensures !fetchFails && PathKey(id) !in kv ==> r == Response(StatusNotFound, Error("Task not found"))
    ensures r.status == StatusOK <==> !fetchFails && PathKey(id) in kv && kv[PathKey(id)].Valid?
    ensures r.status == StatusOK ==> r.body == TaskJson(kv[PathKey(id)].task)
    ensures !fetchFails && PathKey(id) in kv && kv[PathKey(id)].Corrupt? ==>
      r == Response(StatusInternalServerError, Error("Failed to parse task"))
    ensures r.status != StatusOK ==> r.status in {StatusNotFound, StatusInternalServerError}
  {
    var key := PathKey(id);
    if fetchFails then Response(StatusInternalServerError, Error("Failed to fetch task"))
    else if key !in kv then Response(StatusNotFound, Error("Task not found"))
    else match kv[key]
      case Corrupt => Response(StatusInternalServerError, Error("Failed to parse task"))
      case Valid(t) => Response(StatusOK, TaskJson(t))
  }

  // ---------------------------------------------------------------- creating

  /** Create draws an id exactly when the body binds and names no id. */
  predicate DrawsId(body: Bound<Task>)
  {
    body.Bound? && body.value.id.None?
  }

  /**
   * The answers Create may give over keyspace kv0 when the counter stood at id,
   * leaving kv1; emptyTitle is the error text for an empty title.
   */
  ghost predicate CreateOutcome(kv0: map<string, Stored>, kv1: map<string, Stored>, id: int,
                                body: Bound<Task>, putFails: bool, emptyTitle: string, r: Response)
  {
    if body.Malformed? then r == Response(StatusBadRequest, ErrorFrom(Bind)) && kv1 == kv0
    else if body.value.id.Some? then r == Response(StatusBadRequest, Error("Manual ID entry is not allowed")) && kv1 == kv0
    else if body.value.title == "" then r == Response(StatusBadRequest, Error(emptyTitle)) && kv1 == kv0
    else if putFails then r == Response(StatusInternalServerError, ErrorFrom(Backend)) && kv1 == kv0
    else
      var task := Task(Some(id), body.value.title, body.value.completed);
      r == Response(StatusCreated, TaskJson(task)) && kv1 == kv0[TaskKey(id) := Valid(task)]
  }

  /** The counter is the id of no stored key, so the key a Create writes is new. */
  lemma CreateWritesFreshKey(kv: map<string, Stored>, counter: int)
    requires KeysBelow(kv, counter)
    ensures TaskKey(counter) !in kv
  {
  }

  /** A Create that stores under the counter and advances it keeps every key's id below the counter. */
  lemma CreateKeepsKeysBelow(kv: map<string, Stored>, counter: int, v: Stored)
    requires KeysBelow(kv, counter)
    ensures KeysBelow(kv[TaskKey(counter) := v], counter + 1)
  {
    forall n: int | TaskKey(n) in kv[TaskKey(counter) := v]
      ensures n < counter + 1
    {
      TaskKeyInjective(n, counter);
    }
  }

  /** An operation that only removes keys or rewrites values keeps every key's id below the counter. */
  lemma FewerKeysKeepKeysBelow(kv0: map<string, Stored>, kv1: map<string, Stored>, counter: int)
    requires KeysBelow(kv0, counter) && kv1.Keys <= kv0.Keys
    ensures KeysBelow(kv1, counter)
  {
  }

  /** Update rewrites a value at most, so it keeps every key's id below the counter. */
  lemma UpdateKeepsKeysBelow(kv0: map<string, Stored>, kv1: map<string, Stored>, id: string,
                             body: Bound<UpdateReq>, fetchFails: bool, putFails: bool, r: Response, counter: int)
    requires UpdateOutcome(kv0, kv1, id, body, fetchFails, putFails, r) && KeysBelow(kv0, counter)
    ensures KeysBelow(kv1, counter)
  {
    FewerKeysKeepKeysBelow(kv0, kv1, counter);
  }

  /** Delete removes a key at most, so it keeps every key's id below the counter. */
  lemma DeleteKeepsKeysBelow(kv0: map<string, Stored>, kv1: map<string, Stored>, id: string,
                             fetchFails: bool, deleteFails: bool, r: Response, counter: int)
    requires DeleteOutcome(kv0, kv1, id, fetchFails, deleteFails, r) && KeysBelow(kv0, counter)
    ensures KeysBelow(kv1, counter)
  {
    FewerKeysKeepKeysBelow(kv0, kv1, counter);
  }

  /** A bulk delete removes keys only, so it keeps every key's id below the counter. */
  lemma DeleteAllKeepsKeysBelow(kv0: map<string, Stored>, kv1: map<string, Stored>, scanFails: bool,
                                firstFailure: nat, done: int, r: Response, counter: int)
    requires DeleteAllOutcome(kv0, kv1, scanFails, firstFailure, done, r) && KeysBelow(kv0, counter)
    ensures KeysBelow(kv1, counter)
  {
    FewerKeysKeepKeysBelow(kv0, kv1, counter);
  }

  /**
   * CreateTask: reject a bound id, draw an id, reject an empty title, then put
   * the task under tasks/<id>. The id is drawn before the title is checked.
   */
  method CreateTask(cli: Client, ids: IdGenerator, body: Bound<Task>, putFails: bool) returns (r: Response)
    requires ids.Valid()
    modifies cli, ids
    ensures ids.Valid()
    ensures ids.issued == old(ids.issued) + (if DrawsId(body) then [old(ids.counter)] else [])
    ensures !DrawsId(body) ==> ids.counter == old(ids.counter)
    ensures CreateOutcome(old(cli.kv), cli.kv, old(ids.counter), body, putFails, "Title cannot be empty", r)
    ensures r.status == StatusCreated && old(KeysBelow(cli.kv, ids.counter)) ==> TaskKey(old(ids.counter)) !in old(cli.kv)
    ensures old(KeysBelow(cli.kv, ids.counter)) && old(ids.counter) < MaxInt64 ==> KeysBelow(cli.kv, ids.counter)
  {
    if body.Malformed? {
      return Response(StatusBadRequest, ErrorFrom(Bind));
    }
    var task := body.value;
    if task.id.Some? {
      return Response(StatusBadRequest, Error("Manual ID entry is not allowed"));
    }
    var id := ids.GenerateUniqueID();
    task := task.(id := Some(id));
    if task.title == "" {
      return Response(StatusBadRequest, Error("Title cannot be empty"));
    }
    var key := TaskKey(id);
    var err := cli.Put(key, Valid(task), putFails);
    if err {
      return Response(StatusInternalServerError, ErrorFrom(Backend));
    }
    r := Response(StatusCreated, TaskJson(task));
    if old(KeysBelow(cli.kv, ids.counter)) {
      CreateWritesFreshKey(old(cli.kv), id);
      CreateKeepsKeysBelow(old(cli.kv), id, Valid(task));
    }
  }

  // ---------------------------------------------------------------- updating

  /** The stored task with its title replaced; id and completed are kept. */
  function Retitled(t: Task, title: string): (r: Task)
    ensures r.title == title && r.id == t.id && r.completed == t.completed
  {
    t.(title := title)
  }

  /** The answers UpdateTask may give over keyspace kv0, leaving kv1. */
  ghost predicate UpdateOutcome(kv0: map<string, Stored>, kv1: map<string, Stored>, id: string,
                                body: Bound<UpdateReq>, fetchFails: bool, putFails: bool, r: Response)
  {
    var key := PathKey(id);
    if fetchFails || key !in kv0 then r == Response(StatusNotFound, Error("Task not found")) && kv1 == kv0
    else if kv0[key].Corrupt? then r == Response(StatusInternalServerError, ErrorFrom(Decode)) && kv1 == kv0
    else if body.Malformed? then r == Response(StatusBadRequest, ErrorFrom(Bind)) && kv1 == kv0
    else if body.value.title == "" then r == Response(StatusBadRequest, Error("Title cannot be empty")) && kv1 == kv0
    else if putFails then r == Response(StatusInternalServerError, ErrorFrom(Backend)) && kv1 == kv0
    else
      && r == Response(StatusOK, UpdateJson(body.value))
      && kv1 == kv0[key := Valid(Retitled(kv0[key].task, body.value.title))]
  }

  /** UpdateTask: read tasks/<id>, replace the title, write it back; a read error counts as not found. */
  method UpdateTask(cli: Client, id: string, body: Bound<UpdateReq>, fetchFails: bool, putFails: bool)
    returns (r: Response)
    modifies cli
    ensures UpdateOutcome(old(cli.kv), cli.kv, id, body, fetchFails, putFails, r)
  {
    var key := PathKey(id);
    if fetchFails || key !in cli.kv {
      return Response(StatusNotFound, Error("Task not found"));
    }
    if cli.kv[key].Corrupt? {
      return Response(StatusInternalServerError, ErrorFrom(Decode));
    }
    var existing := cli.kv[key].task;
    if body.Malformed? {
      return Response(StatusBadRequest, ErrorFrom(Bind));
    }
    var req := body.value;
    if req.title == "" {
      return Response(StatusBadRequest, Error("Title cannot be empty"));
    }
    existing := existing.(title := req.title);
    var err := cli.Put(key, Valid(existing), putFails);
    if err {
      return Response(StatusInternalServerError, ErrorFrom(Backend));
    }
    r := Response(StatusOK, UpdateJson(req));
  }

  // ---------------------------------------------------------------- deleting

  /** The answers DeleteTask may give over keyspace kv0, leaving kv1. */
  ghost predicate DeleteOutcome(kv0: map<string, Stored>, kv1: map<string, Stored>, id: string,
                                fetchFails: bool, deleteFails: bool, r: Response)
  {
    var key := PathKey(id);
    if fetchFails then r == Response(StatusInternalServerError, ErrorFrom(Backend)) && kv1 == kv0
    else if key !in kv0 then r == Response(StatusNotFound, Error("Task not found")) && kv1 == kv0
    else if deleteFails then r == Response(StatusInternalServerError, ErrorFrom(Backend)) && kv1 == kv0
    else r == Response(StatusOK, Message("Task deleted")) && kv1 == kv0 - {key}
  }

  /** DeleteTask: check that tasks/<id> exists, then delete it; a read error is a 500. */
  method DeleteTask(cli: Client, id: string, fetchFails: bool, deleteFails: bool) returns (r: Response)
    modifies cli
    ensures DeleteOutcome(old(cli.kv), cli.kv, id, fetchFails, deleteFails, r)
  {
    var key := PathKey(id);
    if fetchFails {
      return Response(StatusInternalServerError, ErrorFrom(Backend));
    }
    if key !in cli.kv {
      return Response(StatusNotFound, Error("Task not found"));
    }
    var err := cli.Delete(key, deleteFails);
    if err {
      return Response(StatusInternalServerError, ErrorFrom(Backend));
    }
    r := Response(StatusOK, Message("Task deleted"));
  }

  function KeySet(keys: seq<string>): set<string>
  {
    set k | k in keys
  }

  /**
   * The loop that deletes the scanned keys one at a time. The delete call with
   * index firstFailure is the first the backend refuses (none when it is past
   * the end); the loop stops there and what it deleted stays deleted.
   */
  method DeleteKeys(cli: Client, keys: seq<string>, firstFailure: nat) returns (err: bool)
    modifies cli
    ensures err <==> firstFailure < |keys|
    ensures cli.kv == old(cli.kv) - KeySet(keys[..if err then firstFailure else |keys|])
  {
    var i := 0;
    while i < |keys|
      invariant 0 <= i <= |keys|
      invariant i <= firstFailure
      invariant cli.kv == old(cli.kv) - KeySet(keys[..i])
    {
      err := cli.Delete(keys[i], i == firstFailure);
      if err {
        return;
      }
      assert KeySet(keys[..i + 1]) == KeySet(keys[..i]) + {keys[i]} by {
        assert keys[..i + 1] == keys[..i] + [keys[i]];
      }
      i := i + 1;
    }
    err := false;
    assert keys[..|keys|] == keys;
  }

  /** The answers DeleteAllTasks may give over keyspace kv0, leaving kv1; done is the success status. */
  ghost predicate DeleteAllOutcome(kv0: map<string, Stored>, kv1: map<string, Stored>,
                                   scanFails: bool, firstFailure: nat, done: int, r: Response)
  {
    var keys := Range(kv0, Prefix);
    if scanFails then r == Response(StatusInternalServerError, Error("Failed to fetch tasks")) && kv1 == kv0
    else if keys == [] then r == Response(StatusNotFound, Message("No tasks to delete")) && kv1 == kv0
    else if firstFailure < |keys| then
      r == Response(StatusInternalServerError, Error("Failed to delete tasks")) && kv1 == kv0 - KeySet(keys[..firstFailure])
    else r == Response(done, Message("All tasks deleted")) && kv1 == kv0 - KeySet(keys)
  }

  /** DeleteAllTasks: scan the tasks/ prefix, then delete the keys one at a time; 200 when done. */
  method DeleteAllTasks(cli: Client, scanFails: bool, firstFailure: nat) returns (r: Response)
    modifies cli
    ensures DeleteAllOutcome(old(cli.kv), cli.kv, scanFails, firstFailure, StatusOK, r)
  {
    if scanFails {
      return Response(StatusInternalServerError, Error("Failed to fetch tasks"));
    }
    var keys := Range(cli.kv, Prefix);
    if |keys| == 0 {
      return Response(StatusNotFound, Message("No tasks to delete"));
    }
    var err := DeleteKeys(cli, keys, firstFailure);
    if err {
      return Response(StatusInternalServerError, Error("Failed to delete tasks"));
    }
    r := Response(StatusOK, Message("All tasks deleted"));
  }
}
