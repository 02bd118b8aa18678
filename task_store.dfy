/** The backend's in-memory task store: a dictionary of task records and a
    dictionary of step lists, both keyed by task id. */
module TaskStorage {
  import opened Schemas
  import opened Time

  /** The partial update `update_task_status` applies: every argument but the
      status is optional, and `None` leaves the field as it was. */
  datatype StatusUpdate = StatusUpdate(
    status: TaskStatus,
    output: Option<string>,
    error: Option<string>,
    metadata: Option<Metadata>,
    startedAt: Option<Instant>,
    completedAt: Option<Instant>)

  /** The counters of `get_statistics`; `successRate` is the exact quotient. */
  datatype Statistics = Statistics(
    totalTasks: nat,
    completedTasks: nat,
    failedTasks: nat,
    runningTasks: nat,
    successRate: real)

  /** The record `create_task` stores: PENDING, started now, nothing else set. */
  function NewTask(id: string, now: Instant): TaskResult {
    TaskResult(id, TaskStatus.Pending, None, None, [], map[], Some(now), None, None)
  }

  /** A field `update_task_status` writes only when the argument is given. */
  function Given<T>(arg: Option<T>, current: Option<T>): Option<T> {
    if arg.Some? then arg else current
  }

  /** The record after `update_task_status` has written `u` into `t`. */
  function ApplyUpdate(t: TaskResult, u: StatusUpdate): (r: TaskResult)
    ensures r.id == t.id && r.steps == t.steps && r.status == u.status
    ensures r.output == (if u.output.Some? then u.output else t.output)
    ensures r.error == (if u.error.Some? then u.error else t.error)
    ensures r.startedAt == (if u.startedAt.Some? then u.startedAt else t.startedAt)
    ensures r.completedAt == (if u.completedAt.Some? then u.completedAt else t.completedAt)
    // metadata is merged key by key: the update's keys win, the others stay
    ensures u.metadata.None? ==> r.metadata == t.metadata
    ensures u.metadata.Some? ==>
      && r.metadata.Keys == t.metadata.Keys + u.metadata.value.Keys
      && (forall k :: k in u.metadata.value ==> r.metadata[k] == u.metadata.value[k])
      && (forall k :: k in t.metadata && k !in u.metadata.value ==> r.metadata[k] == t.metadata[k])
    // a duration is derived only from a completion time and a (possibly just written) start time
    ensures u.completedAt.Some? && r.startedAt.Some? ==>
      r.duration == Some(u.completedAt.value - r.startedAt.value)
    ensures u.completedAt.None? || r.startedAt.None? ==> r.duration == t.duration
  {
    var startedAt := Given(u.startedAt, t.startedAt);
    TaskResult(
      t.id, u.status,
      Given(u.output, t.output),
      Given(u.error, t.error),
      t.steps,
      if u.metadata.Some? then t.metadata + u.metadata.value else t.metadata,
      startedAt,
      Given(u.completedAt, t.completedAt),
      if u.completedAt.Some? && startedAt.Some? then Some(u.completedAt.value - startedAt.value)
      else t.duration)
  }

  /** The sort key of `list_tasks`: the start time, or `datetime.min` when absent. */
  function StartKey(t: TaskResult): Instant {
    t.startedAt.GetOr(0)
  }

  ghost predicate SortedByStartDesc(s: seq<TaskResult>) {
    forall i, j :: 0 <= i < j < |s| ==> StartKey(s[i]) >= StartKey(s[j])
  }

  /** The subsequence of `s` whose start key is `k`, in the order of `s`. */
  function WithStart(s: seq<TaskResult>, k: Instant): seq<TaskResult> {
    if s == [] then []
    else (if StartKey(s[0]) == k then [s[0]] else []) + WithStart(s[1..], k)
  }

  /** Inserts `x`, which came before every element of `s`, ahead of the first
      element whose key is not larger than its own. */
  function InsertByStart(x: TaskResult, s: seq<TaskResult>): (r: seq<TaskResult>)
    ensures |r| == |s| + 1
  {
    if s == [] || StartKey(s[0]) <= StartKey(x) then [x] + s
    else [s[0]] + InsertByStart(x, s[1..])
  }

  /** `sorted(ts, key=StartKey, reverse=True)`: Python's sort is stable, and
      with `reverse=True` tasks with equal keys keep their original order. */
  function SortByStartDesc(s: seq<TaskResult>): (r: seq<TaskResult>)
    ensures |r| == |s|
  {
    if s == [] then [] else InsertByStart(s[0], SortByStartDesc(s[1..]))
  }

  lemma {:induction false} InsertPermutes(x: TaskResult, s: seq<TaskResult>)
    ensures multiset(InsertByStart(x, s)) == multiset(s) + multiset{x}
  {
    if s != [] && StartKey(s[0]) > StartKey(x) {
      InsertPermutes(x, s[1..]);
      assert s == [s[0]] + s[1..];
    }
  }

  /** Inserting under a bound keeps every key under it. */
  lemma {:induction false} InsertBounded(x: TaskResult, s: seq<TaskResult>, b: Instant)
    requires StartKey(x) <= b
    requires forall i :: 0 <= i < |s| ==> StartKey(s[i]) <= b
    ensures forall i :: 0 <= i < |InsertByStart(x, s)| ==> StartKey(InsertByStart(x, s)[i]) <= b
  {
    if s != [] && StartKey(s[0]) > StartKey(x) {
      InsertBounded(x, s[1..], b);
      var rest := InsertByStart(x, s[1..]);
      assert forall i :: 1 <= i < |rest| + 1 ==> ([s[0]] + rest)[i] == rest[i - 1];
    }
  }

  /** A sorted sequence stays sorted under a head no smaller than its keys. */
  lemma SortedCons(h: TaskResult, t: seq<TaskResult>)
    requires SortedByStartDesc(t)
    requires forall i :: 0 <= i < |t| ==> StartKey(t[i]) <= StartKey(h)
    ensures SortedByStartDesc([h] + t)
  {
    var r := [h] + t;
    forall i, j | 0 <= i < j < |r| ensures StartKey(r[i]) >= StartKey(r[j]) {
      assert r[j] == t[j - 1];
      if i > 0 {
        assert r[i] == t[i - 1];
      }
    }
  }

  lemma {:induction false} InsertKeepsSorted(x: TaskResult, s: seq<TaskResult>)
    requires SortedByStartDesc(s)
    ensures SortedByStartDesc(InsertByStart(x, s))
  {
    if s == [] || StartKey(s[0]) <= StartKey(x) {
      SortedCons(x, s);
    } else {
      var tail := s[1..];
      assert SortedByStartDesc(tail) by {
        assert forall i :: 0 <= i < |tail| ==> tail[i] == s[i + 1];
      }
      assert forall i :: 0 <= i < |tail| ==> StartKey(tail[i]) <= StartKey(s[0]) by {
        assert forall i :: 0 <= i < |tail| ==> tail[i] == s[i + 1];
      }
      InsertKeepsSorted(x, tail);
      InsertBounded(x, tail, StartKey(s[0]));
      SortedCons(s[0], InsertByStart(x, tail));
    }
  }

  /** Tasks with equal keys keep their relative order across an insertion. */
  lemma {:induction false} InsertKeepsTies(x: TaskResult, s: seq<TaskResult>, k: Instant)
    ensures WithStart(InsertByStart(x, s), k) == (if StartKey(x) == k then [x] else []) + WithStart(s, k)
  {
    var xs := if StartKey(x) == k then [x] else [];
    if s == [] || StartKey(s[0]) <= StartKey(x) {
      assert ([x] + s)[1..] == s;
      assert WithStart([x] + s, k) == xs + WithStart(s, k);
    } else {
      var rest := InsertByStart(x, s[1..]);
      var head := if StartKey(s[0]) == k then [s[0]] else [];
      InsertKeepsTies(x, s[1..], k);
      assert ([s[0]] + rest)[1..] == rest;
      assert WithStart([s[0]] + rest, k) == head + WithStart(rest, k);
      assert WithStart(s, k) == head + WithStart(s[1..], k);
      assert xs == [] || head == [];
    }
  }

  /** `SortByStartDesc` returns a permutation of its input, ordered by
      descending key, in which tasks with equal keys keep their input order. */
  lemma {:induction false} SortByStartDescCorrect(s: seq<TaskResult>)
    ensures multiset(SortByStartDesc(s)) == multiset(s)
    ensures SortedByStartDesc(SortByStartDesc(s))
    ensures forall k :: WithStart(SortByStartDesc(s), k) == WithStart(s, k)
  {
    if s != [] {
      var sortedRest := SortByStartDesc(s[1..]);
      SortByStartDescCorrect(s[1..]);
      InsertPermutes(s[0], sortedRest);
      InsertKeepsSorted(s[0], sortedRest);
      assert s == [s[0]] + s[1..];
      forall k ensures WithStart(SortByStartDesc(s), k) == WithStart(s, k) {
        InsertKeepsTies(s[0], sortedRest, k);
      }
    }
  }

  /** Maps a Python slice bound onto `0..n`: a negative bound counts from the end. */
  function SliceBound(i: int, n: nat): (r: nat)
    ensures r <= n
    ensures 0 <= i ==> r == if i <= n then i else n
    ensures i < 0 ==> r == if n + i < 0 then 0 else n + i
  {
    if i < 0 then (if n + i < 0 then 0 else n + i) else if i <= n then i else n
  }

  /** The Python slice `s[start:stop]`. */
  function PySlice<T>(s: seq<T>, start: int, stop: int): (r: seq<T>)
    ensures |r| <= |s|
    ensures 0 <= start <= stop ==> |r| <= stop - start
  {
    var a := SliceBound(start, |s|);
    var b := SliceBound(stop, |s|);
    if a < b then s[a..b] else []
  }

  /** A page `s[offset:offset+limit]` with `limit >= 0` holds at most `limit`
      elements of `s`, in their order in `s`. */
  lemma SliceFacts(s: seq<TaskResult>, offset: int, limit: int)
    ensures 0 <= limit ==> |PySlice(s, offset, offset + limit)| <= limit
    ensures SortedByStartDesc(s) ==> SortedByStartDesc(PySlice(s, offset, offset + limit))
    ensures forall t :: t in PySlice(s, offset, offset + limit) ==> t in s
  {
    var a := SliceBound(offset, |s|);
    var b := SliceBound(offset + limit, |s|);
    if a < b {
      var r := s[a..b];
      assert forall i :: 0 <= i < |r| ==> r[i] == s[a + i];
    }
  }

  /** The number of records in `s` with status `st`. */
  function CountStatus(s: seq<TaskResult>, st: TaskStatus): (n: nat)
    ensures n <= |s|
  {
    if s == [] then 0 else (if s[0].status == st then 1 else 0) + CountStatus(s[1..], st)
  }

  lemma {:induction false} CountsBounded(s: seq<TaskResult>)
    ensures CountStatus(s, TaskStatus.Completed) + CountStatus(s, TaskStatus.Failed)
          + CountStatus(s, TaskStatus.Running) <= |s|
  {
    if s != [] {
      CountsBounded(s[1..]);
    }
  }

  ghost predicate Distinct(ids: seq<string>) {
    forall i, j :: 0 <= i < j < |ids| ==> ids[i] != ids[j]
  }

  /** The records of `m` in the order of `ids`. */
  function ValuesOf(ids: seq<string>, m: map<string, TaskResult>): (r: seq<TaskResult>)
    requires forall id :: id in ids ==> id in m
    ensures |r| == |ids|
    ensures forall i :: 0 <= i < |ids| ==> r[i] == m[ids[i]]
  {
    if ids == [] then [] else [m[ids[0]]] + ValuesOf(ids[1..], m)
  }

  /** The values read along the ids are the stored records, each under its own id. */
  lemma ValuesAreStored(ids: seq<string>, m: map<string, TaskResult>)
    requires forall id :: id in ids ==> id in m
    requires forall id :: id in m ==> m[id].id == id
    ensures forall t :: t in ValuesOf(ids, m) ==> t.id in m && m[t.id] == t
  {
    forall t | t in ValuesOf(ids, m)
      ensures t.id in m && m[t.id] == t
    {
      var i :| 0 <= i < |ids| && ValuesOf(ids, m)[i] == t;
    }
  }

  lemma DistinctTail(ids: seq<string>)
    requires Distinct(ids) && ids != []
    ensures Distinct(ids[1..]) && ids[0] !in ids[1..]
  {
    var rest := ids[1..];
    forall i | 0 <= i < |rest| ensures rest[i] == ids[i + 1] { }
  }

  /** The ids in `ids` whose record in `m` has status `st`. */
  function IdsWithStatus(ids: seq<string>, m: map<string, TaskResult>, st: TaskStatus): (r: set<string>)
    requires forall id :: id in ids ==> id in m
    ensures forall id :: id in r <==> id in ids && m[id].status == st
  {
    if ids == [] then {}
    else
      assert forall id :: id in ids <==> id == ids[0] || id in ids[1..];
      (if m[ids[0]].status == st then {ids[0]} else {}) + IdsWithStatus(ids[1..], m, st)
  }

  /** Counting the records with a status along a duplicate-free key order
      counts the keys that carry that status. */
  lemma {:induction false} CountAlongOrder(ids: seq<string>, m: map<string, TaskResult>, st: TaskStatus)
    requires forall id :: id in ids ==> id in m
    requires Distinct(ids)
    ensures CountStatus(ValuesOf(ids, m), st) == |IdsWithStatus(ids, m, st)|
  {
    if ids != [] {
      DistinctTail(ids);
      CountAlongOrder(ids[1..], m, st);
      assert ValuesOf(ids, m)[1..] == ValuesOf(ids[1..], m);
      assert ids[0] !in IdsWithStatus(ids[1..], m, st);
    }
  }

  /** A duplicate-free sequence has as many elements as its set. */
  lemma {:induction false} DistinctCardinality(ids: seq<string>)
    requires Distinct(ids)
    ensures |set id | id in ids| == |ids|
  {
    if ids != [] {
      var rest := ids[1..];
      DistinctTail(ids);
      DistinctCardinality(rest);
      forall id ensures id in ids <==> id in rest || id == ids[0] {
        if id in ids {
          var i :| 0 <= i < |ids| && ids[i] == id;
          if i > 0 {
            assert rest[i - 1] == id;
          }
        }
      }
      assert (set id | id in ids) == (set id | id in rest) + {ids[0]};
    }
  }

  /** A dictionary whose keys are exactly a duplicate-free order has as many
      entries as the order. */
  lemma KeysCardinality(ids: seq<string>, m: map<string, TaskResult>)
    requires forall id :: id in m <==> id in ids
    requires Distinct(ids)
    ensures |m| == |ids|
  {
    DistinctCardinality(ids);
    assert m.Keys == set id | id in ids;
  }

  /** Counting a status along the order of all keys counts the keys with it. */
  lemma CountIsCardinality(ids: seq<string>, m: map<string, TaskResult>, st: TaskStatus)
    requires forall id :: id in m <==> id in ids
    requires Distinct(ids)
    ensures CountStatus(ValuesOf(ids, m), st) == |set id | id in m && m[id].status == st|
  {
    CountAlongOrder(ids, m, st);
    StatusIdsOfAllKeys(ids, m, st);
  }

  lemma StatusIdsOfAllKeys(ids: seq<string>, m: map<string, TaskResult>, st: TaskStatus)
    requires forall id :: id in m <==> id in ids
    ensures IdsWithStatus(ids, m, st) == set id | id in m && m[id].status == st
  {
    var counted, wanted := IdsWithStatus(ids, m, st), set id | id in m && m[id].status == st;
    forall id ensures id in counted <==> id in wanted { }
  }

  /** A page of the sorted list: at most `limit` tasks, sorted, all from `all`,
      and for non-negative bounds exactly the window `[offset, offset + limit)`. */
  lemma PageOfSorted(all: seq<TaskResult>, limit: int, offset: int)
    ensures var sorted := SortByStartDesc(all);
      var r := PySlice(sorted, offset, offset + limit);
      && |sorted| == |all|
      && (0 <= limit ==> |r| <= limit)
      && (0 <= offset && 0 <= limit ==>
           var n := |all|;
           r == sorted[if offset <= n then offset else n..if offset + limit <= n then offset + limit else n])
      && SortedByStartDesc(r)
      && (forall t :: t in r ==> t in all)
  {
    var sorted := SortByStartDesc(all);
    SortByStartDescCorrect(all);
    assert |sorted| == |multiset(sorted)| == |all|;
    SliceFacts(sorted, offset, limit);
    forall t | t in PySlice(sorted, offset, offset + limit) ensures t in all {
      assert t in multiset(sorted);
    }
  }

  class TaskStore {
    /** `self.tasks`, task id to record. */
    var tasks: map<string, TaskResult>
    /** The insertion order of the keys of `tasks` (Python dictionaries
        iterate in insertion order, which decides ties in `list_tasks`). */
    var order: seq<string>
    /** `self.steps`, task id to its step list. */
    var steps: map<string, seq<StepLog>>

    ghost predicate Valid()
      reads this
    {
      && (forall id :: id in tasks <==> id in order)
      && Distinct(order)
      && (forall id :: id in tasks ==> tasks[id].id == id && id in steps && tasks[id].steps == steps[id])
    }

    constructor ()
      ensures Valid() && tasks == map[] && order == [] && steps == map[]
    {
      tasks, order, steps := map[], [], map[];
    }

    /** The step list of `id`, empty when there is none. */
    function StepsOf(id: string): seq<StepLog>
      reads this
    {
      if id in steps then steps[id] else []
    }

    /** Every stored record, in insertion order (`self.tasks.values()`). */
    function TaskList(): (r: seq<TaskResult>)
      reads this
      requires Valid()
      ensures |r| == |order|
      ensures forall i :: 0 <= i < |r| ==> r[i] == tasks[order[i]]
    {
      ValuesOf(order, tasks)
    }

    method CreateTask(id: string, clock: Clock) returns (task: TaskResult)
      requires Valid()
      modifies this, clock
      ensures Valid()
      ensures task == NewTask(id, old(clock.time)) && clock.time == old(clock.time) + 1
      ensures task.status == TaskStatus.Pending && task.steps == []
      ensures tasks == old(tasks)[id := task]
      ensures steps == old(steps)[id := []]
      ensures order == if id in old(tasks) then old(order) else old(order) + [id]
    {
      var now := clock.Now();
      task := NewTask(id, now);
      if id !in tasks {
        order := order + [id];
      }
      tasks := tasks[id := task];
      steps := steps[id := []];
    }

    method UpdateTaskStatus(id: string, u: StatusUpdate, clock: Clock)
      requires Valid()
      modifies this, clock
      ensures Valid()
      ensures id in old(tasks) ==>
        && tasks == old(tasks)[id := ApplyUpdate(old(tasks)[id], u)]
        && steps == old(steps) && order == old(order) && clock.time == old(clock.time)
      // an unknown id is first created, reading the clock once
      ensures id !in old(tasks) ==>
        && tasks == old(tasks)[id := ApplyUpdate(NewTask(id, old(clock.time)), u)]
        && steps == old(steps)[id := []] && order == old(order) + [id]
        && clock.time == old(clock.time) + 1
    {
      ghost var before := if id in tasks then tasks[id] else NewTask(id, clock.time);
      if id !in tasks {
        var _ := CreateTask(id, clock);
      }
      assert tasks[id] == before;
      // the field-by-field writes are `ApplyUpdate`
      var task := ApplyUpdate(tasks[id], u);
      assert task.id == id && task.steps == steps[id];
      tasks := tasks[id := task];
    }

    function GetTask(id: string): (r: Option<TaskResult>)
      reads this
      requires Valid()
      ensures r.Some? <==> id in tasks
      ensures r.Some? ==> r.value == tasks[id] && r.value.id == id
    {
      if id in tasks then Some(tasks[id]) else None
    }

    /** One page of the stored tasks, newest start first. */
    function ListTasks(limit: int, offset: int): (r: seq<TaskResult>)
      reads this
      requires Valid()
      ensures 0 <= limit ==> |r| <= limit
      ensures 0 <= offset && 0 <= limit ==>
        var n := |order|;
        var sorted := SortByStartDesc(TaskList());
        |sorted| == n &&
        r == sorted[if offset <= n then offset else n..if offset + limit <= n then offset + limit else n]
      ensures SortedByStartDesc(r)
      ensures forall t :: t in r ==> t.id in tasks && tasks[t.id] == t
    {
      PageOfSorted(TaskList(), limit, offset);
      ValuesAreStored(order, tasks);
      PySlice(SortByStartDesc(TaskList()), offset, offset + limit)
    }

    method AddStep(id: string, step: StepLog)
      requires Valid()
      modifies this
      ensures Valid()
      ensures steps == old(steps)[id := old(StepsOf(id)) + [step]]
      ensures tasks == if id in old(tasks) then old(tasks)[id := old(tasks)[id].(steps := steps[id])] else old(tasks)
      ensures order == old(order)
    {
      if id !in steps {
        steps := steps[id := []];
      }
      steps := steps[id := steps[id] + [step]];
      if id in tasks {
        tasks := tasks[id := tasks[id].(steps := steps[id])];
      }
    }

    function GetStatistics(): (r: Statistics)
      reads this
      requires Valid()
      ensures r.totalTasks == |tasks|
      ensures r.completedTasks == |set id | id in tasks && tasks[id].status == TaskStatus.Completed|
      ensures r.failedTasks == |set id | id in tasks && tasks[id].status == TaskStatus.Failed|
      ensures r.runningTasks == |set id | id in tasks && tasks[id].status == TaskStatus.Running|
      ensures r.completedTasks + r.failedTasks + r.runningTasks <= r.totalTasks
      ensures r.totalTasks == 0 ==> r.successRate == 0.0
      ensures 0.0 <= r.successRate <= 1.0
    {
      var all := TaskList();
      var total := |all|;
      var completed := CountStatus(all, TaskStatus.Completed);
      var failed := CountStatus(all, TaskStatus.Failed);
      var running := CountStatus(all, TaskStatus.Running);
      StatisticsFacts(this);
      Statistics(total, completed, failed, running, SuccessRate(completed, total))
    }
  }

  /** `completed / total`, or 0 for an empty store. */
  function SuccessRate(completed: nat, total: nat): (r: real)
    requires completed <= total
    ensures 0.0 <= r <= 1.0
    ensures total == 0 ==> r == 0.0
    ensures r == 0.0 <==> completed == 0
    ensures r == 1.0 <==> 0 < total && completed == total
  {
    if total > 0 then
      var r := completed as real / total as real;
      assert r * total as real == completed as real;
      r
    else 0.0
  }

  /** What `GetStatistics` needs about the store's insertion order. */
  lemma StatisticsFacts(store: TaskStore)
    requires store.Valid()
    ensures |store.TaskList()| == |store.tasks|
    ensures forall st :: CountStatus(store.TaskList(), st)
                         == |set id | id in store.tasks && store.tasks[id].status == st|
    ensures CountStatus(store.TaskList(), TaskStatus.Completed) + CountStatus(store.TaskList(), TaskStatus.Failed)
          + CountStatus(store.TaskList(), TaskStatus.Running) <= |store.tasks|
  {
    KeysCardinality(store.order, store.tasks);
    forall st ensures CountStatus(store.TaskList(), st)
                      == |set id | id in store.tasks && store.tasks[id].status == st| {
      CountIsCardinality(store.order, store.tasks, st);
    }
    CountsBounded(store.TaskList());
  }
}
