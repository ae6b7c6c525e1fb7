/** The MapReduce coordinator: task grants, status reports, the one-shot shuffle, and the timeout sweep. */
module Coordinator {
  import opened Choice
  import opened KeyValues
  import opened Options
  import opened PartitionFile
  import opened Shuffle
  import opened Texts

  // The ids of map tasks and of reduce tasks are distinct strings in the source.
  datatype TaskId = MapTask(i: nat) | ReduceTask(p: nat)

  datatype Status = NotStarted | InProgress | Completed | Skipped

  // Where a task reads or writes: an input file, a partition file, an intermediate or an output file.
  datatype Location = Nowhere | Input(name: Text) | PartitionAt(p: nat) | MapOut(i: nat) | ReduceOut(p: nat)

  datatype Task = Task(id: TaskId, status: Status, worker: int, read: Location, write: Location, retries: int)

  datatype Report = Report(id: TaskId, worker: int, write: Location, status: Status,
                           intermediate: seq<KeyValue>, retries: int)

  // The coordinator's fields, and the partition files it has written.
  datatype Coord = Coord(tasks: seq<Task>, results: seq<KeyValue>, reducers: nat, generated: bool, files: map<nat, Text>)

  predicate Grantable(t: Task) {
    t.status == NotStarted && t.worker == -1
  }

  // The first task from k on that can be granted.
  function FirstGrantable(tasks: seq<Task>, k: nat): (i: Option<nat>)
    requires k <= |tasks|
    ensures i.Some? ==> k <= i.value < |tasks| && Grantable(tasks[i.value])
    ensures forall j | k <= j < (if i.Some? then i.value else |tasks|) :: !Grantable(tasks[j])
    decreases |tasks| - k
  {
    if k == |tasks| then None else if Grantable(tasks[k]) then Some(k) else FirstGrantable(tasks, k + 1)
  }

  function Grant(c: Coord, w: int): (Coord, Option<Task>) {
    match FirstGrantable(c.tasks, 0)
    case None => (c, None)
    case Some(i) =>
      var t := c.tasks[i].(status := InProgress, worker := w);
      (c.(tasks := c.tasks[i := t]), Some(t))
  }

  // Nobody has started the task and it is assigned to nobody, and no earlier task is like that.
  ghost predicate IsFirstFree(tasks: seq<Task>, i: nat) {
    && i < |tasks| && tasks[i].status == NotStarted && tasks[i].worker == -1
    && forall j | 0 <= j < i :: !(tasks[j].status == NotStarted && tasks[j].worker == -1)
  }

  // A worker is granted the first free task. It is granted none exactly when no task is free; nothing else changes.
  lemma GrantMeaning(c: Coord, w: int)
    ensures var (d, reply) := Grant(c, w);
            && (reply.None? <==> forall j | 0 <= j < |c.tasks| :: !(c.tasks[j].status == NotStarted && c.tasks[j].worker == -1))
            && (reply.None? ==> d == c)
            && forall i: nat | IsFirstFree(c.tasks, i) ::
                 reply == Some(c.tasks[i].(status := InProgress, worker := w)) && d == c.(tasks := c.tasks[i := reply.value])
  {
    var i := FirstGrantable(c.tasks, 0);
    if i.Some? {
      assert Grantable(c.tasks[i.value]);
      assert forall j | 0 <= j < i.value :: !Grantable(c.tasks[j]);
    } else {
      assert forall j | 0 <= j < |c.tasks| :: !Grantable(c.tasks[j]);
    }
  }

  // The first task from k on that a report is for.
  function FirstMatch(tasks: seq<Task>, r: Report, k: nat): (i: Option<nat>)
    requires k <= |tasks|
    ensures i.Some? ==> k <= i.value < |tasks| && tasks[i.value].id == r.id && tasks[i.value].worker == r.worker
    ensures forall j | k <= j < (if i.Some? then i.value else |tasks|) :: tasks[j].id != r.id || tasks[j].worker != r.worker
    decreases |tasks| - k
  {
    if k == |tasks| then None
    else if tasks[k].id == r.id && tasks[k].worker == r.worker then Some(k)
    else FirstMatch(tasks, r, k + 1)
  }

  function Absorb(c: Coord, r: Report): Coord {
    match FirstMatch(c.tasks, r, 0)
    case None => c
    case Some(i) =>
      c.(results := c.results + r.intermediate,
         tasks := c.tasks[i := c.tasks[i].(status := r.status, write := r.write, retries := r.retries)])
  }

  // A report reaches the first task with its id and its worker, adds its pairs and sets the task to its status,
  // write location and retries. A report that no task waits for changes nothing.
  lemma AbsorbMeaning(c: Coord, r: Report)
    ensures (forall j | 0 <= j < |c.tasks| :: c.tasks[j].id != r.id || c.tasks[j].worker != r.worker) ==> Absorb(c, r) == c
    ensures forall i | 0 <= i < |c.tasks| && c.tasks[i].id == r.id && c.tasks[i].worker == r.worker &&
                       (forall j | 0 <= j < i :: c.tasks[j].id != r.id || c.tasks[j].worker != r.worker) ::
              Absorb(c, r) == c.(results := c.results + r.intermediate,
                                 tasks := c.tasks[i := Task(r.id, r.status, r.worker, c.tasks[i].read, r.write, r.retries)])
  {
    var i := FirstMatch(c.tasks, r, 0);
    assert i.Some? ==> !(c.tasks[i.value].id != r.id || c.tasks[i.value].worker != r.worker);
  }

  predicate Finished(t: Task) {
    t.status == Completed || t.status == Skipped
  }

  predicate MapsDone(c: Coord) {
    forall i | 0 <= i < |c.tasks| && c.tasks[i].id.MapTask? :: Finished(c.tasks[i])
  }

  function ReduceTasks(order: seq<nat>): seq<Task> {
    seq(|order|, i requires 0 <= i < |order| =>
      Task(ReduceTask(order[i]), NotStarted, -1, PartitionAt(order[i]), ReduceOut(order[i]), 0))
  }

  ghost predicate NoRepeats(order: seq<nat>) {
    forall i, j | 0 <= i < j < |order| :: order[i] != order[j]
  }

  // One outcome of the shuffle: the pairs in some sorted order, and the non-empty partitions in some order.
  ghost predicate IsShuffle(c: Coord, sorted: seq<KeyValue>, order: seq<nat>) {
    && c.reducers > 0
    && SortOf(sorted, c.results)
    && NoRepeats(order)
    && (forall p: nat :: p in order <==> Part(sorted, p, c.reducers) != [])
  }

  // Clearing a slice leaves as many empty pairs.
  function Cleared(s: seq<KeyValue>): seq<KeyValue> {
    seq(|s|, i => KeyValue([], []))
  }

  ghost function Files(sorted: seq<KeyValue>, order: seq<nat>, reducers: nat): map<nat, Text>
    requires reducers > 0
  {
    map p | p in order :: Print(Part(sorted, p, reducers))
  }

  ghost function Generate(c: Coord, sorted: seq<KeyValue>, order: seq<nat>): Coord {
    if c.generated || !MapsDone(c) || c.reducers == 0 then c
    else
      c.(generated := true, tasks := c.tasks + ReduceTasks(order), results := Cleared(c.results),
         files := c.files + Files(sorted, order, c.reducers))
  }

  // The reduce phase begins once, as soon as every map task is completed or skipped. It adds a task and a file for
  // each partition, and empties the results.
  lemma GenerateMeaning(c: Coord, sorted: seq<KeyValue>, order: seq<nat>)
    requires c.reducers > 0
    ensures var d := Generate(c, sorted, order);
            && (d.generated <==>
                  c.generated || forall i | 0 <= i < |c.tasks| && c.tasks[i].id.MapTask? ::
                                   c.tasks[i].status == Completed || c.tasks[i].status == Skipped)
            && (d.generated == c.generated ==> d == c)
    ensures var d := Generate(c, sorted, order);
            d.generated && !c.generated ==>
              && d.reducers == c.reducers && |d.tasks| == |c.tasks| + |order| && d.tasks[..|c.tasks|] == c.tasks
              && (forall i | 0 <= i < |order| ::
                    d.tasks[|c.tasks| + i] ==
                    Task(ReduceTask(order[i]), NotStarted, -1, PartitionAt(order[i]), ReduceOut(order[i]), 0))
              && (forall p | p in order :: p in d.files && d.files[p] == Print(Part(sorted, p, c.reducers)))
              && |d.results| == |c.results|
  {
  }

  // One task in a call of Done: skip it after too many retries, or hand it out again after a timeout.
  function Swept(t: Task, late: bool): Task {
    if t.status == InProgress && t.retries > 10 then t.(worker := -1, status := Skipped)
    else if t.status == InProgress && late then t.(worker := -1, status := NotStarted, retries := t.retries + 1)
    else t
  }

  // Done looks at the tasks in order and stops at the first that is not finished.
  function Sweep(tasks: seq<Task>, late: set<nat>, k: nat): (r: (seq<Task>, bool))
    requires k <= |tasks|
    ensures |r.0| == |tasks|
    decreases |tasks| - k
  {
    if k == |tasks| then (tasks, true)
    else
      var t := Swept(tasks[k], k in late);
      if Finished(t) then Sweep(tasks[k := t], late, k + 1) else (tasks[k := t], false)
  }

  function MapTasks(files: seq<Text>): seq<Task> {
    seq(|files|, i requires 0 <= i < |files| =>
      Task(MapTask(i), NotStarted, -1, Input(files[i]), MapOut(i), 0))
  }

  class Coordinator {
    var Tasks: seq<Task>
    var IntermediateResults: seq<KeyValue>
    var ReducerCount: nat
    var IsReduceGenerated: bool
    var PartitionFiles: map<nat, Text>

    ghost function View(): Coord
      reads this
    {
      Coord(Tasks, IntermediateResults, ReducerCount, IsReduceGenerated, PartitionFiles)
    }

    constructor (files: seq<Text>, nReduce: nat)
      ensures View() == Coord(MapTasks(files), [], nReduce, false, map[])
    {
      IntermediateResults, ReducerCount, IsReduceGenerated, PartitionFiles := [], nReduce, false, map[];
      Tasks := [];
      new;
      for i := 0 to |files|
        invariant Tasks == MapTasks(files[..i])
        invariant IntermediateResults == [] && ReducerCount == nReduce && !IsReduceGenerated && PartitionFiles == map[]
      {
        Tasks := Tasks + [Task(MapTask(i), NotStarted, -1, Input(files[i]), MapOut(i), 0)];
      }
      assert files[..|files|] == files;
    }

    method RequestTask(worker: int) returns (reply: Option<Task>)
      modifies this
      ensures (View(), reply) == Grant(old(View()), worker)
      ensures reply.None? <==> forall j | 0 <= j < |old(Tasks)| :: !(old(Tasks)[j].status == NotStarted && old(Tasks)[j].worker == -1)
      ensures reply.None? ==> View() == old(View())
      ensures reply.Some? ==>
                exists i: nat ::
                  && IsFirstFree(old(Tasks), i)
                  && reply.value == old(Tasks)[i].(status := InProgress, worker := worker)
                  && View() == old(View()).(tasks := old(Tasks)[i := reply.value])
    {
      GrantMeaning(View(), worker);
      var taskIndex := -1;
      var i := 0;
      while i < |Tasks|
        invariant i <= |Tasks| && taskIndex == -1
        invariant FirstGrantable(Tasks, 0) == FirstGrantable(Tasks, i)
      {
        if Tasks[i].status == NotStarted && Tasks[i].worker == -1 {
          taskIndex := i;
          break;
        }
        i := i + 1;
      }
      if taskIndex == -1 {
        return None;
      }
      ghost var before := Tasks;
      Tasks := Tasks[taskIndex := Tasks[taskIndex].(status := InProgress)];
      Tasks := Tasks[taskIndex := Tasks[taskIndex].(worker := worker)];
      assert IsFirstFree(before, taskIndex);
      assert Tasks == before[taskIndex := before[taskIndex].(status := InProgress, worker := worker)];
      return Some(Tasks[taskIndex]);
    }

    method UpdateTaskStatus(r: Report) returns (ghost sorted: seq<KeyValue>, ghost order: seq<nat>)
      requires ReducerCount > 0
      modifies this
      ensures var mid := Absorb(old(View()), r);
              && View() == Generate(mid, sorted, order)
              && (!mid.generated && MapsDone(mid) ==> IsShuffle(mid, sorted, order))
    {
      var i := 0;
      while i < |Tasks|
        invariant i <= |Tasks| && View() == old(View())
        invariant FirstMatch(Tasks, r, 0) == FirstMatch(Tasks, r, i)
      {
        if Tasks[i].id == r.id && Tasks[i].worker == r.worker {
          IntermediateResults := IntermediateResults + r.intermediate;
          Tasks := Tasks[i := Tasks[i].(status := r.status, write := r.write, retries := r.retries)];
          break;
        }
        i := i + 1;
      }
      sorted, order := GenerateReduceTasksIfApplicable();
    }

    // The check in generateReduceTasksIfApplicable.
    method IsAllMappingDone() returns (done: bool)
      ensures done == MapsDone(View())
    {
      var i := 0;
      while i < |Tasks|
        invariant i <= |Tasks|
        invariant forall k | 0 <= k < i && Tasks[k].id.MapTask? :: Finished(Tasks[k])
      {
        if Tasks[i].id.MapTask? && Tasks[i].status != Completed && Tasks[i].status != Skipped {
          return false;
        }
        i := i + 1;
      }
      return true;
    }

    method GenerateReduceTasksIfApplicable() returns (ghost sorted: seq<KeyValue>, ghost order: seq<nat>)
      requires ReducerCount > 0
      modifies this
      ensures View() == Generate(old(View()), sorted, order)
      ensures !old(IsReduceGenerated) && MapsDone(old(View())) ==> IsShuffle(old(View()), sorted, order)
    {
      sorted, order := [], [];
      if !IsReduceGenerated {
        var isAllMappingDone := IsAllMappingDone();
        if isAllMappingDone {
          sorted, order := GenerateReduceTasks();
        }
      }
    }

    method GenerateReduceTasks() returns (ghost sorted: seq<KeyValue>, ghost order: seq<nat>)
      requires ReducerCount > 0
      modifies this
      ensures IsReduceGenerated && ReducerCount == old(ReducerCount) > 0
      ensures SortOf(sorted, old(IntermediateResults)) && NoRepeats(order)
      ensures forall p: nat :: p in order <==> Part(sorted, p, ReducerCount) != []
      ensures Tasks == old(Tasks) + ReduceTasks(order)
      ensures IntermediateResults == Cleared(old(IntermediateResults))
      ensures PartitionFiles == old(PartitionFiles) + Files(sorted, order, ReducerCount)
    {
      IsReduceGenerated := true;
      var partitions := ShuffleResults();
      sorted := IntermediateResults;
      order := InitializeReduceTasks(partitions);
      OrderListsParts(partitions, sorted, order, ReducerCount);
      StoreAllIsFiles(old(PartitionFiles), partitions, sorted, order, ReducerCount);
      IntermediateResults := Cleared(IntermediateResults);
      assert IntermediateResults == Cleared(old(IntermediateResults));
    }

    // Sorts the results in place and partitions them.
    method ShuffleResults() returns (partitions: map<nat, seq<KeyValue>>)
      requires ReducerCount > 0
      modifies this`IntermediateResults
      ensures SortOf(IntermediateResults, old(IntermediateResults))
      ensures |IntermediateResults| == |old(IntermediateResults)|
      ensures IsPartitioning(partitions, IntermediateResults, ReducerCount)
    {
      var s := Sort(IntermediateResults);
      IntermediateResults := s;
      MultisetSize(s, old(IntermediateResults));
      partitions := Partition(IntermediateResults, ReducerCount);
    }

    // Writes the partition files and adds the reduce tasks, in the order in which the map is enumerated.
    method InitializeReduceTasks(partitions: map<nat, seq<KeyValue>>) returns (ghost order: seq<nat>)
      modifies this`Tasks, this`PartitionFiles
      ensures Elements(order) == partitions.Keys && NoRepeats(order)
      ensures Tasks == old(Tasks) + ReduceTasks(order)
      ensures PartitionFiles == StoreAll(old(PartitionFiles), partitions, order)
    {
      order := [];
      var keys := partitions.Keys;
      while keys != {}
        invariant Elements(order) + keys == partitions.Keys && Elements(order) !! keys && NoRepeats(order)
        invariant Tasks == old(Tasks) + ReduceTasks(order)
        invariant PartitionFiles == StoreAll(old(PartitionFiles), partitions, order)
        decreases keys
      {
        var p := TakeAny(keys);
        keys := keys - {p};
        OneMoreReduceTask(order, p);
        OneMoreFile(old(PartitionFiles), partitions, order, p);
        var text := Store(partitions[p]);
        PartitionFiles := PartitionFiles[p := text];
        Tasks := Tasks + [Task(ReduceTask(p), NotStarted, -1, PartitionAt(p), ReduceOut(p), 0)];
        order := order + [p];
      }
    }

    // Called in a loop; late holds the tasks last updated more than five seconds ago.
    method Done(late: set<nat>) returns (done: bool)
      modifies this`Tasks
      ensures (Tasks, done) == Sweep(old(Tasks), late, 0)
    {
      for i := 0 to |Tasks|
        invariant |Tasks| == |old(Tasks)|
        invariant Sweep(old(Tasks), late, 0) == Sweep(Tasks, late, i)
      {
        ghost var before := Tasks;
        SetSkippedIfApplicable(i);
        SetNotStartedIfApplicable(i, i in late);
        assert Tasks == before[i := Swept(before[i], i in late)];
        if Tasks[i].status != Completed && Tasks[i].status != Skipped {
          return false;
        }
      }
      return true;
    }

    method SetSkippedIfApplicable(i: nat)
      requires i < |Tasks|
      modifies this`Tasks
      ensures Tasks == old(Tasks)[i := if old(Tasks)[i].status == InProgress && old(Tasks)[i].retries > 10
                                       then old(Tasks)[i].(worker := -1, status := Skipped) else old(Tasks)[i]]
    {
      if Tasks[i].status == InProgress && Tasks[i].retries > 10 {
        Tasks := Tasks[i := Tasks[i].(worker := -1, status := Skipped)];
      }
    }

    method SetNotStartedIfApplicable(i: nat, late: bool)
      requires i < |Tasks|
      modifies this`Tasks
      ensures Tasks == old(Tasks)[i := if old(Tasks)[i].status == InProgress && late
                                       then old(Tasks)[i].(worker := -1, status := NotStarted, retries := old(Tasks)[i].retries + 1)
                                       else old(Tasks)[i]]
    {
      if Tasks[i].status == InProgress && late {
        Tasks := Tasks[i := Tasks[i].(worker := -1, status := NotStarted, retries := Tasks[i].retries + 1)];
      }
    }
  }

  lemma OneMoreReduceTask(order: seq<nat>, p: nat)
    ensures ReduceTasks(order + [p]) ==
            ReduceTasks(order) + [Task(ReduceTask(p), NotStarted, -1, PartitionAt(p), ReduceOut(p), 0)]
    ensures Elements(order + [p]) == Elements(order) + {p}
    ensures NoRepeats(order) && p !in Elements(order) ==> NoRepeats(order + [p])
  {
    ElementsConcat(order, [p]);
    assert forall i | 0 <= i < |order| :: order[i] in Elements(order);
  }

  // The partition files after those in order have been written.
  ghost function StoreAll(files: map<nat, Text>, partitions: map<nat, seq<KeyValue>>, order: seq<nat>): map<nat, Text> {
    if order == [] then files
    else
      var p := order[|order| - 1];
      StoreAll(files, partitions, order[..|order| - 1])[p := if p in partitions then Print(partitions[p]) else []]
  }

  lemma OneMoreFile(files: map<nat, Text>, partitions: map<nat, seq<KeyValue>>, order: seq<nat>, p: nat)
    requires p in partitions
    ensures StoreAll(files, partitions, order + [p]) == StoreAll(files, partitions, order)[p := Print(partitions[p])]
  {
    assert (order + [p])[..|order|] == order;
  }

  lemma FilesLast(sorted: seq<KeyValue>, order: seq<nat>, last: nat, reducers: nat)
    requires reducers > 0
    ensures Files(sorted, order + [last], reducers) ==
            Files(sorted, order, reducers)[last := Print(Part(sorted, last, reducers))]
  {
    var m := Files(sorted, order + [last], reducers);
    var n := Files(sorted, order, reducers)[last := Print(Part(sorted, last, reducers))];
    assert m.Keys == n.Keys;
  }

  lemma UpdateSum(f: map<nat, Text>, m: map<nat, Text>, p: nat, text: Text)
    ensures (f + m)[p := text] == f + m[p := text]
  {
  }

  lemma {:induction false} StoreAllIsFiles(files: map<nat, Text>, partitions: map<nat, seq<KeyValue>>,
                                           sorted: seq<KeyValue>, order: seq<nat>, reducers: nat)
    requires reducers > 0 && IsPartitioning(partitions, sorted, reducers)
    requires forall i | 0 <= i < |order| :: order[i] in partitions
    ensures StoreAll(files, partitions, order) == files + Files(sorted, order, reducers)
    decreases |order|
  {
    if order == [] {
      assert Files(sorted, order, reducers) == map[];
    } else {
      var n := |order| - 1;
      StoreAllIsFiles(files, partitions, sorted, order[..n], reducers);
      assert order == order[..n] + [order[n]];
      OneMoreIsStored(files, partitions, sorted, order[..n], order[n], reducers);
    }
  }

  lemma OneMoreIsStored(files: map<nat, Text>, partitions: map<nat, seq<KeyValue>>, sorted: seq<KeyValue>, order: seq<nat>,
                        p: nat, reducers: nat)
    requires reducers > 0 && p in partitions && partitions[p] == Part(sorted, p, reducers)
    requires StoreAll(files, partitions, order) == files + Files(sorted, order, reducers)
    ensures StoreAll(files, partitions, order + [p]) == files + Files(sorted, order + [p], reducers)
  {
    OneMoreFile(files, partitions, order, p);
    FilesLast(sorted, order, p, reducers);
    UpdateSum(files, Files(sorted, order, reducers), p, Print(Part(sorted, p, reducers)));
  }

  lemma OrderListsParts(partitions: map<nat, seq<KeyValue>>, sorted: seq<KeyValue>, order: seq<nat>, reducers: nat)
    requires reducers > 0 && IsPartitioning(partitions, sorted, reducers) && Elements(order) == partitions.Keys
    ensures forall p: nat :: p in order <==> Part(sorted, p, reducers) != []
    ensures forall i | 0 <= i < |order| :: order[i] in partitions
  {
    forall p: nat ensures p in order <==> p in partitions {
      assert p in order <==> p in Elements(order);
    }
  }

  lemma MultisetSize(s: seq<KeyValue>, t: seq<KeyValue>)
    requires multiset(s) == multiset(t)
    ensures |s| == |t|
  {
    assert |multiset(s)| == |s| && |multiset(t)| == |t|;
  }
}
