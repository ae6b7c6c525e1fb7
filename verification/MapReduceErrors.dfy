/** How often a task is granted when workers report errors. A late error report puts back the retries that
    timeouts have counted. While no task is skipped that can happen only so often; once a task has been
    skipped, an error report brings it back, and there is no bound. */
module MapReduceErrors {
  import opened Choice
  import opened Coordinator
  import opened KeyValues
  import opened MapReduce
  import opened MapReduceData
  import opened MapReduceInv
  import opened MapReduceRuns
  import opened MrSequential
  import opened MrWorker
  import opened Options
  import opened Texts

  // The grants that can still follow from a task that is not started, with these retries: one, and those that
  // follow when it times out, and those that follow when its worker reports an error later.
  function Chances(retries: int): nat
    decreases 12 - retries
  {
    if retries >= 12 then 0 else 1 + 2 * Chances(retries + 1)
  }

  function TaskChances(t: Task): nat {
    match t.status
    case NotStarted => Chances(t.retries)
    case InProgress => Chances(t.retries + 1)
    case _ => 0
  }

  // What a worker can still bring about for the task with the id.
  function Share(x: Worker, id: TaskId): nat {
    if x.Working? && x.task.id == id then Chances(x.task.retries + 1)
    else if x.Reporting? && x.report.id == id && x.report.worker == -1 then Chances(x.report.retries)
    else 0
  }

  ghost function Pending(workers: map<int, Worker>, keys: set<int>, id: TaskId): nat
    requires keys <= workers.Keys
    decreases keys
  {
    if keys == {} then 0
    else
      var w := Pick(keys);
      Pending(workers, keys - {w}, id) + Share(workers[w], id)
  }

  ghost function AllPending(workers: map<int, Worker>, id: TaskId): nat {
    Pending(workers, workers.Keys, id)
  }

  lemma {:induction false} PendingSplit(workers: map<int, Worker>, keys: set<int>, w: int, id: TaskId)
    requires keys <= workers.Keys && w in keys
    ensures Pending(workers, keys, id) == Pending(workers, keys - {w}, id) + Share(workers[w], id)
    decreases keys
  {
    var v := Pick(keys);
    if v != w {
      PendingSplit(workers, keys - {v}, w, id);
      PendingSplit(workers, keys - {w}, v, id);
      assert keys - {v} - {w} == keys - {w} - {v};
    }
  }

  lemma {:induction false} PendingSame(workers: map<int, Worker>, next: map<int, Worker>, keys: set<int>, id: TaskId)
    requires keys <= workers.Keys && keys <= next.Keys && forall w | w in keys :: next[w] == workers[w]
    ensures Pending(next, keys, id) == Pending(workers, keys, id)
    decreases keys
  {
    if keys != {} {
      PendingSame(workers, next, keys - {Pick(keys)}, id);
    }
  }

  lemma {:induction false} PendingNothing(workers: map<int, Worker>, keys: set<int>, id: TaskId)
    requires keys <= workers.Keys && forall w | w in keys :: Share(workers[w], id) == 0
    ensures Pending(workers, keys, id) == 0
    decreases keys
  {
    if keys != {} {
      PendingNothing(workers, keys - {Pick(keys)}, id);
    }
  }

  // One worker changes.
  lemma PendingChanges(workers: map<int, Worker>, w: int, x: Worker, id: TaskId)
    ensures AllPending(workers[w := x], id) + (if w in workers then Share(workers[w], id) else 0) ==
            AllPending(workers, id) + Share(x, id)
  {
    var next := workers[w := x];
    var rest := workers.Keys - {w};
    assert next.Keys - {w} == rest;
    PendingSplit(next, next.Keys, w, id);
    PendingSame(workers, next, rest, id);
    if w in workers {
      PendingSplit(workers, workers.Keys, w, id);
    } else {
      assert rest == workers.Keys;
    }
  }

  /** The levels of retries while nothing is skipped. */

  ghost predicate Exists(tasks: seq<Task>, id: TaskId) {
    exists i :: 0 <= i < |tasks| && tasks[i].id == id
  }

  // The next look of the coordinator skips the task, unless it is completed first.
  predicate LastTry(t: Task) {
    t.status == Completed || (t.status == InProgress && t.retries > 10)
  }

  ghost predicate OnLastTry(tasks: seq<Task>, id: TaskId) {
    forall i | 0 <= i < |tasks| && tasks[i].id == id :: LastTry(tasks[i])
  }

  ghost predicate LevelOk(tasks: seq<Task>, x: Worker) {
    match x
    case Idle => true
    case Working(t) => Exists(tasks, t.id) && 0 <= t.retries <= 11 && (t.retries == 11 ==> OnLastTry(tasks, t.id))
    case Writing(t, _, _) => Exists(tasks, t.id)
    case Reporting(r) =>
      Exists(tasks, r.id) && (r.worker == -1 ==> 0 <= r.retries <= 12 && (r.retries == 12 ==> OnLastTry(tasks, r.id)))
  }

  ghost predicate Levels(s: System) {
    && (forall i | 0 <= i < |s.coord.tasks| :: s.coord.tasks[i].status == Completed || 0 <= s.coord.tasks[i].retries <= 11)
    && (forall w | w in s.workers :: LevelOk(s.coord.tasks, s.workers[w]))
  }

  // How one task can change while nothing is skipped.
  predicate GoesOn(t: Task, u: Task) {
    && u.id == t.id
    && (u.status == Completed || 0 <= u.retries <= 11)
    && (LastTry(t) ==> LastTry(u))
  }

  lemma CheckGoesOn(s: System, late: set<nat>, i: nat)
    requires Levels(s) && i < |s.coord.tasks|
    requires NoneSkipped(Sweep(s.coord.tasks, late, 0).0)
    ensures GoesOn(s.coord.tasks[i], Sweep(s.coord.tasks, late, 0).0[i])
  {
    SweepAt(s.coord.tasks, late, 0);
  }

  lemma DeliverGoesOn(job: Job, reducers: nat, s: System, w: int, i: nat)
    requires Control(job, reducers, s) && Levels(s) && NoneSkipped(s.coord.tasks) && i < |s.coord.tasks|
    requires w in s.workers && s.workers[w].Reporting?
    ensures GoesOn(s.coord.tasks[i], Absorb(s.coord, s.workers[w].report).tasks[i])
  {
    DeliverTask(job, reducers, s, w, i);
  }

  lemma TaskStep(job: Job, reducers: nat, s: System, step: Step, i: nat)
    requires Control(job, reducers, s) && Levels(s) && Enabled(job, s, step)
    requires NoneSkipped(s.coord.tasks) && NoneSkipped(Next(job, s, step).coord.tasks) && i < |s.coord.tasks|
    ensures i < |Next(job, s, step).coord.tasks| && GoesOn(s.coord.tasks[i], Next(job, s, step).coord.tasks[i])
  {
    match step {
      case Check(late) => CheckGoesOn(s, late, i);
      case Deliver(w, sorted, order) => DeliverGoesOn(job, reducers, s, w, i);
      case _ =>
    }
  }

  lemma DeliverTask(job: Job, reducers: nat, s: System, w: int, i: nat)
    requires Control(job, reducers, s) && Levels(s) && NoneSkipped(s.coord.tasks) && i < |s.coord.tasks|
    requires w in s.workers && s.workers[w].Reporting?
    ensures var t, r, u := s.coord.tasks[i], s.workers[w].report, Absorb(s.coord, s.workers[w].report).tasks[i];
            || u == t
            || (t.status == InProgress && u == t.(status := Completed, write := r.write, retries := r.retries))
            || (t.status == NotStarted && r.worker == -1 && r.id == t.id && r.retries <= 11 &&
                u == t.(status := NotStarted, write := r.write, retries := r.retries))
  {
    var m := FirstMatch(s.coord.tasks, s.workers[w].report, 0);
    assert Link(job, s.coord.tasks, w, s.workers[w]) && LevelOk(s.coord.tasks, s.workers[w]);
    if m == Some(i) {
      MatchedTask(job, reducers, s, w, i);
      assert MarkOk(s.coord.tasks[i]);
    }
  }

  lemma LevelStays(tasks: seq<Task>, next: seq<Task>, x: Worker)
    requires LevelOk(tasks, x) && |tasks| <= |next|
    requires forall i: nat | i < |tasks| :: GoesOn(tasks[i], next[i])
    requires forall i, j | 0 <= i < j < |next| :: next[i].id != next[j].id
    ensures LevelOk(next, x)
  {
    forall id | Exists(tasks, id) ensures Exists(next, id) && (OnLastTry(tasks, id) ==> OnLastTry(next, id)) {
      var i :| 0 <= i < |tasks| && tasks[i].id == id;
      assert next[i].id == id;
    }
  }

  // What the worker of a step holds afterwards.
  lemma WorkerLevel(job: Job, reducers: nat, s: System, step: Step)
    requires Control(job, reducers, s) && Levels(s) && Enabled(job, s, step) && !step.Check?
    ensures step.w in Next(job, s, step).workers
    ensures LevelOk(Next(job, s, step).coord.tasks, Next(job, s, step).workers[step.w])
  {
    var t := Next(job, s, step);
    match step {
      case Join(w) =>
      case Deliver(w, sorted, order) =>
      case Request(w, lost) =>
        var m := FirstGrantable(s.coord.tasks, 0);
        if m.Some? {
          assert t.coord.tasks[m.value].id == s.coord.tasks[m.value].id;
        }
      case Map(w) => assert LevelOk(s.coord.tasks, s.workers[w]);
      case Open(w, _) => assert LevelOk(s.coord.tasks, s.workers[w]);
      case Write(w) => assert LevelOk(s.coord.tasks, s.workers[w]);
      case Close(w) => assert LevelOk(s.coord.tasks, s.workers[w]);
      case Fail(w) => assert LevelOk(s.coord.tasks, s.workers[w]);
      case Lose(w) =>
    }
  }

  lemma StepKeepsLevels(job: Job, reducers: nat, s: System, step: Step)
    requires Control(job, reducers, s) && Levels(s) && Enabled(job, s, step)
    requires NoneSkipped(s.coord.tasks) && NoneSkipped(Next(job, s, step).coord.tasks)
    ensures Levels(Next(job, s, step))
  {
    var t := Next(job, s, step);
    StepKeepsControl(job, reducers, s, step);
    TasksOnlyGrow(job, s, step);
    forall i: nat | i < |s.coord.tasks|
      ensures GoesOn(s.coord.tasks[i], t.coord.tasks[i])
    {
      TaskStep(job, reducers, s, step, i);
    }
    NewTasksStart(job, s, step);
    forall v | v in t.workers ensures LevelOk(t.coord.tasks, t.workers[v]) {
      if !step.Check? && v == step.w {
        WorkerLevel(job, reducers, s, step);
      } else {
        OthersKeepTheirs(job, s, step, v);
        LevelStays(s.coord.tasks, t.coord.tasks, s.workers[v]);
      }
    }
  }

  lemma OthersKeepTheirs(job: Job, s: System, step: Step, v: int)
    requires Enabled(job, s, step) && v in Next(job, s, step).workers && (!step.Check? ==> v != step.w)
    ensures v in s.workers && Next(job, s, step).workers[v] == s.workers[v]
  {
  }

  lemma NewTasksStart(job: Job, s: System, step: Step)
    requires Enabled(job, s, step)
    ensures forall i | |s.coord.tasks| <= i < |Next(job, s, step).coord.tasks| :: Next(job, s, step).coord.tasks[i].retries == 0
  {
  }

  /** Every step pays for its grant. */

  // The chances of task i, in its own hands and in those of the workers.
  ghost function Left(s: System, i: nat): nat
    requires i < |s.coord.tasks|
  {
    TaskChances(s.coord.tasks[i]) + AllPending(s.workers, s.coord.tasks[i].id)
  }

  lemma RequestSpends(job: Job, s: System, w: int, lost: bool, i: nat)
    requires Levels(s) && Enabled(job, s, Request(w, lost)) && i < |s.coord.tasks|
    requires forall j, k | 0 <= j < k < |s.coord.tasks| :: s.coord.tasks[j].id != s.coord.tasks[k].id
    ensures var t := Next(job, s, Request(w, lost));
            i < |t.coord.tasks| && Left(t, i) + (if Granted(s, Request(w, lost)) == Some(i) then 1 else 0) <= Left(s, i)
  {
    var t := Next(job, s, Request(w, lost));
    PendingChanges(s.workers, w, t.workers[w], s.coord.tasks[i].id);
  }

  lemma DeliverSpends(job: Job, reducers: nat, s: System, w: int, sorted: seq<KeyValue>, order: seq<nat>, i: nat)
    requires Control(job, reducers, s) && Levels(s) && NoneSkipped(s.coord.tasks) && i < |s.coord.tasks|
    requires Enabled(job, s, Deliver(w, sorted, order))
    ensures var t := Next(job, s, Deliver(w, sorted, order));
            i < |t.coord.tasks| && Left(t, i) <= Left(s, i)
  {
    DeliverTask(job, reducers, s, w, i);
    PendingChanges(s.workers, w, Idle, s.coord.tasks[i].id);
  }

  lemma CheckSpends(job: Job, s: System, late: set<nat>, i: nat)
    requires i < |s.coord.tasks|
    ensures var t := Next(job, s, Check(late));
            i < |t.coord.tasks| && Left(t, i) <= Left(s, i)
  {
    SweepAt(s.coord.tasks, late, 0);
  }

  lemma OwnStepSpends(job: Job, s: System, step: Step, i: nat)
    requires Enabled(job, s, step) && i < |s.coord.tasks|
    requires Links(job, s.coord.tasks, s.workers)
    requires !step.Request? && !step.Deliver? && !step.Check?
    ensures var t := Next(job, s, step);
            i < |t.coord.tasks| && Left(t, i) <= Left(s, i)
  {
    var t := Next(job, s, step);
    PendingChanges(s.workers, step.w, t.workers[step.w], s.coord.tasks[i].id);
    assert step.w in s.workers ==> Link(job, s.coord.tasks, step.w, s.workers[step.w]);
  }

  lemma StepSpends(job: Job, reducers: nat, s: System, step: Step, i: nat)
    requires Control(job, reducers, s) && Levels(s) && Enabled(job, s, step)
    requires NoneSkipped(s.coord.tasks) && i < |s.coord.tasks|
    ensures i < |Next(job, s, step).coord.tasks|
    ensures Left(Next(job, s, step), i) + (if Granted(s, step) == Some(i) then 1 else 0) <= Left(s, i)
  {
    match step {
      case Request(w, lost) => RequestSpends(job, s, w, lost, i);
      case Deliver(w, sorted, order) => DeliverSpends(job, reducers, s, w, sorted, order, i);
      case Check(late) => CheckSpends(job, s, late, i);
      case _ => OwnStepSpends(job, s, step, i);
    }
  }

  lemma OnlyReportsAdd(job: Job, s: System, step: Step)
    requires Enabled(job, s, step)
    ensures !step.Deliver? ==> |Next(job, s, step).coord.tasks| == |s.coord.tasks|
  {
  }

  lemma GeneratedTask(c: Coord, sorted: seq<KeyValue>, order: seq<nat>, i: nat)
    requires |c.tasks| <= i < |Generate(c, sorted, order).tasks|
    ensures var t := Generate(c, sorted, order).tasks[i];
            t.status == NotStarted && t.retries == 0
  {
  }

  // Tasks are added by the report that ends the map phase.
  lemma AddedByDeliver(job: Job, s: System, step: Step, i: nat)
    requires Enabled(job, s, step) && |s.coord.tasks| <= i < |Next(job, s, step).coord.tasks|
    ensures step.Deliver? && TaskChances(Next(job, s, step).coord.tasks[i]) == Chances(0)
    ensures Granted(s, step) == None && Next(job, s, step).workers == s.workers[step.w := Idle]
  {
    OnlyReportsAdd(job, s, step);
    GeneratedTask(Absorb(s.coord, s.workers[step.w].report), step.sorted, step.order, i);
  }

  // No worker knows a task that has just been added.
  lemma NobodyKnows(tasks: seq<Task>, next: seq<Task>, workers: map<int, Worker>, i: nat)
    requires |tasks| <= i < |next| && forall w | w in workers :: LevelOk(tasks, workers[w])
    requires forall j | 0 <= j < |tasks| :: next[j].id == tasks[j].id
    requires forall j, k | 0 <= j < k < |next| :: next[j].id != next[k].id
    ensures AllPending(workers, next[i].id) == 0
  {
    assert !Exists(tasks, next[i].id);
    forall w | w in workers ensures Share(workers[w], next[i].id) == 0 {
      assert LevelOk(tasks, workers[w]);
    }
    PendingNothing(workers, workers.Keys, next[i].id);
  }

  lemma NewTaskLeft(job: Job, reducers: nat, s: System, step: Step, i: nat)
    requires Enabled(job, s, step) && Levels(s) && Shape(job, reducers, Next(job, s, step).coord)
    requires |s.coord.tasks| <= i < |Next(job, s, step).coord.tasks|
    requires forall j: nat | j < |s.coord.tasks| :: Next(job, s, step).coord.tasks[j].id == s.coord.tasks[j].id
    ensures Left(Next(job, s, step), i) == Chances(0) && Granted(s, step) != Some(i)
  {
    AddedByDeliver(job, s, step, i);
    NobodyKnows(s.coord.tasks, Next(job, s, step).coord.tasks, s.workers[step.w := Idle], i);
  }

  // The chances left and the limit for index i, whether there is such a task yet or not.
  ghost function LeftAt(s: System, i: nat): nat {
    if i < |s.coord.tasks| then Left(s, i) else 0
  }

  ghost function LimitAt(s: System, i: nat): nat {
    if i < |s.coord.tasks| then Chances(0) else 0
  }

  lemma StepIsPaid(job: Job, reducers: nat, s: System, step: Step, t: System, i: nat, grants: nat)
    requires Control(job, reducers, s) && Levels(s) && Enabled(job, s, step) && t == Next(job, s, step)
    requires NoneSkipped(s.coord.tasks) && NoneSkipped(t.coord.tasks)
    requires grants + LeftAt(s, i) <= LimitAt(s, i)
    ensures grants + (if Granted(s, step) == Some(i) then 1 else 0) + LeftAt(t, i) <= LimitAt(t, i)
  {
    TasksOnlyGrow(job, s, step);
    if i < |s.coord.tasks| {
      StepSpends(job, reducers, s, step, i);
    } else if i < |t.coord.tasks| {
      StepKeepsControl(job, reducers, s, step);
      forall j: nat | j < |s.coord.tasks| ensures t.coord.tasks[j].id == s.coord.tasks[j].id {
        TaskStep(job, reducers, s, step, j);
      }
      NewTaskLeft(job, reducers, s, step, i);
    }
  }

  lemma StartIsPaid(job: Job, reducers: nat, s: System, i: nat)
    requires Init(job, reducers, s)
    ensures LeftAt(s, i) == LimitAt(s, i) && Levels(s)
  {
    if i < |s.coord.tasks| {
      PendingNothing(s.workers, s.workers.Keys, s.coord.tasks[i].id);
    }
  }

  lemma {:induction false} RunKeepsLevels(job: Job, reducers: nat, run: seq<System>, steps: seq<Step>)
    requires IsRun(job, reducers, run, steps) && NoSkips(run)
    ensures Levels(run[|steps|])
    decreases |steps|
  {
    if steps == [] {
      StartIsPaid(job, reducers, run[0], 0);
    } else {
      var n := |steps| - 1;
      RunKeepsLevels(job, reducers, run[..|steps|], steps[..n]);
      RunKeepsControl(job, reducers, run[..|steps|], steps[..n]);
      assert NoneSkipped(run[n].coord.tasks) && NoneSkipped(run[n + 1].coord.tasks);
      StepKeepsLevels(job, reducers, run[n], steps[n]);
    }
  }

  // What the last step of a run starts from.
  lemma LastStep(job: Job, reducers: nat, run: seq<System>, steps: seq<Step>)
    requires IsRun(job, reducers, run, steps) && NoSkips(run) && steps != []
    ensures var n := |steps| - 1;
            && IsRun(job, reducers, run[..|steps|], steps[..n]) && NoSkips(run[..|steps|])
            && Control(job, reducers, run[n]) && Levels(run[n])
            && NoneSkipped(run[n].coord.tasks) && NoneSkipped(run[n + 1].coord.tasks)
  {
    var n := |steps| - 1;
    RunKeepsLevels(job, reducers, run[..|steps|], steps[..n]);
    RunKeepsControl(job, reducers, run[..|steps|], steps[..n]);
  }

  lemma {:induction false} GrantsPaid(job: Job, reducers: nat, run: seq<System>, steps: seq<Step>, i: nat)
    requires IsRun(job, reducers, run, steps) && NoSkips(run)
    ensures Grants(run, steps, i) + LeftAt(run[|steps|], i) <= LimitAt(run[|steps|], i)
    decreases |steps|
  {
    if steps == [] {
      StartIsPaid(job, reducers, run[0], i);
    } else {
      var n := |steps| - 1;
      LastStep(job, reducers, run, steps);
      GrantsPaid(job, reducers, run[..|steps|], steps[..n], i);
      StepIsPaid(job, reducers, run[n], steps[n], run[n + 1], i, Grants(run[..|steps|], steps[..n], i));
    }
  }

  lemma AllChances()
    ensures Chances(0) == 4095
  {
    assert Chances(11) == 1 && Chances(10) == 3 && Chances(9) == 7;
    assert Chances(8) == 15 && Chances(7) == 31 && Chances(6) == 63;
    assert Chances(5) == 127 && Chances(4) == 255 && Chances(3) == 511;
    assert Chances(2) == 1023 && Chances(1) == 2047;
  }

  /** With errors, but while no task is skipped, each task is granted at most 4095 times: every grant leaves
      one more timeout and one more error report to come, one level of retries higher. */
  lemma {:induction false} GrantsWithErrors(job: Job, reducers: nat, run: seq<System>, steps: seq<Step>)
    requires IsRun(job, reducers, run, steps) && NoSkips(run)
    ensures forall i: nat :: Grants(run, steps, i) <= 4095
    ensures AllGrants(run, steps) <= 4095 * |run[|steps|].coord.tasks|
  {
    AllChances();
    forall i: nat ensures Grants(run, steps, i) <= 4095 {
      GrantsPaid(job, reducers, run, steps, i);
    }
    BoundedBelow(run, steps, 4095, |run[|steps|].coord.tasks|);
    GrantsAddUp(job, reducers, run, steps, |run[|steps|].coord.tasks|);
  }

  /** A task that is skipped and brought back, again and again. */

  const NAME: Text := [97]

  // Two files, of which the second is never asked for.
  ghost function TwoFileJob(): Job {
    Job([NAME, [98]], map[], (name: Text, contents: Text) => [], (key: Text, values: seq<Text>) => [])
  }

  function First(status: Status, worker: int, retries: int): Task {
    Task(MapTask(0), status, worker, Input(NAME), MapOut(0), retries)
  }

  function Second(): Task {
    Task(MapTask(1), NotStarted, -1, Input([98]), MapOut(1), 0)
  }

  ghost function Round(t: Task, x: Worker): System {
    System(Coord([t, Second()], [], 1, false, map[]), map[0 := x], map[], map[], [])
  }

  ghost predicate Goes(s: System, step: Step, t: System) {
    Enabled(TwoFileJob(), s, step) && t == Next(TwoFileJob(), s, step)
  }

  lemma RequestFirst(r: nat)
    ensures Granted(Round(First(NotStarted, -1, r), Idle), Request(0, false)) == Some(0)
    ensures Goes(Round(First(NotStarted, -1, r), Idle), Request(0, false),
                 Round(First(InProgress, 0, r), Working(First(InProgress, 0, r))))
  {
    var tasks := [First(NotStarted, -1, r), Second()];
    assert Grantable(tasks[0]) && tasks[0 := First(InProgress, 0, r)] == [First(InProgress, 0, r), Second()];
  }

  lemma FailFirst(r: nat)
    ensures Goes(Round(First(InProgress, 0, r), Working(First(InProgress, 0, r))), Fail(0),
                 Round(First(InProgress, 0, r), Reporting(Failed(First(InProgress, 0, r)))))
  {
  }

  // The task times out, or is skipped when it has been tried too often.
  function GivenUp(r: nat): Task {
    if r > 10 then First(Skipped, -1, r) else First(NotStarted, -1, r + 1)
  }

  lemma CheckFirst(r: nat, x: Worker)
    ensures Goes(Round(First(InProgress, 0, r), x), Check({0}), Round(GivenUp(r), x))
  {
    var tasks := [First(InProgress, 0, r), Second()];
    var next := [GivenUp(r), Second()];
    assert Swept(tasks[0], 0 in {0}) == GivenUp(r) && tasks[0 := GivenUp(r)] == next;
    assert Swept(next[1], 1 in {0}) == next[1] && next[1 := next[1]] == next;
    assert Sweep(next, {0}, 1) == (next, false);
  }

  lemma DeliverFirst(r: nat)
    ensures Goes(Round(GivenUp(r), Reporting(Failed(First(InProgress, 0, r)))), Deliver(0, [], []),
                 Round(First(NotStarted, -1, r + 1), Idle))
  {
    var c := Round(GivenUp(r), Idle).coord;
    var report := Failed(First(InProgress, 0, r));
    assert FirstMatch(c.tasks, report, 0) == Some(0);
    assert c.tasks[0 := First(NotStarted, -1, r + 1)] == [First(NotStarted, -1, r + 1), Second()];
    var mid := Absorb(c, report);
    assert mid == Round(First(NotStarted, -1, r + 1), Idle).coord;
    assert !Finished(mid.tasks[1]) && !MapsDone(mid);
  }

  // Done would not return true anywhere in the run.
  ghost predicate NeverDone(run: seq<System>) {
    forall k | 0 <= k < |run| :: |run[k].coord.tasks| == 2 && run[k].coord.tasks[1] == Second()
  }

  lemma OneMoreStep(run: seq<System>, steps: seq<Step>, step: Step, t: System)
    requires IsRun(TwoFileJob(), 1, run, steps) && NeverDone(run) && Goes(run[|steps|], step, t)
    requires |t.coord.tasks| == 2 && t.coord.tasks[1] == Second()
    ensures IsRun(TwoFileJob(), 1, run + [t], steps + [step]) && NeverDone(run + [t])
    ensures Grants(run + [t], steps + [step], 0) ==
            Grants(run, steps, 0) + if Granted(run[|steps|], step) == Some(0) then 1 else 0
  {
    var longer, all := run + [t], steps + [step];
    assert longer[..|all|] == run && all[..|all| - 1] == steps;
    forall k | 0 <= k < |all|
      ensures Enabled(TwoFileJob(), longer[k], all[k]) && longer[k + 1] == Next(TwoFileJob(), longer[k], all[k])
    {
      assert k < |steps| ==> longer[k + 1] == run[k + 1];
    }
  }

  lemma StartIsRun()
    ensures var start := System(Coord(MapTasks(TwoFileJob().files), [], 1, false, map[]), map[], map[], map[], []);
            IsRun(TwoFileJob(), 1, [start], []) && NeverDone([start])
            && Goes(start, Join(0), Round(First(NotStarted, -1, 0), Idle))
  {
    assert MapTasks(TwoFileJob().files) == [First(NotStarted, -1, 0), Second()];
  }

  // One more round of grant, error, timeout or skip, and the late report.
  lemma OneMoreRound(run: seq<System>, steps: seq<Step>, r: nat) returns (longer: seq<System>, all: seq<Step>)
    requires IsRun(TwoFileJob(), 1, run, steps) && NeverDone(run)
    requires run[|steps|] == Round(First(NotStarted, -1, r), Idle)
    ensures IsRun(TwoFileJob(), 1, longer, all) && NeverDone(longer)
    ensures longer[|all|] == Round(First(NotStarted, -1, r + 1), Idle)
    ensures Grants(longer, all, 0) == Grants(run, steps, 0) + 1
  {
    var a := Round(First(InProgress, 0, r), Working(First(InProgress, 0, r)));
    var report := Reporting(Failed(First(InProgress, 0, r)));
    var b := Round(First(InProgress, 0, r), report);
    var c := Round(GivenUp(r), report);
    var d := Round(First(NotStarted, -1, r + 1), Idle);
    RequestFirst(r);
    FailFirst(r);
    CheckFirst(r, report);
    DeliverFirst(r);
    OneMoreStep(run, steps, Request(0, false), a);
    OneMoreStep(run + [a], steps + [Request(0, false)], Fail(0), b);
    var front, before := run + [a] + [b], steps + [Request(0, false)] + [Fail(0)];
    OneMoreStep(front, before, Check({0}), c);
    OneMoreStep(front + [c], before + [Check({0})], Deliver(0, [], []), d);
    longer, all := front + [c] + [d], before + [Check({0})] + [Deliver(0, [], [])];
  }

  /** With errors and skips there is no bound: for every number there is a run in which one task is granted
      that often while the other is never started, so that Done never ends the job. */
  lemma {:induction false} NoBoundWithSkips(n: nat) returns (run: seq<System>, steps: seq<Step>)
    ensures IsRun(TwoFileJob(), 1, run, steps) && Grants(run, steps, 0) == n
    ensures run[|steps|] == Round(First(NotStarted, -1, n), Idle) && NeverDone(run)
    ensures forall k, late | 0 <= k < |run| :: !Sweep(run[k].coord.tasks, late, 0).1
    decreases n
  {
    if n == 0 {
      StartIsRun();
      var start := System(Coord(MapTasks(TwoFileJob().files), [], 1, false, map[]), map[], map[], map[], []);
      OneMoreStep([start], [], Join(0), Round(First(NotStarted, -1, 0), Idle));
      run, steps := [start] + [Round(First(NotStarted, -1, 0), Idle)], [] + [Join(0)];
    } else {
      var front, before := NoBoundWithSkips(n - 1);
      run, steps := OneMoreRound(front, before, n - 1);
    }
    forall k, late | 0 <= k < |run| ensures !Sweep(run[k].coord.tasks, late, 0).1 {
      SweepIsDone(run[k].coord.tasks, late, 0);
      assert !Finished(Swept(run[k].coord.tasks[1], 1 in late));
    }
  }
}
