/** The coordinator with any number of workers: grants, reports, lost replies, timeouts, and workers that
    stop, stall or report late. */
module MapReduce {
  import opened Coordinator
  import opened KeyValues
  import opened MrSequential
  import opened MrWorker
  import opened Options
  import opened OutputFile

  // A worker between tasks, with a task, with an output file open and pos of its lines written, or with a
  // report. A worker that crashes takes no more steps; its report may still arrive.
  datatype Worker = Idle | Working(task: Task) | Writing(task: Task, lines: seq<Line>, pos: nat) | Reporting(report: Report)

  // The worker that was the last to create a file, and whether it has closed it.
  datatype Maker = Maker(worker: int, closed: bool)

  // outputs holds the output files as they are. The last worker to create each of them, and the sorted list
  // from which the partition files were written, are kept for the record.
  datatype System = System(coord: Coord, workers: map<int, Worker>, outputs: map<nat, OutFile>,
                           makers: map<nat, Maker>, shuffled: seq<KeyValue>)

  datatype Step =
    | Join(w: int)                                               // a worker starts; its id is new
    | Request(w: int, lost: bool)                                // RequestTask, whose reply may be lost
    | Map(w: int)                                                // executeMapf
    | Open(w: int, lines: seq<Line>)                             // executeReducef up to os.Create
    | Write(w: int)                                              // one Fprintf of executeReducef
    | Close(w: int)                                              // executeReducef to its end
    | Fail(w: int)                                               // an error in either
    | Deliver(w: int, sorted: seq<KeyValue>, order: seq<nat>)    // UpdateTaskStatus
    | Lose(w: int)                                               // UpdateTaskStatus, whose request is lost
    | Check(late: set<nat>)                                      // Done

  ghost predicate Init(job: Job, reducers: nat, s: System) {
    s == System(Coord(MapTasks(job.files), [], reducers, false, map[]), map[], map[], map[], [])
  }

  predicate Busy(s: System, w: int) {
    w in s.workers && s.workers[w].Working?
  }

  ghost predicate Enabled(job: Job, s: System, step: Step) {
    match step
    case Join(w) => w >= 0 && w !in s.workers
    case Request(w, _) => w in s.workers && s.workers[w].Idle?
    case Map(w) =>
      Busy(s, w) &&
      var t := s.workers[w].task;
      t.id.MapTask? && t.read.Input? && t.read.name in job.contents
    case Open(w, lines) =>
      Busy(s, w) &&
      var t := s.workers[w].task;
      t.id.ReduceTask? && t.read.PartitionAt? && t.read.p in s.coord.files &&
      IsReduceOutput(lines, s.coord.files[t.read.p], job.reducef)
    case Write(w) => w in s.workers && s.workers[w].Writing? && s.workers[w].pos < |s.workers[w].lines|
    case Close(w) => w in s.workers && s.workers[w].Writing? && s.workers[w].pos == |s.workers[w].lines|
    case Fail(w) => Busy(s, w)
    case Deliver(w, sorted, order) =>
      w in s.workers && s.workers[w].Reporting? &&
      var mid := Absorb(s.coord, s.workers[w].report);
      !mid.generated && MapsDone(mid) ==> IsShuffle(mid, sorted, order)
    case Lose(w) => w in s.workers && s.workers[w].Reporting?
    case Check(_) => true
  }

  // A reply without a read location is taken as no task.
  function AfterReply(reply: Option<Task>, lost: bool): Worker {
    if lost || reply.None? || reply.value.read == Input([]) then Idle else Working(reply.value)
  }

  function PlaceOf(l: Location): nat {
    if l.ReduceOut? then l.p else 0
  }

  ghost function Next(job: Job, s: System, step: Step): System
    requires Enabled(job, s, step)
  {
    match step
    case Join(w) => s.(workers := s.workers[w := Idle])
    case Request(w, lost) =>
      var (c, reply) := Grant(s.coord, w);
      s.(coord := c, workers := s.workers[w := AfterReply(reply, lost)])
    case Map(w) =>
      var t := s.workers[w].task;
      s.(workers := s.workers[w := Reporting(Succeeded(t, job.mapf(t.read.name, job.contents[t.read.name])))])
    case Open(w, lines) =>
      var t := s.workers[w].task;
      var p := PlaceOf(t.write);
      s.(outputs := s.outputs[p := []], makers := s.makers[p := Maker(w, false)],
         workers := s.workers[w := Writing(t, lines, 0)])
    case Write(w) =>
      var x := s.workers[w];
      var p := PlaceOf(x.task.write);
      var file := if p in s.outputs then s.outputs[p] else [];
      s.(outputs := s.outputs[p := WriteAt(file, x.pos, x.lines[x.pos])], workers := s.workers[w := x.(pos := x.pos + 1)])
    case Close(w) =>
      var t := s.workers[w].task;
      var p := PlaceOf(t.write);
      s.(makers := if p in s.makers && s.makers[p].worker == w then s.makers[p := Maker(w, true)] else s.makers,
         workers := s.workers[w := Reporting(Succeeded(t, []))])
    case Fail(w) => s.(workers := s.workers[w := Reporting(Failed(s.workers[w].task))])
    case Deliver(w, sorted, order) =>
      var mid := Absorb(s.coord, s.workers[w].report);
      s.(coord := Generate(mid, sorted, order), workers := s.workers[w := Idle],
         shuffled := if !mid.generated && MapsDone(mid) then sorted else s.shuffled)
    case Lose(w) => s.(workers := s.workers[w := Idle])
    case Check(late) => s.(coord := s.coord.(tasks := Sweep(s.coord.tasks, late, 0).0))
  }

  ghost predicate IsRun(job: Job, reducers: nat, run: seq<System>, steps: seq<Step>) {
    && |run| == |steps| + 1
    && Init(job, reducers, run[0])
    && forall k | 0 <= k < |steps| :: Enabled(job, run[k], steps[k]) && run[k + 1] == Next(job, run[k], steps[k])
  }

  /** What one step does to the list of tasks. */

  // A task is untouched, or given up by the coordinator, or granted to w or reported by it.
  ghost predicate TaskMoves(t: Task, u: Task, w: int) {
    u == t || (u.id == t.id && u.read == t.read && (u.worker == -1 || u.worker == w))
  }

  ghost predicate TasksMove(tasks: seq<Task>, next: seq<Task>, w: int) {
    && |tasks| <= |next|
    && (forall i | 0 <= i < |tasks| :: TaskMoves(tasks[i], next[i], w))
    && (forall i | |tasks| <= i < |next| :: next[i].worker == -1 && next[i].status == NotStarted)
  }

  lemma {:induction false} SweepAt(tasks: seq<Task>, late: set<nat>, k: nat)
    requires k <= |tasks|
    ensures forall i | 0 <= i < k :: Sweep(tasks, late, k).0[i] == tasks[i]
    ensures forall i: nat | k <= i < |tasks| ::
              Sweep(tasks, late, k).0[i] == tasks[i] || Sweep(tasks, late, k).0[i] == Swept(tasks[i], i in late)
    ensures Sweep(tasks, late, k).1 ==> forall i: nat | k <= i < |tasks| :: Finished(Sweep(tasks, late, k).0[i])
    decreases |tasks| - k
  {
    if k < |tasks| && Finished(Swept(tasks[k], k in late)) {
      SweepAt(tasks[k := Swept(tasks[k], k in late)], late, k + 1);
    }
  }

  // A call of Done looks at the tasks up to the first that is unfinished afterwards, skips and hands out again what
  // it looks at, and leaves the rest for the next call.
  lemma {:induction false} SweepMeaning(tasks: seq<Task>, late: set<nat>, k: nat, n: nat)
    requires k <= n <= |tasks| && forall i: nat | k <= i < n :: Finished(Swept(tasks[i], i in late))
    requires n < |tasks| ==> !Finished(Swept(tasks[n], n in late))
    ensures var (next, done) := Sweep(tasks, late, k);
            && |next| == |tasks| && (done <==> n == |tasks|)
            && forall i: nat | i < |tasks| :: next[i] == if k <= i <= n then Swept(tasks[i], i in late) else tasks[i]
    decreases n - k
  {
    if k < n {
      SweepMeaning(tasks[k := Swept(tasks[k], k in late)], late, k + 1, n);
    }
  }

  // Done returns true exactly when no task is left unfinished by the sweep.
  lemma {:induction false} SweepIsDone(tasks: seq<Task>, late: set<nat>, k: nat)
    requires k <= |tasks|
    ensures Sweep(tasks, late, k).1 <==> forall i: nat | k <= i < |tasks| :: Finished(Swept(tasks[i], i in late))
    decreases |tasks| - k
  {
    if k < |tasks| && Finished(Swept(tasks[k], k in late)) {
      SweepIsDone(tasks[k := Swept(tasks[k], k in late)], late, k + 1);
    }
  }

  /** When the reply to a request is lost the task is assigned all the same, while the worker knows nothing of it: only
      the timeout brings it back. */
  lemma LostReplyLeavesTask(job: Job, s: System, w: int, i: nat)
    requires Enabled(job, s, Request(w, true)) && IsFirstFree(s.coord.tasks, i)
    ensures var t := Next(job, s, Request(w, true));
            && t.coord == s.coord.(tasks := s.coord.tasks[i := s.coord.tasks[i].(status := InProgress, worker := w)])
            && t.workers == s.workers && w in t.workers && t.workers[w] == Idle
  {
    GrantMeaning(s.coord, w);
    assert s.workers[w := Idle] == s.workers;
  }

  /** A report that is lost changes nothing for the coordinator, and the worker goes on to ask for another task. */
  lemma LostReportIsForgotten(job: Job, s: System, w: int)
    requires w in s.workers && s.workers[w].Reporting?
    ensures Enabled(job, s, Lose(w)) && Next(job, s, Lose(w)) == s.(workers := s.workers[w := Idle])
    ensures Enabled(job, Next(job, s, Lose(w)), Request(w, false))
  {
  }
}
