/** Progress: nothing that happens in a run without skips keeps the job from being finished. A new worker can always
    complete what is left, and a worker alone completes every job with the output of the sequential program. */
module MapReduceProgress {
  import opened Choice
  import opened Coordinator
  import opened KeyValues
  import opened MapReduce
  import opened MapReduceData
  import opened MapReduceEquivalence
  import opened MapReduceInv
  import opened MapReduceRuns
  import opened MrSequential
  import opened MrWorker
  import opened OutputFile
  import opened PartitionFile
  import opened Shuffle
  import opened Texts

  /** Sorts, reductions and shuffles exist. */

  lemma {:induction false} PlaceFor(r: seq<KeyValue>, kv: KeyValue, at: nat) returns (to: nat)
    requires at <= |r| && forall k | 0 <= k < at :: !Less(kv.key, r[k].key)
    ensures to <= |r| && (forall k | 0 <= k < to :: !Less(kv.key, r[k].key)) && (to < |r| ==> Less(kv.key, r[to].key))
    decreases |r| - at
  {
    if at < |r| && !Less(kv.key, r[at].key) {
      to := PlaceFor(r, kv, at + 1);
    } else {
      to := at;
    }
  }

  lemma {:induction false} SortExists(s: seq<KeyValue>) returns (r: seq<KeyValue>)
    ensures SortOf(r, s)
    decreases |s|
  {
    if s == [] {
      r := [];
    } else {
      var n := |s| - 1;
      var front := SortExists(s[..n]);
      var at := PlaceFor(front, s[n], 0);
      InsertKeepsSortOf(front, s[..n], at, s[n]);
      assert s == s[..n] + [s[n]];
      r := front[..at] + [s[n]] + front[at..];
    }
  }

  lemma {:induction false} GroupEnd(s: seq<KeyValue>, i: nat, j: nat) returns (k: nat)
    requires i < j <= |s| && forall m | i <= m < j :: s[m].key == s[i].key
    ensures j <= k <= |s| && (forall m | i <= m < k :: s[m].key == s[i].key) && (k < |s| ==> s[i].key != s[k].key)
    decreases |s| - j
  {
    if j < |s| && s[j].key == s[i].key {
      k := GroupEnd(s, i, j + 1);
    } else {
      k := j;
    }
  }

  lemma {:induction false} GroupsFrom(lines: seq<Line>, s: seq<KeyValue>, i: nat, reducef: Reducer) returns (all: seq<Line>)
    requires Sorted(s) && i <= |s| && Grouped(lines, s, i, reducef)
    ensures Reduction(all, s, reducef)
    decreases |s| - i
  {
    if i == |s| {
      assert s[..i] == s;
      all := lines;
    } else {
      var j := GroupEnd(s, i, i + 1);
      GroupStep(lines, s, i, j, reducef);
      all := GroupsFrom(lines + [Line(s[i].key, reducef(s[i].key, ValuesOf(s[i..j], s[i].key)))], s, j, reducef);
    }
  }

  lemma ReductionExists(s: seq<KeyValue>, reducef: Reducer) returns (lines: seq<Line>)
    requires Sorted(s)
    ensures Reduction(lines, s, reducef)
  {
    assert s[..0] == [] && Keys([]) == {};
    lines := GroupsFrom([], s, 0, reducef);
  }

  lemma {:induction false} NoPartBeyond(s: seq<KeyValue>, p: nat, reducers: nat)
    requires reducers > 0 && p >= reducers
    ensures Part(s, p, reducers) == []
    decreases |s|
  {
    if s != [] {
      NoPartBeyond(s[..|s| - 1], p, reducers);
    }
  }

  lemma ShuffleExists(c: Coord) returns (sorted: seq<KeyValue>, order: seq<nat>)
    requires c.reducers > 0
    ensures IsShuffle(c, sorted, order)
  {
    sorted := SortExists(c.results);
    var parts := set p: nat | p < c.reducers && Part(sorted, p, c.reducers) != [];
    order := ListOf(parts);
    forall p: nat ensures p in order <==> Part(sorted, p, c.reducers) != [] {
      assert p in order <==> p in Elements(order);
      if p >= c.reducers {
        NoPartBeyond(sorted, p, c.reducers);
      }
    }
  }

  /** Steps one after another, none of which skips a task. */

  ghost predicate Leads(job: Job, run: seq<System>, steps: seq<Step>) {
    && |run| == |steps| + 1
    && (forall k | 0 <= k < |steps| :: Enabled(job, run[k], steps[k]) && run[k + 1] == Next(job, run[k], steps[k]))
    && NoSkips(run)
  }

  lemma LeadsOn(job: Job, run: seq<System>, steps: seq<Step>, more: seq<System>, after: seq<Step>)
    requires Leads(job, run, steps) && Leads(job, more, after) && run[|steps|] == more[0]
    ensures Leads(job, run + more[1..], steps + after)
    ensures (run + more[1..])[0] == run[0] && (run + more[1..])[|steps + after|] == more[|after|]
  {
    var all, both := run + more[1..], steps + after;
    assert forall k | |steps| <= k < |both| + 1 :: all[k] == more[k - |steps|];
  }

  lemma OneStep(job: Job, s: System, step: Step) returns (run: seq<System>, steps: seq<Step>)
    requires Enabled(job, s, step) && NoneSkipped(s.coord.tasks) && NoneSkipped(Next(job, s, step).coord.tasks)
    ensures Leads(job, run, steps) && run[0] == s && run[|steps|] == Next(job, s, step)
  {
    run, steps := [s, Next(job, s, step)], [step];
  }

  // The files of the job can be read and have names, and mapf emits keys and values without spaces and newlines.
  ghost predicate Workable(job: Job) {
    CleanJob(job) && forall i | 0 <= i < |job.files| :: Readable(job, i) && job.files[i] != []
  }

  // What every run without skips keeps.
  ghost predicate Sane(job: Job, reducers: nat, s: System) {
    reducers > 0 && Control(job, reducers, s) && Gathered(job, s.coord) && Stored(s) && NoneSkipped(s.coord.tasks)
  }

  lemma StepKeepsSane(job: Job, reducers: nat, s: System, step: Step)
    requires CleanJob(job) && Sane(job, reducers, s) && Enabled(job, s, step) && NoneSkipped(Next(job, s, step).coord.tasks)
    ensures Sane(job, reducers, Next(job, s, step))
  {
    StepKeepsControl(job, reducers, s, step);
    StepGathers(job, reducers, s, step);
    StepStores(job, reducers, s, step);
  }

  ghost predicate OthersSame(s: System, t: System, w: int) {
    t.workers.Keys == s.workers.Keys && forall v | v in s.workers && v != w :: t.workers[v] == s.workers[v]
  }

  // Task i is in progress at worker w, as u, and no other task has changed.
  ghost predicate AtWork(s: System, t: System, w: int, i: nat, u: Task) {
    && i < |s.coord.tasks| && w in t.workers
    && u == s.coord.tasks[i].(status := InProgress, worker := w)
    && t.coord == s.coord.(tasks := s.coord.tasks[i := u])
    && t.shuffled == s.shuffled && OthersSame(s, t, w)
  }

  // Task i is completed, no other has changed, and new tasks are not started.
  ghost predicate Completes(s: System, t: System, w: int, i: nat) {
    && i < |s.coord.tasks| <= |t.coord.tasks|
    && t.coord.tasks[i].status == Completed
    && (forall j | 0 <= j < |s.coord.tasks| && j != i :: t.coord.tasks[j] == s.coord.tasks[j])
    && (forall j | |s.coord.tasks| <= j < |t.coord.tasks| :: t.coord.tasks[j].status == NotStarted)
    && (s.coord.generated ==> t.coord.generated)
    && (t.coord.generated == s.coord.generated ==> |t.coord.tasks| == |s.coord.tasks|)
    && OthersSame(s, t, w) && w in t.workers && t.workers[w] == Idle
  }

  lemma RequestGrants(job: Job, reducers: nat, s: System, w: int, i: nat) returns (t: System)
    requires Workable(job) && Sane(job, reducers, s) && w in s.workers && s.workers[w] == Idle && IsFirstFree(s.coord.tasks, i)
    ensures Enabled(job, s, Request(w, false)) && t == Next(job, s, Request(w, false)) && Sane(job, reducers, t)
    ensures var u := s.coord.tasks[i].(status := InProgress, worker := w);
            AtWork(s, t, w, i, u) && t.workers[w] == Working(u)
  {
    t := Next(job, s, Request(w, false));
    assert TaskOk(job, s.coord.tasks[i], i);
    TaskIsGranted(job, s, w, i);
    StepKeepsSane(job, reducers, s, Request(w, false));
  }

  lemma TaskIsGranted(job: Job, s: System, w: int, i: nat)
    requires Enabled(job, s, Request(w, false)) && IsFirstFree(s.coord.tasks, i)
    requires s.coord.tasks[i].read != Input([]) && NoneSkipped(s.coord.tasks)
    ensures var t, u := Next(job, s, Request(w, false)), s.coord.tasks[i].(status := InProgress, worker := w);
            AtWork(s, t, w, i, u) && t.workers[w] == Working(u) && NoneSkipped(t.coord.tasks)
  {
    GrantMeaning(s.coord, w);
  }

  // What a success does to the coordinator, and to the workers.
  lemma AbsorbedAndGenerated(s: System, a: System, t: System, w: int, i: nat, u: Task, mid: Coord, sorted: seq<KeyValue>, order: seq<nat>)
    requires AtWork(s, a, w, i, u) && NoneSkipped(a.coord.tasks) && a.coord.reducers > 0
    requires mid.tasks == a.coord.tasks[i := a.coord.tasks[i].(status := Completed, write := u.write, retries := u.retries)]
    requires mid.generated == a.coord.generated && mid.reducers == a.coord.reducers
    requires t.coord == Generate(mid, sorted, order) && t.workers == a.workers[w := Idle]
    ensures Completes(s, t, w, i) && NoneSkipped(t.coord.tasks)
  {
    GenerateMeaning(mid, sorted, order);
  }

  // The report of a success completes the task; the last one of the map phase adds the reduce tasks.
  lemma ReportCompletes(job: Job, reducers: nat, s: System, a: System, w: int, i: nat, u: Task, kvs: seq<KeyValue>)
      returns (t: System, step: Step)
    requires Workable(job) && Sane(job, reducers, a) && AtWork(s, a, w, i, u) && a.workers[w] == Reporting(Succeeded(u, kvs))
    ensures Enabled(job, a, step) && t == Next(job, a, step) && Sane(job, reducers, t) && Completes(s, t, w, i)
  {
    var mid := SuccessIsAbsorbed(job, reducers, a, w, i, u, kvs);
    var sorted, order := ShuffleExists(mid);
    step := Deliver(w, sorted, order);
    t := Next(job, a, step);
    AbsorbedAndGenerated(s, a, t, w, i, u, mid, sorted, order);
    StepKeepsSane(job, reducers, a, step);
  }

  lemma SuccessIsAbsorbed(job: Job, reducers: nat, a: System, w: int, i: nat, u: Task, kvs: seq<KeyValue>) returns (mid: Coord)
    requires Sane(job, reducers, a) && i < |a.coord.tasks| && a.coord.tasks[i] == u && u.worker == w
    requires w in a.workers && a.workers[w] == Reporting(Succeeded(u, kvs))
    ensures mid == Absorb(a.coord, Succeeded(u, kvs)) && mid.reducers == a.coord.reducers && mid.generated == a.coord.generated
    ensures mid.tasks == a.coord.tasks[i := a.coord.tasks[i].(status := Completed, write := u.write, retries := u.retries)]
    ensures mid.reducers > 0
  {
    assert Link(job, a.coord.tasks, w, a.workers[w]);
    ReportMeaning(a.coord, u, i, kvs);
    mid := Absorb(a.coord, Succeeded(u, kvs));
  }

  lemma MapTaskIsMapped(job: Job, reducers: nat, s: System, a: System, w: int, i: nat, u: Task) returns (b: System, kvs: seq<KeyValue>)
    requires Workable(job) && Sane(job, reducers, a) && AtWork(s, a, w, i, u) && a.workers[w] == Working(u) && u.id.MapTask?
    ensures Enabled(job, a, Map(w)) && b == Next(job, a, Map(w)) && Sane(job, reducers, b)
    ensures AtWork(s, b, w, i, u) && b.workers[w] == Reporting(Succeeded(u, kvs))
  {
    assert TaskOk(job, a.coord.tasks[i], i);
    assert Readable(job, i);
    b := Next(job, a, Map(w));
    StepKeepsSane(job, reducers, a, Map(w));
    kvs := job.mapf(u.read.name, job.contents[u.read.name]);
  }

  lemma MapTaskCanFinish(job: Job, reducers: nat, s: System, a: System, w: int, i: nat, u: Task)
      returns (run: seq<System>, steps: seq<Step>)
    requires Workable(job) && Sane(job, reducers, a) && AtWork(s, a, w, i, u) && a.workers[w] == Working(u) && u.id.MapTask?
    ensures Leads(job, run, steps) && run[0] == a && Sane(job, reducers, run[|steps|]) && Completes(s, run[|steps|], w, i)
  {
    var b, kvs := MapTaskIsMapped(job, reducers, s, a, w, i, u);
    var one, first := OneStep(job, a, Map(w));
    var t, step := ReportCompletes(job, reducers, s, b, w, i, u, kvs);
    var two, second := OneStep(job, b, step);
    LeadsOn(job, one, first, two, second);
    run, steps := one + two[1..], first + second;
  }

  // A worker with an output file open writes what is left, and closes it.
  lemma {:induction false} FileCanBeFilled(job: Job, reducers: nat, s: System, a: System, w: int, i: nat, u: Task, lines: seq<Line>, pos: nat)
      returns (run: seq<System>, steps: seq<Step>)
    requires Workable(job) && Sane(job, reducers, a) && AtWork(s, a, w, i, u)
    requires pos <= |lines| && a.workers[w] == Writing(u, lines, pos)
    ensures Leads(job, run, steps) && run[0] == a && Sane(job, reducers, run[|steps|])
    ensures AtWork(s, run[|steps|], w, i, u) && run[|steps|].workers[w] == Reporting(Succeeded(u, []))
    decreases |lines| - pos
  {
    if pos == |lines| {
      StepKeepsSane(job, reducers, a, Close(w));
      run, steps := OneStep(job, a, Close(w));
    } else {
      var b := Next(job, a, Write(w));
      StepKeepsSane(job, reducers, a, Write(w));
      var one, first := OneStep(job, a, Write(w));
      var more, after := FileCanBeFilled(job, reducers, s, b, w, i, u, lines, pos + 1);
      LeadsOn(job, one, first, more, after);
      run, steps := one + more[1..], first + after;
    }
  }

  // The partition file of a reduce task can be read and reduced.
  lemma OutputExists(job: Job, reducers: nat, s: System, i: nat) returns (lines: seq<Line>)
    requires Sane(job, reducers, s) && i < |s.coord.tasks| && s.coord.tasks[i].id.ReduceTask?
    ensures var p := s.coord.tasks[i].id.p;
            p in s.coord.files && IsReduceOutput(lines, s.coord.files[p], job.reducef)
  {
    var p := s.coord.tasks[i].id.p;
    assert TaskOk(job, s.coord.tasks[i], i);
    assert HasReduceTask(s.coord.tasks, p) && FileOk(s, p);
    var part := Part(s.shuffled, p, reducers);
    PartIsClean(s.shuffled, p, reducers);
    RoundTrip(part);
    var sorted := SortExists(part);
    lines := ReductionExists(sorted, job.reducef);
  }

  lemma ReduceTaskCanFinish(job: Job, reducers: nat, s: System, a: System, w: int, i: nat, u: Task)
      returns (run: seq<System>, steps: seq<Step>)
    requires Workable(job) && Sane(job, reducers, a) && AtWork(s, a, w, i, u) && a.workers[w] == Working(u) && u.id.ReduceTask?
    ensures Leads(job, run, steps) && run[0] == a && Sane(job, reducers, run[|steps|]) && Completes(s, run[|steps|], w, i)
  {
    var lines := OutputExists(job, reducers, a, i);
    assert TaskOk(job, a.coord.tasks[i], i);
    var b := Next(job, a, Open(w, lines));
    StepKeepsSane(job, reducers, a, Open(w, lines));
    var open, first := OneStep(job, a, Open(w, lines));
    var fill, rest := FileCanBeFilled(job, reducers, s, b, w, i, u, lines, 0);
    LeadsOn(job, open, first, fill, rest);
    var head, before := open + fill[1..], first + rest;
    var t, step := ReportCompletes(job, reducers, s, fill[|rest|], w, i, u, []);
    var tail, last := OneStep(job, fill[|rest|], step);
    LeadsOn(job, head, before, tail, last);
    run, steps := head + tail[1..], before + last;
  }

  // An idle worker completes the first task that is free.
  lemma FreeTaskCanFinish(job: Job, reducers: nat, s: System, w: int, i: nat) returns (run: seq<System>, steps: seq<Step>)
    requires Workable(job) && Sane(job, reducers, s) && w in s.workers && s.workers[w] == Idle && IsFirstFree(s.coord.tasks, i)
    ensures Leads(job, run, steps) && run[0] == s && Sane(job, reducers, run[|steps|]) && Completes(s, run[|steps|], w, i)
  {
    var a := RequestGrants(job, reducers, s, w, i);
    var one, first := OneStep(job, s, Request(w, false));
    var u := s.coord.tasks[i].(status := InProgress, worker := w);
    var more, after;
    if u.id.MapTask? {
      more, after := MapTaskCanFinish(job, reducers, s, a, w, i, u);
    } else {
      more, after := ReduceTaskCanFinish(job, reducers, s, a, w, i, u);
    }
    LeadsOn(job, one, first, more, after);
    run, steps := one + more[1..], first + after;
  }

  /** What is left to do. */

  function Weight(t: Task): nat {
    if t.status == Completed then 0 else if t.status == NotStarted then 1 else 2
  }

  function Undone(tasks: seq<Task>): nat {
    if tasks == [] then 0 else Undone(tasks[..|tasks| - 1]) + Weight(tasks[|tasks| - 1])
  }

  lemma {:induction false} UndoneChanges(tasks: seq<Task>, i: nat, t: Task)
    requires i < |tasks|
    ensures Undone(tasks[i := t]) + Weight(tasks[i]) == Undone(tasks) + Weight(t)
    decreases |tasks|
  {
    var n := |tasks| - 1;
    if i == n {
      assert tasks[i := t][..n] == tasks[..n];
    } else {
      UndoneChanges(tasks[..n], i, t);
      assert tasks[i := t][..n] == tasks[..n][i := t];
    }
  }

  lemma CompletesLessens(s: System, t: System, w: int, i: nat)
    requires Completes(s, t, w, i) && t.coord.generated == s.coord.generated && s.coord.tasks[i].status != Completed
    ensures Undone(t.coord.tasks) < Undone(s.coord.tasks)
  {
    UndoneChanges(s.coord.tasks, i, t.coord.tasks[i]);
    assert t.coord.tasks == s.coord.tasks[i := t.coord.tasks[i]];
  }

  // A task in progress can still be handed out again: the next call of Done would not skip it.
  ghost predicate Patient(tasks: seq<Task>) {
    forall i | 0 <= i < |tasks| && tasks[i].status == InProgress :: tasks[i].retries <= 10
  }

  ghost predicate AllCompletedIn(tasks: seq<Task>) {
    forall i | 0 <= i < |tasks| :: tasks[i].status == Completed
  }

  lemma {:induction false} FirstFree(tasks: seq<Task>, k: nat) returns (i: nat)
    requires k <= |tasks| && (forall j | 0 <= j < k :: !(tasks[j].status == NotStarted && tasks[j].worker == -1))
    requires exists j :: 0 <= j < |tasks| && tasks[j].status == NotStarted && tasks[j].worker == -1
    ensures IsFirstFree(tasks, i)
    decreases |tasks| - k
  {
    if k < |tasks| && !(tasks[k].status == NotStarted && tasks[k].worker == -1) {
      i := FirstFree(tasks, k + 1);
    } else {
      i := k;
    }
  }

  lemma {:induction false} FirstUndone(tasks: seq<Task>, k: nat) returns (i: nat)
    requires k <= |tasks| && (forall j | 0 <= j < k :: tasks[j].status == Completed) && !AllCompletedIn(tasks)
    ensures i < |tasks| && tasks[i].status != Completed && forall j | 0 <= j < i :: tasks[j].status == Completed
    decreases |tasks| - k
  {
    if k < |tasks| && tasks[k].status == Completed {
      i := FirstUndone(tasks, k + 1);
    } else {
      i := k;
    }
  }

  // A call of Done after the timeout hands out again the first task that is in progress.
  lemma TaskIsGivenUp(job: Job, reducers: nat, s: System) returns (t: System, step: Step)
    requires Workable(job) && Sane(job, reducers, s) && Patient(s.coord.tasks) && !AllCompletedIn(s.coord.tasks)
    requires forall i | 0 <= i < |s.coord.tasks| :: s.coord.tasks[i].status != NotStarted
    ensures step.Check? && Enabled(job, s, step) && t == Next(job, s, step) && Sane(job, reducers, t) && Patient(t.coord.tasks)
    ensures Undone(t.coord.tasks) < Undone(s.coord.tasks) && t.coord.generated == s.coord.generated && t.workers == s.workers
  {
    var n := GivenUp(s.coord.tasks);
    step := Check({n});
    t := Next(job, s, step);
    StepKeepsSane(job, reducers, s, step);
  }

  lemma GivenUp(tasks: seq<Task>) returns (n: nat)
    requires NoneSkipped(tasks) && Patient(tasks) && !AllCompletedIn(tasks)
    requires forall i | 0 <= i < |tasks| :: tasks[i].status != NotStarted
    ensures var next := Sweep(tasks, {n}, 0).0;
            NoneSkipped(next) && Patient(next) && Undone(next) < Undone(tasks)
  {
    n := FirstUndone(tasks, 0);
    var u := Swept(tasks[n], true);
    SweepMeaning(tasks, {n}, 0, n);
    assert Sweep(tasks, {n}, 0).0 == tasks[n := u];
    UndoneChanges(tasks, n, u);
  }

  // The worker stays idle and the others as they are, and less is left to do.
  ghost predicate Advances(job: Job, reducers: nat, s: System, t: System, w: int) {
    && Sane(job, reducers, t) && Patient(t.coord.tasks) && w in t.workers && t.workers[w] == Idle && OthersSame(s, t, w)
    && (s.coord.generated ==> t.coord.generated)
    && (t.coord.generated == s.coord.generated ==> Undone(t.coord.tasks) < Undone(s.coord.tasks))
  }

  lemma CompletesAdvances(job: Job, reducers: nat, s: System, t: System, w: int, i: nat)
    requires Sane(job, reducers, t) && Patient(s.coord.tasks) && Completes(s, t, w, i) && s.coord.tasks[i].status == NotStarted
    ensures Advances(job, reducers, s, t, w)
  {
    if t.coord.generated == s.coord.generated {
      CompletesLessens(s, t, w, i);
    }
    forall j | 0 <= j < |t.coord.tasks| && t.coord.tasks[j].status == InProgress ensures t.coord.tasks[j].retries <= 10 {
      assert j < |s.coord.tasks| && j != i && t.coord.tasks[j] == s.coord.tasks[j];
    }
  }

  // One more task completed, or handed out again.
  lemma OneRound(job: Job, reducers: nat, s: System, w: int) returns (run: seq<System>, steps: seq<Step>)
    requires Workable(job) && Sane(job, reducers, s) && Patient(s.coord.tasks) && !AllCompletedIn(s.coord.tasks)
    requires w in s.workers && s.workers[w] == Idle
    ensures Leads(job, run, steps) && run[0] == s && Advances(job, reducers, s, run[|steps|], w)
  {
    if j :| 0 <= j < |s.coord.tasks| && s.coord.tasks[j].status == NotStarted {
      assert MarkOk(s.coord.tasks[j]);
      var i := FirstFree(s.coord.tasks, 0);
      run, steps := FreeTaskCanFinish(job, reducers, s, w, i);
      CompletesAdvances(job, reducers, s, run[|steps|], w, i);
    } else {
      var t, step := TaskIsGivenUp(job, reducers, s);
      run, steps := OneStep(job, s, step);
    }
  }

  lemma {:induction false} RestCanFinish(job: Job, reducers: nat, s: System, w: int) returns (run: seq<System>, steps: seq<Step>)
    requires Workable(job) && Sane(job, reducers, s) && Patient(s.coord.tasks)
    requires w in s.workers && s.workers[w] == Idle
    ensures Leads(job, run, steps) && run[0] == s && AllCompletedIn(run[|steps|].coord.tasks)
    ensures w in run[|steps|].workers && run[|steps|].workers[w] == Idle && OthersSame(s, run[|steps|], w)
    decreases if s.coord.generated then 0 else 1, Undone(s.coord.tasks)
  {
    if AllCompletedIn(s.coord.tasks) {
      run, steps := [s], [];
    } else {
      run, steps := OneRound(job, reducers, s, w);
      var more, after := RestCanFinish(job, reducers, run[|steps|], w);
      LeadsOn(job, run, steps, more, after);
      run, steps := run + more[1..], steps + after;
    }
  }

  lemma CompletedIsDone(s: System)
    requires AllCompletedIn(s.coord.tasks)
    ensures IsDone(s, {})
  {
    SweepMeaning(s.coord.tasks, {}, 0, |s.coord.tasks|);
  }

  lemma {:induction false} NewWorker(keys: set<int>) returns (w: int)
    ensures w >= 0 && forall v | v in keys :: v < w
    decreases keys
  {
    w := 0;
    if keys != {} {
      var v := Pick(keys);
      w := NewWorker(keys - {v});
      assert forall x | x in keys :: x == v || x in keys - {v};
      w := if v < w then w else v + 1;
    }
  }

  lemma {:induction false} RunIsSane(job: Job, reducers: nat, run: seq<System>, steps: seq<Step>)
    requires reducers > 0 && CleanJob(job) && IsRun(job, reducers, run, steps) && NoSkips(run)
    ensures Sane(job, reducers, run[|steps|])
    decreases |steps|
  {
    RunKeepsControl(job, reducers, run, steps);
    if steps != [] {
      var n := |steps| - 1;
      RunIsSane(job, reducers, run[..|steps|], steps[..n]);
      StepKeepsSane(job, reducers, run[n], steps[n]);
    }
  }

  lemma RunGoesOn(job: Job, reducers: nat, run: seq<System>, steps: seq<Step>, more: seq<System>, after: seq<Step>)
    requires IsRun(job, reducers, run, steps) && NoSkips(run) && Leads(job, more, after) && run[|steps|] == more[0]
    ensures IsRun(job, reducers, run + more[1..], steps + after) && NoSkips(run + more[1..])
    ensures (run + more[1..])[|steps + after|] == more[|after|]
  {
    LeadsOn(job, run, steps, more, after);
  }

  /** Whatever has happened in a run without skips, to messages, tasks, workers and files, the job can be finished: as
      long as no task in progress has used up its retries, a new worker can join and bring the run to an end at which
      Done returns true and nothing has been skipped, while all others stand still. */
  lemma JobCanFinish(job: Job, reducers: nat, run: seq<System>, steps: seq<Step>) returns (more: seq<System>, after: seq<Step>)
    requires reducers > 0 && Workable(job) && IsRun(job, reducers, run, steps) && NoSkips(run)
    requires Patient(run[|steps|].coord.tasks)
    ensures Leads(job, more, after) && more[0] == run[|steps|]
    ensures IsRun(job, reducers, run + more[1..], steps + after) && NoSkips(run + more[1..])
    ensures (run + more[1..])[|steps + after|] == more[|after|] && IsDone(more[|after|], {})
    ensures NobodyWrites(run[|steps|]) ==> NobodyWrites(more[|after|])
  {
    var s := run[|steps|];
    RunIsSane(job, reducers, run, steps);
    var w := NewWorker(s.workers.Keys);
    var t := Next(job, s, Join(w));
    StepKeepsSane(job, reducers, s, Join(w));
    var one, first := OneStep(job, s, Join(w));
    var rest, finish := RestCanFinish(job, reducers, t, w);
    LeadsOn(job, one, first, rest, finish);
    more, after := one + rest[1..], first + finish;
    RunGoesOn(job, reducers, run, steps, more, after);
    CompletedIsDone(more[|after|]);
  }

  /** A single worker completes every job whose files can be read, and prints what the sequential program prints. */
  lemma OneWorkerFinishes(job: Job, reducers: nat, lines: seq<Line>) returns (run: seq<System>, steps: seq<Step>)
    requires reducers > 0 && Workable(job) && OrderInsensitive(job.reducef) && IsSequentialOutput(job, lines)
    ensures IsRun(job, reducers, run, steps) && NoSkips(run) && IsDone(run[|steps|], {})
    ensures AllLines(run[|steps|].outputs, reducers) == multiset(Slots(lines))
  {
    var start := System(Coord(MapTasks(job.files), [], reducers, false, map[]), map[], map[], map[], []);
    var more, after := JobCanFinish(job, reducers, [start], []);
    assert [start] + more[1..] == more && [] + after == after;
    run, steps := more, after;
    QuietRunIsSequential(job, reducers, run, steps, {}, lines);
  }
}
