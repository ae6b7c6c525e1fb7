/** Whole runs: each pair counts once, a completed task stays as it is, and how often a task is granted. */
module MapReduceRuns {
  import opened Coordinator
  import opened MapReduce
  import opened MapReduceData
  import opened MapReduceInv
  import opened MrSequential
  import opened Options

  lemma {:induction false} RunKeepsControl(job: Job, reducers: nat, run: seq<System>, steps: seq<Step>)
    requires IsRun(job, reducers, run, steps)
    ensures Control(job, reducers, run[|steps|]) && Gathered(job, run[|steps|].coord)
    decreases |steps|
  {
    if steps == [] {
      CompletedNone(job, MapTasks(job.files), |job.files|);
    } else {
      var n := |steps| - 1;
      RunKeepsControl(job, reducers, run[..|steps|], steps[..n]);
      StepKeepsControl(job, reducers, run[n], steps[n]);
      StepGathers(job, reducers, run[n], steps[n]);
    }
  }

  lemma {:induction false} CompletedNone(job: Job, tasks: seq<Task>, n: nat)
    requires n <= |tasks| && forall i | 0 <= i < n :: tasks[i].status != Completed
    ensures CompletedPairs(job, tasks, n) == multiset{}
    decreases n
  {
    if n > 0 {
      CompletedNone(job, tasks, n - 1);
    }
  }

  /** In every reachable state a task has worker -1 exactly when it is not started or skipped. */
  lemma UnassignedTasks(job: Job, reducers: nat, run: seq<System>, steps: seq<Step>, i: nat)
    requires IsRun(job, reducers, run, steps) && i < |run[|steps|].coord.tasks|
    ensures var t := run[|steps|].coord.tasks[i];
            t.worker == -1 <==> t.status == NotStarted || t.status == Skipped
  {
    RunKeepsControl(job, reducers, run, steps);
    assert MarkOk(run[|steps|].coord.tasks[i]);
  }

  /** Exactly once: until the reduce tasks exist the results are mapf's output on exactly the completed map
      tasks, whatever was lost, late or repeated; and a report for a task that is completed, or is assigned
      to another worker, adds none. */
  lemma ExactlyOnce(job: Job, reducers: nat, run: seq<System>, steps: seq<Step>)
    requires IsRun(job, reducers, run, steps)
    ensures var c := run[|steps|].coord;
            && |job.files| <= |c.tasks| && (forall i: nat | i < |job.files| :: c.tasks[i].id == MapTask(i))
            && (!c.generated ==> multiset(c.results) == CompletedPairs(job, c.tasks, |job.files|))
    ensures forall w, i: nat | w in run[|steps|].workers && run[|steps|].workers[w].Reporting? && i < |run[|steps|].coord.tasks| &&
              run[|steps|].coord.tasks[i].id == run[|steps|].workers[w].report.id &&
              (run[|steps|].coord.tasks[i].status == Completed || run[|steps|].coord.tasks[i].worker != w) ::
              Absorb(run[|steps|].coord, run[|steps|].workers[w].report).results == run[|steps|].coord.results
  {
    RunKeepsControl(job, reducers, run, steps);
    var s := run[|steps|];
    forall i: nat | i < |job.files| ensures s.coord.tasks[i].id == MapTask(i) {
      assert TaskOk(job, s.coord.tasks[i], i);
    }
    forall w, i: nat | w in s.workers && s.workers[w].Reporting? && i < |s.coord.tasks| &&
              s.coord.tasks[i].id == s.workers[w].report.id &&
              (s.coord.tasks[i].status == Completed || s.coord.tasks[i].worker != w)
      ensures Absorb(s.coord, s.workers[w].report).results == s.coord.results
    {
      LateReportAddsNothing(job, reducers, s, w, i);
    }
  }

  /** A completed task stays completed, untouched, to the end of the run. */
  lemma {:induction false} CompletedForever(job: Job, reducers: nat, run: seq<System>, steps: seq<Step>, k: nat, i: nat)
    requires IsRun(job, reducers, run, steps) && k <= |steps|
    requires i < |run[k].coord.tasks| && run[k].coord.tasks[i].status == Completed
    ensures i < |run[|steps|].coord.tasks| && run[|steps|].coord.tasks[i] == run[k].coord.tasks[i]
    decreases |steps|
  {
    if k < |steps| {
      var n := |steps| - 1;
      CompletedForever(job, reducers, run[..|steps|], steps[..n], k, i);
      RunKeepsControl(job, reducers, run[..|steps|], steps[..n]);
      CompletedTaskStays(job, reducers, run[n], steps[n], i);
    }
  }

  /** How often tasks are granted. */

  function Granted(s: System, step: Step): Option<nat> {
    if step.Request? then FirstGrantable(s.coord.tasks, 0) else None
  }

  // The grants of task i in the run.
  function Grants(run: seq<System>, steps: seq<Step>, i: nat): nat
    requires |run| > |steps|
  {
    if steps == [] then 0
    else
      var n := |steps| - 1;
      Grants(run[..|steps|], steps[..n], i) + if Granted(run[n], steps[n]) == Some(i) then 1 else 0
  }

  function AllGrants(run: seq<System>, steps: seq<Step>): nat
    requires |run| > |steps|
  {
    if steps == [] then 0
    else
      var n := |steps| - 1;
      AllGrants(run[..|steps|], steps[..n]) + if Granted(run[n], steps[n]).Some? then 1 else 0
  }

  // The grants a task accounts for: each timeout stands for one, and so does being beyond not started.
  function Account(t: Task): int {
    t.retries + if t.status == NotStarted then 0 else 1
  }

  predicate Honest(s: System) {
    && (forall w | w in s.workers && s.workers[w].Reporting? :: s.workers[w].report.worker != -1)
    && (forall i | 0 <= i < |s.coord.tasks| :: 0 <= s.coord.tasks[i].retries <= 11)
  }

  ghost predicate Accounted(s: System, step: Step, t: System, i: nat)
    requires i < |t.coord.tasks|
  {
    && 0 <= t.coord.tasks[i].retries <= 11
    && Account(t.coord.tasks[i]) == (if i < |s.coord.tasks| then Account(s.coord.tasks[i]) else 0) +
                                    (if Granted(s, step) == Some(i) then 1 else 0)
  }

  lemma CheckAccounts(job: Job, s: System, late: set<nat>, i: nat)
    requires Honest(s) && i < |s.coord.tasks|
    ensures |Next(job, s, Check(late)).coord.tasks| == |s.coord.tasks| && Accounted(s, Check(late), Next(job, s, Check(late)), i)
  {
    SweepAt(s.coord.tasks, late, 0);
  }

  lemma AbsorbAccounts(job: Job, reducers: nat, s: System, w: int, i: nat)
    requires Control(job, reducers, s) && Honest(s) && w in s.workers && s.workers[w].Reporting? && i < |s.coord.tasks|
    ensures var c := Absorb(s.coord, s.workers[w].report);
            |c.tasks| == |s.coord.tasks| && Account(c.tasks[i]) == Account(s.coord.tasks[i]) && 0 <= c.tasks[i].retries <= 11
  {
    assert Link(job, s.coord.tasks, w, s.workers[w]);
    if FirstMatch(s.coord.tasks, s.workers[w].report, 0) == Some(i) {
      MatchedTask(job, reducers, s, w, i);
    }
  }

  lemma StepAccounts(job: Job, reducers: nat, s: System, step: Step, i: nat)
    requires Control(job, reducers, s) && Enabled(job, s, step) && !step.Fail? && Honest(s)
    requires i < |Next(job, s, step).coord.tasks|
    ensures Accounted(s, step, Next(job, s, step), i)
  {
    match step {
      case Check(late) => CheckAccounts(job, s, late, i);
      case Deliver(w, sorted, order) =>
        if i < |s.coord.tasks| {
          AbsorbAccounts(job, reducers, s, w, i);
        }
      case _ =>
    }
  }

  lemma StepIsHonest(job: Job, reducers: nat, s: System, step: Step)
    requires Control(job, reducers, s) && Enabled(job, s, step) && !step.Fail? && Honest(s)
    ensures Honest(Next(job, s, step))
  {
    var t := Next(job, s, step);
    forall i: nat | i < |t.coord.tasks| ensures 0 <= t.coord.tasks[i].retries <= 11 {
      StepAccounts(job, reducers, s, step, i);
    }
    forall w | w in t.workers && t.workers[w].Reporting? ensures t.workers[w].report.worker != -1 {
      if step.Map? || step.Close? {
        assert Link(job, s.coord.tasks, step.w, s.workers[step.w]);
      }
    }
  }

  predicate NoneSkipped(tasks: seq<Task>) {
    forall i | 0 <= i < |tasks| :: tasks[i].status != Skipped
  }

  ghost predicate NoSkips(run: seq<System>) {
    forall k | 0 <= k < |run| :: NoneSkipped(run[k].coord.tasks)
  }

  ghost predicate NoErrors(steps: seq<Step>) {
    forall k | 0 <= k < |steps| :: !steps[k].Fail?
  }

  lemma {:induction false} GrantsAccounted(job: Job, reducers: nat, run: seq<System>, steps: seq<Step>)
    requires IsRun(job, reducers, run, steps) && NoErrors(steps)
    ensures Honest(run[|steps|])
    ensures forall i: nat :: Grants(run, steps, i) ==
              if i < |run[|steps|].coord.tasks| then Account(run[|steps|].coord.tasks[i]) else 0
    decreases |steps|
  {
    if steps != [] {
      var n := |steps| - 1;
      GrantsAccounted(job, reducers, run[..|steps|], steps[..n]);
      RunKeepsControl(job, reducers, run[..|steps|], steps[..n]);
      StepIsHonest(job, reducers, run[n], steps[n]);
      forall i: nat ensures Grants(run, steps, i) ==
          if i < |run[|steps|].coord.tasks| then Account(run[|steps|].coord.tasks[i]) else 0
      {
        if i < |run[|steps|].coord.tasks| {
          StepAccounts(job, reducers, run[n], steps[n], i);
        } else {
          TasksOnlyGrow(job, run[n], steps[n]);
        }
      }
    }
  }

  lemma TasksOnlyGrow(job: Job, s: System, step: Step)
    requires Enabled(job, s, step)
    ensures |s.coord.tasks| <= |Next(job, s, step).coord.tasks|
  {
  }

  function GrantsBelow(run: seq<System>, steps: seq<Step>, n: nat): nat
    requires |run| > |steps|
  {
    if n == 0 then 0 else GrantsBelow(run, steps, n - 1) + Grants(run, steps, n - 1)
  }

  lemma {:induction false} OneMoreGrant(run: seq<System>, steps: seq<Step>, n: nat)
    requires |run| > |steps| > 0
    ensures var k := |steps| - 1;
            GrantsBelow(run, steps, n) == GrantsBelow(run[..|steps|], steps[..k], n) +
              if Granted(run[k], steps[k]).Some? && Granted(run[k], steps[k]).value < n then 1 else 0
    decreases n
  {
    if n > 0 {
      OneMoreGrant(run, steps, n - 1);
    }
  }

  lemma {:induction false} GrantsAddUp(job: Job, reducers: nat, run: seq<System>, steps: seq<Step>, n: nat)
    requires IsRun(job, reducers, run, steps) && n >= |run[|steps|].coord.tasks|
    ensures AllGrants(run, steps) == GrantsBelow(run, steps, n)
    decreases |steps|
  {
    if steps == [] {
      NoGrants(run, n);
    } else {
      var k := |steps| - 1;
      TasksOnlyGrow(job, run[k], steps[k]);
      GrantsAddUp(job, reducers, run[..|steps|], steps[..k], n);
      OneMoreGrant(run, steps, n);
    }
  }

  lemma {:induction false} NoGrants(run: seq<System>, n: nat)
    requires |run| > 0
    ensures GrantsBelow(run, [], n) == 0
    decreases n
  {
    if n > 0 {
      NoGrants(run, n - 1);
    }
  }

  lemma {:induction false} BoundedBelow(run: seq<System>, steps: seq<Step>, bound: nat, n: nat)
    requires |run| > |steps| && forall i: nat :: Grants(run, steps, i) <= bound
    ensures GrantsBelow(run, steps, n) <= bound * n
    decreases n
  {
    if n > 0 {
      BoundedBelow(run, steps, bound, n - 1);
      assert bound * n == bound * (n - 1) + bound;
    }
  }

  /** In a run without error reports each task is granted at most twelve times. */
  lemma {:induction false} AtMostTwelveGrants(job: Job, reducers: nat, run: seq<System>, steps: seq<Step>)
    requires IsRun(job, reducers, run, steps) && NoErrors(steps)
    ensures forall i: nat :: Grants(run, steps, i) <= 12
    ensures AllGrants(run, steps) <= 12 * |run[|steps|].coord.tasks|
  {
    GrantsAccounted(job, reducers, run, steps);
    assert forall i: nat :: Grants(run, steps, i) <= 12;
    BoundedBelow(run, steps, 12, |run[|steps|].coord.tasks|);
    GrantsAddUp(job, reducers, run, steps, |run[|steps|].coord.tasks|);
  }
}
