/** A finished run without skipped tasks prints what the sequential program prints, unless a worker has created
    an output file again under another. */
module MapReduceEquivalence {
  import opened Coordinator
  import opened KeyValues
  import opened MapReduce
  import opened MapReduceData
  import opened MapReduceFiles
  import opened MapReduceInv
  import opened MapReduceRuns
  import opened MrSequential
  import opened Options
  import opened OutputFile
  import opened Shuffle

  // Before the shuffle there is work to do; after it everything that mapf gives is in the shuffled list.
  ghost predicate Whole(job: Job, s: System) {
    && |job.files| <= |s.coord.tasks|
    && if s.coord.generated then
         (forall i | 0 <= i < |job.files| :: s.coord.tasks[i].status == Completed) &&
         multiset(s.shuffled) == multiset(AllPairs(job, |job.files|))
       else s.shuffled == [] && (|job.files| == 0 || !MapsDone(s.coord))
  }

  lemma {:induction false} AllCompleted(job: Job, tasks: seq<Task>, n: nat)
    requires n <= |tasks| && forall i | 0 <= i < n :: tasks[i].status == Completed
    ensures CompletedPairs(job, tasks, n) == multiset(AllPairs(job, n))
    decreases n
  {
    if n > 0 {
      AllCompleted(job, tasks, n - 1);
    }
  }

  lemma DeliverIsWhole(job: Job, reducers: nat, s: System, w: int, sorted: seq<KeyValue>, order: seq<nat>)
    requires Control(job, reducers, s) && Gathered(job, s.coord) && Whole(job, s)
    requires Enabled(job, s, Deliver(w, sorted, order)) && reducers > 0
    requires NoneSkipped(Next(job, s, Deliver(w, sorted, order)).coord.tasks)
    ensures Whole(job, Next(job, s, Deliver(w, sorted, order)))
  {
    if s.coord.generated {
      forall i: nat | i < |job.files| ensures Next(job, s, Deliver(w, sorted, order)).coord.tasks[i].status == Completed {
        CompletedTaskStays(job, reducers, s, Deliver(w, sorted, order), i);
      }
    } else {
      LastReportIsWhole(job, reducers, s, w, sorted, order);
    }
  }

  // The report that ends the map phase finds every pair gathered.
  lemma LastReportIsWhole(job: Job, reducers: nat, s: System, w: int, sorted: seq<KeyValue>, order: seq<nat>)
    requires Control(job, reducers, s) && Gathered(job, s.coord) && Whole(job, s) && !s.coord.generated
    requires Enabled(job, s, Deliver(w, sorted, order)) && reducers > 0
    requires NoneSkipped(Next(job, s, Deliver(w, sorted, order)).coord.tasks)
    ensures Whole(job, Next(job, s, Deliver(w, sorted, order)))
  {
    AbsorbGathers(job, reducers, s, w);
    AbsorbMoves(job, reducers, s, w);
    GeneratedIsWhole(job, reducers, Absorb(s.coord, s.workers[w].report), Next(job, s, Deliver(w, sorted, order)), sorted, order);
  }

  lemma GeneratedIsWhole(job: Job, reducers: nat, c: Coord, t: System, sorted: seq<KeyValue>, order: seq<nat>)
    requires Shape(job, reducers, c) && Gathered(job, c) && !c.generated && reducers > 0
    requires t.coord == Generate(c, sorted, order) && NoneSkipped(t.coord.tasks)
    requires if MapsDone(c) then IsShuffle(c, sorted, order) && t.shuffled == sorted else t.shuffled == []
    ensures Whole(job, t)
  {
    if MapsDone(c) {
      AllIsShuffled(job, reducers, c, sorted, order);
    }
  }

  lemma AllIsShuffled(job: Job, reducers: nat, c: Coord, sorted: seq<KeyValue>, order: seq<nat>)
    requires Shape(job, reducers, c) && Gathered(job, c) && !c.generated && MapsDone(c) && IsShuffle(c, sorted, order)
    requires NoneSkipped(Generate(c, sorted, order).tasks)
    ensures forall i | 0 <= i < |job.files| :: Generate(c, sorted, order).tasks[i].status == Completed
    ensures multiset(sorted) == multiset(AllPairs(job, |job.files|))
  {
    forall i: nat | i < |job.files| ensures c.tasks[i].status == Completed {
      assert TaskOk(job, c.tasks[i], i);
      assert Generate(c, sorted, order).tasks[i] == c.tasks[i];
    }
    AllCompleted(job, c.tasks, |job.files|);
  }

  // A step that completes no task does not end the map phase.
  lemma WholeStays(job: Job, s: System, t: System)
    requires Whole(job, s) && t.shuffled == s.shuffled && t.coord == s.coord.(tasks := t.coord.tasks)
    requires |t.coord.tasks| == |s.coord.tasks| && NoneSkipped(t.coord.tasks)
    requires forall i | 0 <= i < |s.coord.tasks| ::
               t.coord.tasks[i].id == s.coord.tasks[i].id &&
               (t.coord.tasks[i].status == Completed <==> s.coord.tasks[i].status == Completed)
    ensures Whole(job, t)
  {
    if MapsDone(t.coord) {
      forall i | 0 <= i < |s.coord.tasks| && s.coord.tasks[i].id.MapTask? ensures Finished(s.coord.tasks[i]) {
        assert Finished(t.coord.tasks[i]);
      }
    }
  }

  lemma RequestIsWhole(job: Job, s: System, w: int, lost: bool)
    requires Whole(job, s) && Enabled(job, s, Request(w, lost))
    requires NoneSkipped(Next(job, s, Request(w, lost)).coord.tasks)
    ensures Whole(job, Next(job, s, Request(w, lost)))
  {
    WholeStays(job, s, Next(job, s, Request(w, lost)));
  }

  lemma CheckIsWhole(job: Job, s: System, late: set<nat>)
    requires Whole(job, s) && NoneSkipped(Sweep(s.coord.tasks, late, 0).0)
    ensures Whole(job, Next(job, s, Check(late)))
  {
    SweepAt(s.coord.tasks, late, 0);
    WholeStays(job, s, Next(job, s, Check(late)));
  }

  lemma StepIsWhole(job: Job, reducers: nat, s: System, step: Step)
    requires Control(job, reducers, s) && Gathered(job, s.coord) && Whole(job, s) && reducers > 0
    requires Enabled(job, s, step) && NoneSkipped(Next(job, s, step).coord.tasks)
    ensures Whole(job, Next(job, s, step))
  {
    match step {
      case Deliver(w, sorted, order) => DeliverIsWhole(job, reducers, s, w, sorted, order);
      case Check(late) => CheckIsWhole(job, s, late);
      case Request(w, lost) => RequestIsWhole(job, s, w, lost);
      case _ =>
    }
  }

  lemma {:induction false} RunKeepsData(job: Job, reducers: nat, run: seq<System>, steps: seq<Step>)
    requires reducers > 0 && CleanJob(job) && OrderInsensitive(job.reducef) && IsRun(job, reducers, run, steps)
    ensures Stored(run[|steps|]) && Produced(job, run[|steps|])
    decreases |steps|
  {
    if steps != [] {
      var n := |steps| - 1;
      RunKeepsData(job, reducers, run[..|steps|], steps[..n]);
      RunKeepsControl(job, reducers, run[..|steps|], steps[..n]);
      StepStores(job, reducers, run[n], steps[n]);
      StepProduces(job, reducers, run[n], steps[n]);
    }
  }

  lemma {:induction false} RunIsWhole(job: Job, reducers: nat, run: seq<System>, steps: seq<Step>)
    requires reducers > 0 && IsRun(job, reducers, run, steps) && NoSkips(run)
    ensures Whole(job, run[|steps|])
    decreases |steps|
  {
    if steps == [] {
      assert job.files != [] ==> MapTasks(job.files)[0].id.MapTask?;
    } else {
      var n := |steps| - 1;
      RunIsWhole(job, reducers, run[..|steps|], steps[..n]);
      RunKeepsControl(job, reducers, run[..|steps|], steps[..n]);
      assert NoneSkipped(run[n + 1].coord.tasks);
      StepIsWhole(job, reducers, run[n], steps[n]);
    }
  }

  /** The end of a run. */

  // Done, called now, returns true and skips nothing.
  ghost predicate IsDone(s: System, late: set<nat>) {
    Sweep(s.coord.tasks, late, 0).1 && NoneSkipped(Sweep(s.coord.tasks, late, 0).0)
  }

  // Every reduce task has an output file without a hole, with one line for each key of its partition.
  ghost predicate OutputsWhole(s: System) {
    && s.coord.reducers > 0
    && forall i | 0 <= i < |s.coord.tasks| && s.coord.tasks[i].id.ReduceTask? :: OutputWhole(s, s.coord.tasks[i].id.p)
  }

  ghost predicate OutputWhole(s: System, p: nat)
    requires s.coord.reducers > 0
  {
    p in s.outputs && IsWhole(s.outputs[p], Part(s.shuffled, p, s.coord.reducers))
  }

  lemma DoneMeansCompleted(s: System, late: set<nat>)
    requires IsDone(s, late)
    ensures forall i | 0 <= i < |s.coord.tasks| :: s.coord.tasks[i].status == Completed
  {
    SweepAt(s.coord.tasks, late, 0);
    forall i: nat | i < |s.coord.tasks| ensures s.coord.tasks[i].status == Completed {
      assert Finished(Sweep(s.coord.tasks, late, 0).0[i]);
    }
  }

  // What a finished run has shuffled is what mapf gives on all files, all of which could be read.
  lemma DoneMeansShuffled(job: Job, reducers: nat, run: seq<System>, steps: seq<Step>, late: set<nat>)
    requires reducers > 0 && IsRun(job, reducers, run, steps) && NoSkips(run) && IsDone(run[|steps|], late)
    ensures multiset(run[|steps|].shuffled) == multiset(AllPairs(job, |job.files|))
    ensures forall i | 0 <= i < |job.files| :: Readable(job, i)
  {
    RunKeepsControl(job, reducers, run, steps);
    RunIsWhole(job, reducers, run, steps);
    DoneMeansCompleted(run[|steps|], late);
  }

  // A whole file is all of the reduction of its partition.
  lemma WholeFileReduces(job: Job, s: System, p: nat)
    requires Produced(job, s) && OutputWhole(s, p)
    ensures Reduces(s.outputs[p], Part(s.shuffled, p, s.coord.reducers), job.reducef)
  {
    assert FileHolds(job, s, p);
    var lines :| GoodLines(job, s.shuffled, s.coord.reducers, p, lines);
    WholeIsSlots(s.outputs[p], lines, Part(s.shuffled, p, s.coord.reducers), job.reducef);
  }

  lemma FilesReduced(job: Job, s: System)
    requires Stored(s) && Produced(job, s) && OutputsWhole(s) && (!s.coord.generated ==> s.shuffled == [])
    ensures Reduced(s.outputs, s.shuffled, s.coord.reducers, job.reducef)
  {
    forall p: nat | p < s.coord.reducers
      ensures var part := Part(s.shuffled, p, s.coord.reducers);
              if part == [] then p !in s.outputs else p in s.outputs && Reduces(s.outputs[p], part, job.reducef)
    {
      assert FileHolds(job, s, p);
      if s.coord.generated {
        assert FileOk(s, p);
        if p in s.coord.files {
          var i :| 0 <= i < |s.coord.tasks| && s.coord.tasks[i].id == ReduceTask(p);
          assert OutputWhole(s, s.coord.tasks[i].id.p);
          WholeFileReduces(job, s, p);
        }
      }
    }
  }

  // A line that is not in the file of its partition is in no other file either.
  lemma LostLine(job: Job, s: System, lines: seq<Line>, x: Line)
    requires Produced(job, s) && Reduction(lines, s.shuffled, job.reducef)
    requires IsLineOf(Some(x), s.shuffled, job.reducef)
    requires var p := PartitionOf(x.key, s.coord.reducers);
             p in s.outputs ==> Some(x) !in s.outputs[p]
    ensures AllLines(s.outputs, s.coord.reducers) != multiset(Slots(lines))
  {
    forall q | 0 <= q < s.coord.reducers ensures FileLines(s.outputs, q)[Some(x)] == if q == 0 then 0 else 0 {
      if q in s.outputs {
        NotInFile(job, s, x, q);
      }
    }
    LinesUpTo(s.outputs, Some(x), 0, 0, s.coord.reducers);
    SlotCount(lines, Some(x));
    LineCount(lines, s.shuffled, job.reducef, x);
  }

  lemma NotInFile(job: Job, s: System, x: Line, q: nat)
    requires Produced(job, s) && q in s.outputs
    requires PartitionOf(x.key, s.coord.reducers) == q ==> Some(x) !in s.outputs[q]
    ensures Some(x) !in s.outputs[q]
  {
    assert FileHolds(job, s, q);
    var lines :| GoodLines(job, s.shuffled, s.coord.reducers, q, lines);
    if Some(x) in s.outputs[q] {
      var j :| 0 <= j < |s.outputs[q]| && s.outputs[q][j] == Some(x);
      assert lines[j] == x;
      PartKeys(s.shuffled, x.key, q, s.coord.reducers);
    }
  }

  // Each line of a partition is a line of reducing everything.
  lemma PartLine(job: Job, s: System, p: nat, x: Line)
    requires s.coord.reducers > 0 && IsLineOf(Some(x), Part(s.shuffled, p, s.coord.reducers), job.reducef)
    ensures IsLineOf(Some(x), s.shuffled, job.reducef) && PartitionOf(x.key, s.coord.reducers) == p
  {
    PartKeys(s.shuffled, x.key, p, s.coord.reducers);
  }

  // While the output file of a partition is missing, cut short or has a hole, some line is lost.
  lemma TruncatedFileLacksLine(job: Job, s: System, p: nat, lines: seq<Line>)
    requires Produced(job, s) && Reduction(lines, s.shuffled, job.reducef)
    requires Part(s.shuffled, p, s.coord.reducers) != [] && !OutputWhole(s, p)
    ensures AllLines(s.outputs, s.coord.reducers) != multiset(Slots(lines))
  {
    var part := Part(s.shuffled, p, s.coord.reducers);
    if p in s.outputs {
      assert FileHolds(job, s, p);
      var good :| GoodLines(job, s.shuffled, s.coord.reducers, p, good);
      WholeIsSlots(s.outputs[p], good, part, job.reducef);
      var k := UnfilledLine(s.outputs[p], good);
      PartLine(job, s, p, good[k]);
      LostLine(job, s, lines, good[k]);
    } else {
      assert part[0] in part;
      var x := Line(part[0].key, job.reducef(part[0].key, ValuesOf(part, part[0].key)));
      PartLine(job, s, p, x);
      LostLine(job, s, lines, x);
    }
  }

  lemma OutputsDecide(job: Job, s: System, lines: seq<Line>)
    requires Stored(s) && Produced(job, s) && Shape(job, s.coord.reducers, s.coord)
    requires !s.coord.generated ==> s.shuffled == []
    requires Reduction(lines, s.shuffled, job.reducef)
    ensures AllLines(s.outputs, s.coord.reducers) == multiset(Slots(lines)) <==> OutputsWhole(s)
  {
    if OutputsWhole(s) {
      FilesReduced(job, s);
      PartitionedReduction(s.outputs, s.shuffled, s.coord.reducers, job.reducef, lines);
    } else {
      var i: nat :| i < |s.coord.tasks| && s.coord.tasks[i].id.ReduceTask? && !OutputWhole(s, s.coord.tasks[i].id.p);
      assert TaskOk(job, s.coord.tasks[i], i);
      assert HasReduceTask(s.coord.tasks, s.coord.tasks[i].id.p);
      assert FileOk(s, s.coord.tasks[i].id.p);
      TruncatedFileLacksLine(job, s, s.coord.tasks[i].id.p, lines);
    }
  }

  /** Equivalence: in a run without skipped tasks, once Done returns true every file of the job could be
      read, and the lines of all output files together are the lines of the sequential program, for every
      way its sort may order equal keys, exactly when each output file has one line for each key of its
      partition and no hole. */
  lemma DistributedIsSequential(job: Job, reducers: nat, run: seq<System>, steps: seq<Step>, late: set<nat>,
                                lines: seq<Line>)
    requires reducers > 0 && CleanJob(job) && OrderInsensitive(job.reducef) && IsRun(job, reducers, run, steps)
    requires NoSkips(run) && IsDone(run[|steps|], late)
    ensures forall i | 0 <= i < |job.files| :: Readable(job, i)
    ensures IsSequentialOutput(job, lines) ==>
              (AllLines(run[|steps|].outputs, reducers) == multiset(Slots(lines)) <==> OutputsWhole(run[|steps|]))
  {
    var s := run[|steps|];
    DoneMeansShuffled(job, reducers, run, steps, late);
    RunKeepsControl(job, reducers, run, steps);
    RunKeepsData(job, reducers, run, steps);
    RunIsWhole(job, reducers, run, steps);
    if IsSequentialOutput(job, lines) {
      var sorted :| SortOf(sorted, AllPairs(job, |job.files|)) && Reduction(lines, sorted, job.reducef);
      ReductionOfRearrangement(lines, sorted, s.shuffled, job.reducef);
      OutputsDecide(job, s, lines);
    }
  }

  // The worker that was the last to create the file has also closed it.
  predicate MakerClosed(s: System, p: nat) {
    p in s.makers ==> s.makers[p].closed
  }

  // Each file whose last creator has closed it is whole.
  lemma ClosedFileIsWhole(job: Job, s: System, p: nat)
    requires Produced(job, s) && p in s.outputs && MakerClosed(s, p)
    ensures OutputWhole(s, p)
  {
    assert FileHolds(job, s, p) && MakerHolds(job, s, p);
    var lines :| GoodLines(job, s.shuffled, s.coord.reducers, p, lines);
    FilledIsSlots(s.outputs[p], lines);
    WholeIsSlots(s.outputs[p], lines, Part(s.shuffled, p, s.coord.reducers), job.reducef);
  }

  /** So a finished run is right whenever the last worker to create each output file has also closed it,
      whoever else has it open or crashed while filling it. */
  lemma {:induction false} ClosedRunIsSequential(job: Job, reducers: nat, run: seq<System>, steps: seq<Step>, late: set<nat>,
                              lines: seq<Line>)
    requires reducers > 0 && CleanJob(job) && OrderInsensitive(job.reducef) && IsRun(job, reducers, run, steps)
    requires NoSkips(run) && IsDone(run[|steps|], late) && forall p: nat :: MakerClosed(run[|steps|], p)
    requires IsSequentialOutput(job, lines)
    ensures AllLines(run[|steps|].outputs, reducers) == multiset(Slots(lines))
  {
    var s := run[|steps|];
    DoneMeansCompleted(s, late);
    RunKeepsControl(job, reducers, run, steps);
    RunKeepsData(job, reducers, run, steps);
    forall i | 0 <= i < |s.coord.tasks| && s.coord.tasks[i].id.ReduceTask? ensures OutputWhole(s, s.coord.tasks[i].id.p) {
      var p := s.coord.tasks[i].id.p;
      assert IsDoneTask(s.coord.tasks[i], p);
      ClosedFileIsWhole(job, s, p);
    }
    DistributedIsSequential(job, reducers, run, steps, late, lines);
  }

  // No worker is between creating an output file and closing it.
  predicate NobodyWrites(s: System) {
    forall w | w in s.workers :: !s.workers[w].Writing?
  }

  /** In particular it is right when no worker is in the middle of writing an output file. */
  lemma {:induction false} QuietRunIsSequential(job: Job, reducers: nat, run: seq<System>, steps: seq<Step>, late: set<nat>,
                             lines: seq<Line>)
    requires reducers > 0 && CleanJob(job) && OrderInsensitive(job.reducef) && IsRun(job, reducers, run, steps)
    requires NoSkips(run) && IsDone(run[|steps|], late) && NobodyWrites(run[|steps|])
    requires IsSequentialOutput(job, lines)
    ensures AllLines(run[|steps|].outputs, reducers) == multiset(Slots(lines))
  {
    var s := run[|steps|];
    RunKeepsData(job, reducers, run, steps);
    forall p: nat ensures MakerClosed(s, p) {
      assert MakerHolds(job, s, p);
    }
    ClosedRunIsSequential(job, reducers, run, steps, late, lines);
  }
}
