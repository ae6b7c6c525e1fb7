/** The output files during a run, with any number of workers writing the same file. */
module MapReduceFiles {
  import opened Coordinator
  import opened KeyValues
  import opened MapReduce
  import opened MapReduceData
  import opened MapReduceInv
  import opened MrSequential
  import opened MrWorker
  import opened Options
  import opened OutputFile
  import opened PartitionFile
  import opened Shuffle

  // The lines reduce partition p of the shuffled list.
  ghost predicate GoodLines(job: Job, shuffled: seq<KeyValue>, reducers: nat, p: nat, lines: seq<Line>)
    requires reducers > 0
  {
    Part(shuffled, p, reducers) != [] && Reduction(lines, Part(shuffled, p, reducers), job.reducef)
  }

  ghost predicate Good(job: Job, s: System, p: nat, lines: seq<Line>)
    requires s.coord.reducers > 0
  {
    GoodLines(job, s.shuffled, s.coord.reducers, p, lines)
  }

  lemma GoodLinesAreUnique(job: Job, s: System, p: nat, a: seq<Line>, b: seq<Line>)
    requires s.coord.reducers > 0 && Good(job, s, p, a) && Good(job, s, p, b)
    ensures a == b
  {
    ReductionIsUnique(a, b, Part(s.shuffled, p, s.coord.reducers), job.reducef);
  }

  predicate IsWriter(x: Worker, p: nat) {
    x.Writing? && x.task.id == ReduceTask(p)
  }

  predicate IsDoneTask(t: Task, p: nat) {
    t.id == ReduceTask(p) && t.status == Completed
  }

  predicate IsDoneReport(x: Worker, p: nat) {
    x.Reporting? && x.report.id == ReduceTask(p) && x.report.status == Completed
  }

  // Whatever has been written to a file are lines of its partition, each in its place.
  ghost predicate FileHolds(job: Job, s: System, p: nat)
    requires s.coord.reducers > 0
  {
    p in s.outputs ==>
      && s.coord.generated && p in s.makers
      && (exists lines :: GoodLines(job, s.shuffled, s.coord.reducers, p, lines))
      && forall lines | GoodLines(job, s.shuffled, s.coord.reducers, p, lines) :: HoldsOnly(s.outputs[p], lines)
  }

  ghost predicate WriterHolds(job: Job, s: System, x: Worker, p: nat)
    requires s.coord.reducers > 0
  {
    IsWriter(x, p) ==> s.coord.generated && p in s.outputs && x.pos <= |x.lines| && Good(job, s, p, x.lines)
  }

  // The last worker to create a file has filled it as far as it has got, and altogether once it has closed it.
  ghost predicate MakerHolds(job: Job, s: System, p: nat)
    requires s.coord.reducers > 0
  {
    p in s.makers ==>
      && p in s.outputs
      && var m := s.makers[p];
         if m.closed then forall lines | GoodLines(job, s.shuffled, s.coord.reducers, p, lines) :: FilledTo(s.outputs[p], |lines|)
         else m.worker in s.workers && IsWriter(s.workers[m.worker], p) && FilledTo(s.outputs[p], s.workers[m.worker].pos)
  }

  ghost predicate Produced(job: Job, s: System) {
    && s.coord.reducers > 0
    && (forall p: nat :: FileHolds(job, s, p) && MakerHolds(job, s, p))
    && (forall w, p: nat | w in s.workers :: WriterHolds(job, s, s.workers[w], p))
    && (forall i, p | 0 <= i < |s.coord.tasks| && IsDoneTask(s.coord.tasks[i], p) :: p in s.outputs)
    && (forall w, p | w in s.workers && IsDoneReport(s.workers[w], p) :: p in s.outputs)
  }

  // A worker moves on without touching an output file.
  lemma WorkerProduces(job: Job, s: System, t: System, w: int, x: Worker)
    requires Produced(job, s) && t == s.(workers := s.workers[w := x])
    requires w in s.workers ==> !s.workers[w].Writing?
    requires !x.Writing? && forall p: nat :: !IsDoneReport(x, p)
    ensures Produced(job, t)
  {
    forall p: nat ensures FileHolds(job, t, p) && MakerHolds(job, t, p) {
      assert FileHolds(job, s, p) && MakerHolds(job, s, p);
    }
    forall v, p: nat | v in t.workers ensures WriterHolds(job, t, t.workers[v], p) {
      assert v != w ==> WriterHolds(job, s, s.workers[v], p);
    }
  }

  // The coordinator moves on: a task is completed only when its output file has been created.
  lemma CoordProduces(job: Job, s: System, t: System)
    requires Produced(job, s) && t == s.(coord := t.coord, shuffled := t.shuffled)
    requires t.coord.reducers == s.coord.reducers
    requires s.coord.generated ==> t.coord.generated && t.shuffled == s.shuffled
    requires forall i, p | 0 <= i < |t.coord.tasks| && IsDoneTask(t.coord.tasks[i], p) :: p in s.outputs
    ensures Produced(job, t)
  {
    forall p: nat ensures FileHolds(job, t, p) && MakerHolds(job, t, p) {
      assert FileHolds(job, s, p) && MakerHolds(job, s, p);
    }
    forall v, p: nat | v in t.workers ensures WriterHolds(job, t, t.workers[v], p) {
      assert WriterHolds(job, s, s.workers[v], p);
    }
  }

  // The lines that are computed from the text of a partition reduce it.
  lemma {:induction false} ReducedText(part: seq<KeyValue>, lines: seq<Line>, reducef: Reducer)
    requires part != [] && Clean(part) && IsReduceOutput(lines, Print(part), reducef) && OrderInsensitive(reducef)
    ensures Reduction(lines, part, reducef)
  {
    RoundTrip(part);
    var sorted :| SortOf(sorted, part) && Reduction(lines, sorted, reducef);
    ReductionOfRearrangement(lines, sorted, part, reducef);
  }

  // A partition file is the text of its partition, which is clean and not empty.
  lemma {:induction false} StoredPart(s: System, p: nat)
    requires Stored(s) && p in s.coord.files
    ensures var part := Part(s.shuffled, p, s.coord.reducers);
            s.coord.generated && part != [] && Clean(part) && s.coord.files[p] == Print(part)
  {
    assert FileOk(s, p);
    PartIsClean(s.shuffled, p, s.coord.reducers);
  }

  // Only file p, its maker and worker w change.
  ghost predicate Touches(s: System, t: System, w: int, p: nat) {
    && t.coord == s.coord && t.shuffled == s.shuffled
    && w in s.workers && w in t.workers && t.workers == s.workers[w := t.workers[w]]
    && p in t.outputs && t.outputs == s.outputs[p := t.outputs[p]]
    && p in t.makers && t.makers == s.makers[p := t.makers[p]]
    && forall q: nat | q != p :: !IsWriter(s.workers[w], q) && !IsWriter(t.workers[w], q) && !IsDoneReport(t.workers[w], q)
  }

  lemma TouchProduces(job: Job, s: System, t: System, w: int, p: nat)
    requires Produced(job, s) && Touches(s, t, w, p)
    requires FileHolds(job, t, p) && MakerHolds(job, t, p) && WriterHolds(job, t, t.workers[w], p)
    ensures Produced(job, t)
  {
    forall q: nat ensures FileHolds(job, t, q) && MakerHolds(job, t, q) {
      if q != p {
        assert FileHolds(job, s, q) && MakerHolds(job, s, q);
      }
    }
    forall v, q: nat | v in t.workers ensures WriterHolds(job, t, t.workers[v], q) {
      if v != w {
        assert WriterHolds(job, s, s.workers[v], q);
      }
    }
    forall i, q | 0 <= i < |t.coord.tasks| && IsDoneTask(t.coord.tasks[i], q) ensures q in t.outputs {
      assert IsDoneTask(s.coord.tasks[i], q);
    }
    forall v, q | v in t.workers && IsDoneReport(t.workers[v], q) ensures q in t.outputs {
      assert v != w ==> IsDoneReport(s.workers[v], q);
    }
  }

  lemma OpenProduces(job: Job, s: System, t: System, w: int, p: nat)
    requires Produced(job, s) && s.coord.generated && Touches(s, t, w, p)
    requires t.outputs[p] == [] && t.makers[p] == Maker(w, false)
    requires IsWriter(t.workers[w], p) && t.workers[w].pos == 0 && Good(job, s, p, t.workers[w].lines)
    ensures Produced(job, t)
  {
    TouchProduces(job, s, t, w, p);
  }

  lemma WriteProduces(job: Job, s: System, w: int)
    requires Produced(job, s) && Enabled(job, s, Write(w))
    requires s.workers[w].task.id.ReduceTask? && s.workers[w].task.write == ReduceOut(s.workers[w].task.id.p)
    ensures Produced(job, Next(job, s, Write(w)))
  {
    var t := Next(job, s, Write(w));
    var x := s.workers[w];
    var p := x.task.id.p;
    assert WriterHolds(job, s, x, p) && FileHolds(job, s, p) && MakerHolds(job, s, p);
    assert HoldsOnly(s.outputs[p], x.lines);
    WriteHoldsOnly(s.outputs[p], x.lines, x.pos);
    forall lines | GoodLines(job, t.shuffled, t.coord.reducers, p, lines) ensures lines == x.lines {
      GoodLinesAreUnique(job, s, p, lines, x.lines);
    }
    TouchProduces(job, s, t, w, p);
  }

  lemma CloseProduces(job: Job, s: System, w: int)
    requires Produced(job, s) && Enabled(job, s, Close(w))
    requires s.workers[w].task.id.ReduceTask? && s.workers[w].task.write == ReduceOut(s.workers[w].task.id.p)
    ensures Produced(job, Next(job, s, Close(w)))
  {
    var t := Next(job, s, Close(w));
    var x := s.workers[w];
    var p := x.task.id.p;
    assert WriterHolds(job, s, x, p) && FileHolds(job, s, p) && MakerHolds(job, s, p);
    forall lines | GoodLines(job, t.shuffled, t.coord.reducers, p, lines) ensures lines == x.lines {
      GoodLinesAreUnique(job, s, p, lines, x.lines);
    }
    assert t.outputs == s.outputs[p := s.outputs[p]];
    TouchProduces(job, s, t, w, p);
  }

  lemma DeliverProduces(job: Job, s: System, w: int, sorted: seq<KeyValue>, order: seq<nat>)
    requires Enabled(job, s, Deliver(w, sorted, order)) && Produced(job, s)
    ensures Produced(job, Next(job, s, Deliver(w, sorted, order)))
  {
    var t := Next(job, s, Deliver(w, sorted, order));
    var u := t.(workers := s.workers);
    var r := s.workers[w].report;
    forall i, p | 0 <= i < |u.coord.tasks| && IsDoneTask(u.coord.tasks[i], p) ensures p in s.outputs {
      if i < |s.coord.tasks| && u.coord.tasks[i] == s.coord.tasks[i] {
        assert IsDoneTask(s.coord.tasks[i], p);
      } else {
        assert FirstMatch(s.coord.tasks, r, 0) == Some(i);
        assert IsDoneReport(s.workers[w], p);
      }
    }
    CoordProduces(job, s, u);
    WorkerProduces(job, u, t, w, Idle);
  }

  lemma RequestProduces(job: Job, s: System, w: int, lost: bool)
    requires Enabled(job, s, Request(w, lost)) && Produced(job, s)
    ensures Produced(job, Next(job, s, Request(w, lost)))
  {
    var t := Next(job, s, Request(w, lost));
    var u := t.(workers := s.workers);
    forall i, p | 0 <= i < |u.coord.tasks| && IsDoneTask(u.coord.tasks[i], p) ensures p in s.outputs {
      assert IsDoneTask(s.coord.tasks[i], p);
    }
    CoordProduces(job, s, u);
    WorkerProduces(job, u, t, w, t.workers[w]);
  }

  lemma CheckProduces(job: Job, s: System, late: set<nat>)
    requires Produced(job, s)
    ensures Produced(job, Next(job, s, Check(late)))
  {
    var t := Next(job, s, Check(late));
    SweepAt(s.coord.tasks, late, 0);
    forall i, p | 0 <= i < |t.coord.tasks| && IsDoneTask(t.coord.tasks[i], p) ensures p in s.outputs {
      assert IsDoneTask(s.coord.tasks[i], p);
    }
    CoordProduces(job, s, t);
  }

  lemma StepProduces(job: Job, reducers: nat, s: System, step: Step)
    requires OrderInsensitive(job.reducef) && Control(job, reducers, s) && Enabled(job, s, step)
    requires Stored(s) && Produced(job, s)
    ensures Produced(job, Next(job, s, step))
  {
    var t := Next(job, s, step);
    match step {
      case Open(w, lines) =>
        assert Link(job, s.coord.tasks, w, s.workers[w]);
        var p := s.workers[w].task.id.p;
        StoredPart(s, p);
        ReducedText(Part(s.shuffled, p, s.coord.reducers), lines, job.reducef);
        OpenProduces(job, s, t, w, p);
      case Write(w) =>
        assert Link(job, s.coord.tasks, w, s.workers[w]);
        WriteProduces(job, s, w);
      case Close(w) =>
        assert Link(job, s.coord.tasks, w, s.workers[w]);
        CloseProduces(job, s, w);
      case Deliver(w, sorted, order) => DeliverProduces(job, s, w, sorted, order);
      case Request(w, lost) => RequestProduces(job, s, w, lost);
      case Check(late) => CheckProduces(job, s, late);
      case Join(w) => WorkerProduces(job, s, t, w, Idle);
      case Map(w) => WorkerProduces(job, s, t, w, t.workers[w]);
      case Fail(w) => WorkerProduces(job, s, t, w, t.workers[w]);
      case Lose(w) => WorkerProduces(job, s, t, w, Idle);
    }
  }
}
