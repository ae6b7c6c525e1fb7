/** What every run of the coordinator and its workers keeps. */
module MapReduceInv {
  import opened Coordinator
  import opened KeyValues
  import opened MapReduce
  import opened MrSequential

  /** The task list. */

  predicate WellFormed(job: Job, id: TaskId, read: Location, write: Location) {
    match id
    case MapTask(i) => i < |job.files| && read == Input(job.files[i]) && write == MapOut(i)
    case ReduceTask(p) => read == PartitionAt(p) && write == ReduceOut(p)
  }

  predicate TaskOk(job: Job, t: Task, i: nat) {
    && WellFormed(job, t.id, t.read, t.write)
    && (if i < |job.files| then t.id == MapTask(i) else t.id.ReduceTask?)
  }

  ghost predicate Shape(job: Job, reducers: nat, c: Coord) {
    && c.reducers == reducers
    && |job.files| <= |c.tasks|
    && (!c.generated ==> |c.tasks| == |job.files|)
    && (forall i: nat | i < |c.tasks| :: TaskOk(job, c.tasks[i], i))
    && (forall i, j | 0 <= i < j < |c.tasks| :: c.tasks[i].id != c.tasks[j].id)
  }

  // A task has no worker exactly while it is not started or skipped.
  predicate MarkOk(t: Task) {
    t.worker >= -1 && (t.worker == -1 <==> t.status == NotStarted || t.status == Skipped)
  }

  ghost predicate Marks(c: Coord) {
    forall i | 0 <= i < |c.tasks| :: MarkOk(c.tasks[i])
  }

  /** The link between a worker and the task it was granted. */

  // As long as the task is still assigned to the worker, nobody has touched it.
  ghost predicate Held(tasks: seq<Task>, id: TaskId, w: int, retries: int) {
    forall i | 0 <= i < |tasks| && tasks[i].id == id && tasks[i].worker == w ::
      tasks[i].status == InProgress && tasks[i].retries == retries
  }

  ghost predicate TaskLink(job: Job, tasks: seq<Task>, t: Task, w: int) {
    t.worker == w && WellFormed(job, t.id, t.read, t.write) && Held(tasks, t.id, w, t.retries)
  }

  // A report carries what its task produces, or says that it failed.
  ghost predicate ReportLink(job: Job, tasks: seq<Task>, r: Report, w: int) {
    && (match r.id
        case MapTask(i) => i < |job.files| && r.write == MapOut(i)
        case ReduceTask(p) => r.write == ReduceOut(p))
    && if r.worker == -1 then r.status == NotStarted && r.intermediate == []
       else r.worker == w && r.status == Completed && Held(tasks, r.id, w, r.retries) &&
            match r.id
            case MapTask(i) => Readable(job, i) && r.intermediate == MapOutput(job, i)
            case ReduceTask(_) => r.intermediate == []
  }

  ghost predicate Link(job: Job, tasks: seq<Task>, w: int, x: Worker) {
    && w >= 0
    && match x
       case Idle => true
       case Working(t) => TaskLink(job, tasks, t, w)
       case Writing(t, lines, pos) => pos <= |lines| && t.id.ReduceTask? && TaskLink(job, tasks, t, w)
       case Reporting(r) => ReportLink(job, tasks, r, w)
  }

  ghost predicate Links(job: Job, tasks: seq<Task>, workers: map<int, Worker>) {
    forall w | w in workers :: Link(job, tasks, w, workers[w])
  }

  ghost predicate Control(job: Job, reducers: nat, s: System) {
    Shape(job, reducers, s.coord) && Marks(s.coord) && Links(job, s.coord.tasks, s.workers)
  }

  lemma LinkStays(job: Job, tasks: seq<Task>, next: seq<Task>, w: int, v: int, x: Worker)
    requires Link(job, tasks, v, x) && TasksMove(tasks, next, w) && v != w
    ensures Link(job, next, v, x)
  {
    forall i | 0 <= i < |next| && next[i].worker == v ensures i < |tasks| && next[i] == tasks[i] {
      if i < |tasks| {
        assert TaskMoves(tasks[i], next[i], w);
      }
    }
  }

  lemma LinksStay(job: Job, tasks: seq<Task>, next: seq<Task>, workers: map<int, Worker>, w: int, x: Worker)
    requires Links(job, tasks, workers) && TasksMove(tasks, next, w) && Link(job, next, w, x)
    ensures Links(job, next, workers[w := x])
  {
    forall v | v in workers && v != w ensures Link(job, next, v, workers[v]) {
      LinkStays(job, tasks, next, w, v, workers[v]);
    }
  }

  lemma GrantMoves(job: Job, reducers: nat, s: System, w: int)
    requires Control(job, reducers, s) && w >= 0
    ensures var (c, reply) := Grant(s.coord, w);
            && Shape(job, reducers, c) && Marks(c) && TasksMove(s.coord.tasks, c.tasks, w)
            && (reply.Some? ==> TaskLink(job, c.tasks, reply.value, w))
  {
    var (c, reply) := Grant(s.coord, w);
    if reply.Some? {
      var i := FirstGrantable(s.coord.tasks, 0).value;
      assert TaskOk(job, s.coord.tasks[i], i);
      assert forall j: nat | j < |c.tasks| && j != i :: c.tasks[j] == s.coord.tasks[j];
      assert TaskOk(job, c.tasks[i], i);
    }
  }

  lemma AbsorbMoves(job: Job, reducers: nat, s: System, w: int)
    requires Control(job, reducers, s) && w in s.workers && s.workers[w].Reporting?
    ensures var c := Absorb(s.coord, s.workers[w].report);
            Shape(job, reducers, c) && Marks(c) && TasksMove(s.coord.tasks, c.tasks, w)
  {
    var r := s.workers[w].report;
    var c := Absorb(s.coord, r);
    assert Link(job, s.coord.tasks, w, s.workers[w]);
    var m := FirstMatch(s.coord.tasks, r, 0);
    if m.Some? {
      var i := m.value;
      assert TaskOk(job, s.coord.tasks[i], i) && MarkOk(s.coord.tasks[i]);
      assert forall j: nat | j < |c.tasks| && j != i :: c.tasks[j] == s.coord.tasks[j];
      assert TaskOk(job, c.tasks[i], i) && MarkOk(c.tasks[i]);
    }
  }

  lemma GenerateMoves(job: Job, reducers: nat, c: Coord, sorted: seq<KeyValue>, order: seq<nat>, w: int)
    requires Shape(job, reducers, c) && Marks(c)
    requires !c.generated && MapsDone(c) ==> IsShuffle(c, sorted, order)
    ensures var d := Generate(c, sorted, order);
            Shape(job, reducers, d) && Marks(d) && TasksMove(c.tasks, d.tasks, w)
  {
    var d := Generate(c, sorted, order);
    if d.generated && !c.generated {
      forall i, j | 0 <= i < j < |d.tasks| ensures d.tasks[i].id != d.tasks[j].id {
        if i < |c.tasks| {
          assert TaskOk(job, c.tasks[i], i);
        }
      }
      forall i: nat | i < |d.tasks| ensures TaskOk(job, d.tasks[i], i) {
        assert i < |c.tasks| ==> d.tasks[i] == c.tasks[i];
      }
    }
  }

  lemma SweepMoves(job: Job, reducers: nat, c: Coord, late: set<nat>, w: int)
    requires Shape(job, reducers, c) && Marks(c)
    ensures var d := c.(tasks := Sweep(c.tasks, late, 0).0);
            Shape(job, reducers, d) && Marks(d) && TasksMove(c.tasks, d.tasks, w)
  {
    var d := c.(tasks := Sweep(c.tasks, late, 0).0);
    SweepAt(c.tasks, late, 0);
    forall i: nat | i < |c.tasks|
      ensures TaskMoves(c.tasks[i], d.tasks[i], w) && TaskOk(job, d.tasks[i], i) && MarkOk(d.tasks[i])
    {
      assert TaskOk(job, c.tasks[i], i) && MarkOk(c.tasks[i]);
    }
  }

  lemma MovesCompose(a: seq<Task>, b: seq<Task>, c: seq<Task>, w: int)
    requires TasksMove(a, b, w) && TasksMove(b, c, w) && forall i | |a| <= i < |b| :: c[i] == b[i]
    ensures TasksMove(a, c, w)
  {
    forall i | 0 <= i < |a| ensures TaskMoves(a[i], c[i], w) {
      assert TaskMoves(a[i], b[i], w) && TaskMoves(b[i], c[i], w);
    }
  }

  lemma DeliverKeepsControl(job: Job, reducers: nat, s: System, w: int, sorted: seq<KeyValue>, order: seq<nat>)
    requires Control(job, reducers, s) && Enabled(job, s, Deliver(w, sorted, order))
    ensures Control(job, reducers, Next(job, s, Deliver(w, sorted, order)))
  {
    var mid := Absorb(s.coord, s.workers[w].report);
    var t := Next(job, s, Deliver(w, sorted, order));
    AbsorbMoves(job, reducers, s, w);
    GenerateMoves(job, reducers, mid, sorted, order, w);
    MovesCompose(s.coord.tasks, mid.tasks, t.coord.tasks, w);
    assert Link(job, s.coord.tasks, w, s.workers[w]);
    LinksStay(job, s.coord.tasks, t.coord.tasks, s.workers, w, Idle);
  }

  lemma StepKeepsControl(job: Job, reducers: nat, s: System, step: Step)
    requires Control(job, reducers, s) && Enabled(job, s, step)
    ensures Control(job, reducers, Next(job, s, step))
  {
    var t := Next(job, s, step);
    match step {
      case Request(w, lost) =>
        assert Link(job, s.coord.tasks, w, s.workers[w]);
        GrantMoves(job, reducers, s, w);
        LinksStay(job, s.coord.tasks, t.coord.tasks, s.workers, w, t.workers[w]);
      case Deliver(w, sorted, order) => DeliverKeepsControl(job, reducers, s, w, sorted, order);
      case Check(late) =>
        SweepMoves(job, reducers, s.coord, late, -1);
        forall v | v in s.workers ensures Link(job, t.coord.tasks, v, s.workers[v]) {
          LinkStays(job, s.coord.tasks, t.coord.tasks, -1, v, s.workers[v]);
        }
      case Join(w) => LinksStay(job, s.coord.tasks, s.coord.tasks, s.workers, w, Idle);
      case Map(w) =>
        assert Link(job, s.coord.tasks, w, s.workers[w]);
        LinksStay(job, s.coord.tasks, s.coord.tasks, s.workers, w, t.workers[w]);
      case Open(w, _) =>
        assert Link(job, s.coord.tasks, w, s.workers[w]);
        LinksStay(job, s.coord.tasks, s.coord.tasks, s.workers, w, t.workers[w]);
      case Write(w) =>
        assert Link(job, s.coord.tasks, w, s.workers[w]);
        LinksStay(job, s.coord.tasks, s.coord.tasks, s.workers, w, t.workers[w]);
      case Close(w) =>
        assert Link(job, s.coord.tasks, w, s.workers[w]);
        LinksStay(job, s.coord.tasks, s.coord.tasks, s.workers, w, t.workers[w]);
      case Fail(w) =>
        assert Link(job, s.coord.tasks, w, s.workers[w]);
        LinksStay(job, s.coord.tasks, s.coord.tasks, s.workers, w, t.workers[w]);
      case Lose(w) =>
        assert Link(job, s.coord.tasks, w, s.workers[w]);
        LinksStay(job, s.coord.tasks, s.coord.tasks, s.workers, w, Idle);
    }
  }
}
