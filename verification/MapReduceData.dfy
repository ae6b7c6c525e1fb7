/** Where the data of a run is until it is reduced: the gathered results and the partition files. */
module MapReduceData {
  import opened Coordinator
  import opened KeyValues
  import opened MapReduce
  import opened MapReduceInv
  import opened MrSequential
  import opened Options
  import opened PartitionFile
  import opened Shuffle

  /** The gathered results. */

  // What mapf gives on the files of the completed map tasks, among the first n.
  ghost function CompletedPairs(job: Job, tasks: seq<Task>, n: nat): multiset<KeyValue>
    requires n <= |tasks|
  {
    if n == 0 then multiset{}
    else CompletedPairs(job, tasks, n - 1) +
         if tasks[n - 1].status == Completed then multiset(MapOutput(job, n - 1)) else multiset{}
  }

  ghost predicate Gathered(job: Job, c: Coord) {
    && |job.files| <= |c.tasks|
    && (!c.generated ==> multiset(c.results) == CompletedPairs(job, c.tasks, |job.files|))
    && (forall i: nat | i < |job.files| && c.tasks[i].status == Completed :: Readable(job, i))
  }

  lemma {:induction false} CompletedSame(job: Job, tasks: seq<Task>, next: seq<Task>, n: nat)
    requires n <= |tasks| && n <= |next|
    requires forall i | 0 <= i < n :: tasks[i].status == Completed <==> next[i].status == Completed
    ensures CompletedPairs(job, tasks, n) == CompletedPairs(job, next, n)
    decreases n
  {
    if n > 0 {
      CompletedSame(job, tasks, next, n - 1);
    }
  }

  lemma {:induction false} CompletedOneMore(job: Job, tasks: seq<Task>, next: seq<Task>, n: nat, at: nat)
    requires at < n <= |tasks| && n <= |next|
    requires forall i | 0 <= i < n && i != at :: tasks[i].status == next[i].status
    requires tasks[at].status != Completed && next[at].status == Completed
    ensures CompletedPairs(job, next, n) == CompletedPairs(job, tasks, n) + multiset(MapOutput(job, at))
    decreases n
  {
    if at == n - 1 {
      CompletedSame(job, tasks, next, n - 1);
    } else {
      CompletedOneMore(job, tasks, next, n - 1, at);
    }
  }

  // A worker's report, when it matches a task, meets that task in progress or given up.
  lemma MatchedTask(job: Job, reducers: nat, s: System, w: int, i: nat)
    requires Control(job, reducers, s) && w in s.workers && s.workers[w].Reporting?
    requires FirstMatch(s.coord.tasks, s.workers[w].report, 0) == Some(i)
    ensures i < |s.coord.tasks| && s.coord.tasks[i].status != Completed
    ensures s.workers[w].report.status == Completed ==>
              s.coord.tasks[i].status == InProgress && s.coord.tasks[i].retries == s.workers[w].report.retries
    ensures i < |job.files| <==> s.workers[w].report.id == MapTask(i)
    ensures i < |job.files| <==> s.workers[w].report.id.MapTask?
    ensures s.workers[w].report.write == s.coord.tasks[i].write
  {
    assert Link(job, s.coord.tasks, w, s.workers[w]);
    assert TaskOk(job, s.coord.tasks[i], i) && MarkOk(s.coord.tasks[i]);
  }

  lemma AbsorbGathers(job: Job, reducers: nat, s: System, w: int)
    requires Control(job, reducers, s) && w in s.workers && s.workers[w].Reporting?
    requires Gathered(job, s.coord)
    ensures Gathered(job, Absorb(s.coord, s.workers[w].report))
  {
    var r := s.workers[w].report;
    var c := Absorb(s.coord, r);
    var m := FirstMatch(s.coord.tasks, r, 0);
    if m.Some? {
      var i := m.value;
      MatchedTask(job, reducers, s, w, i);
      assert Link(job, s.coord.tasks, w, s.workers[w]);
      if i < |job.files| && r.status == Completed {
        CompletedOneMore(job, s.coord.tasks, c.tasks, |job.files|, i);
      } else {
        assert r.intermediate == [];
        CompletedSame(job, s.coord.tasks, c.tasks, |job.files|);
      }
    }
  }

  lemma RequestGathers(job: Job, s: System, w: int, lost: bool)
    requires Enabled(job, s, Request(w, lost)) && Gathered(job, s.coord)
    ensures Gathered(job, Next(job, s, Request(w, lost)).coord)
  {
    CompletedSame(job, s.coord.tasks, Next(job, s, Request(w, lost)).coord.tasks, |job.files|);
  }

  lemma CheckGathers(job: Job, s: System, late: set<nat>)
    requires Gathered(job, s.coord)
    ensures Gathered(job, Next(job, s, Check(late)).coord)
  {
    SweepAt(s.coord.tasks, late, 0);
    CompletedSame(job, s.coord.tasks, Next(job, s, Check(late)).coord.tasks, |job.files|);
  }

  lemma GenerateGathers(job: Job, c: Coord, sorted: seq<KeyValue>, order: seq<nat>)
    requires Gathered(job, c)
    ensures Gathered(job, Generate(c, sorted, order))
  {
  }

  lemma StepGathers(job: Job, reducers: nat, s: System, step: Step)
    requires Control(job, reducers, s) && Enabled(job, s, step) && Gathered(job, s.coord)
    ensures Gathered(job, Next(job, s, step).coord)
  {
    match step {
      case Request(w, lost) => RequestGathers(job, s, w, lost);
      case Check(late) => CheckGathers(job, s, late);
      case Deliver(w, sorted, order) =>
        AbsorbGathers(job, reducers, s, w);
        GenerateGathers(job, Absorb(s.coord, s.workers[w].report), sorted, order);
      case _ =>
    }
  }

  // Once completed, a task stays as it is.
  lemma CompletedTaskStays(job: Job, reducers: nat, s: System, step: Step, i: nat)
    requires Control(job, reducers, s) && Enabled(job, s, step)
    requires i < |s.coord.tasks| && s.coord.tasks[i].status == Completed
    ensures i < |Next(job, s, step).coord.tasks| && Next(job, s, step).coord.tasks[i] == s.coord.tasks[i]
  {
    match step {
      case Check(late) => SweepAt(s.coord.tasks, late, 0);
      case Deliver(w, sorted, order) => AbsorbKeepsCompleted(job, reducers, s, w, i);
      case _ =>
    }
  }

  lemma AbsorbKeepsCompleted(job: Job, reducers: nat, s: System, w: int, i: nat)
    requires Control(job, reducers, s) && w in s.workers && s.workers[w].Reporting?
    requires i < |s.coord.tasks| && s.coord.tasks[i].status == Completed
    ensures var c := Absorb(s.coord, s.workers[w].report);
            i < |c.tasks| && c.tasks[i] == s.coord.tasks[i]
  {
    var m := FirstMatch(s.coord.tasks, s.workers[w].report, 0);
    if m.Some? {
      MatchedTask(job, reducers, s, w, m.value);
    }
  }

  // A report for a task that is completed, or is assigned to somebody else, adds no results.
  lemma LateReportAddsNothing(job: Job, reducers: nat, s: System, w: int, i: nat)
    requires Control(job, reducers, s) && w in s.workers && s.workers[w].Reporting?
    requires i < |s.coord.tasks| && s.coord.tasks[i].id == s.workers[w].report.id
    requires s.coord.tasks[i].status == Completed || s.coord.tasks[i].worker != w
    ensures Absorb(s.coord, s.workers[w].report).results == s.coord.results
    ensures s.coord.tasks[i].status == Completed ==> Absorb(s.coord, s.workers[w].report) == s.coord
  {
    assert Link(job, s.coord.tasks, w, s.workers[w]);
    var m := FirstMatch(s.coord.tasks, s.workers[w].report, 0);
    if m.Some? {
      MatchedTask(job, reducers, s, w, m.value);
      assert m.value == i;
    }
  }

  /** The partition files. */

  ghost predicate CleanJob(job: Job) {
    forall i: nat | i < |job.files| :: Clean(MapOutput(job, i))
  }

  ghost predicate HasReduceTask(tasks: seq<Task>, p: nat) {
    exists i :: 0 <= i < |tasks| && tasks[i].id == ReduceTask(p)
  }

  ghost predicate FileOk(s: System, p: nat)
    requires s.coord.reducers > 0
  {
    var part := Part(s.shuffled, p, s.coord.reducers);
    && (p in s.coord.files <==> part != [])
    && (p in s.coord.files ==> s.coord.files[p] == Print(part))
    && (p in s.coord.files <==> HasReduceTask(s.coord.tasks, p))
  }

  ghost predicate Stored(s: System) {
    && s.coord.reducers > 0
    && if s.coord.generated then Clean(s.shuffled) && forall p: nat :: FileOk(s, p)
       else Clean(s.coord.results) && s.coord.files == map[]
  }

  lemma CleanRearranged(s: seq<KeyValue>, t: seq<KeyValue>)
    requires multiset(s) == multiset(t) && Clean(t)
    ensures Clean(s)
  {
    forall i | 0 <= i < |s| ensures CleanText(s[i].key) && CleanText(s[i].value) {
      assert s[i] in multiset(s);
      assert s[i] in t;
    }
  }

  lemma SameReduceTasks(tasks: seq<Task>, next: seq<Task>, w: int, p: nat)
    requires TasksMove(tasks, next, w) && |next| == |tasks|
    ensures HasReduceTask(tasks, p) <==> HasReduceTask(next, p)
  {
    forall i | 0 <= i < |tasks| ensures tasks[i].id == next[i].id {
      assert TaskMoves(tasks[i], next[i], w);
    }
  }

  lemma AbsorbStores(job: Job, reducers: nat, s: System, w: int)
    requires CleanJob(job) && Control(job, reducers, s) && w in s.workers && s.workers[w].Reporting? && Stored(s)
    ensures Stored(s.(coord := Absorb(s.coord, s.workers[w].report)))
  {
    var r := s.workers[w].report;
    var t := s.(coord := Absorb(s.coord, r));
    assert Link(job, s.coord.tasks, w, s.workers[w]);
    assert Clean(r.intermediate);
    AbsorbMoves(job, reducers, s, w);
    if s.coord.generated {
      forall p: nat ensures FileOk(t, p) {
        assert FileOk(s, p);
        SameReduceTasks(s.coord.tasks, t.coord.tasks, w, p);
      }
    }
  }

  lemma GenerateStores(s: System, sorted: seq<KeyValue>, order: seq<nat>)
    requires Stored(s) && !s.coord.generated && MapsDone(s.coord) && IsShuffle(s.coord, sorted, order)
    requires forall i | 0 <= i < |s.coord.tasks| :: s.coord.tasks[i].id.MapTask?
    ensures Stored(s.(coord := Generate(s.coord, sorted, order), shuffled := sorted))
  {
    var t := s.(coord := Generate(s.coord, sorted, order), shuffled := sorted);
    CleanRearranged(sorted, s.coord.results);
    forall p: nat ensures FileOk(t, p) {
      if p in order {
        var k :| 0 <= k < |order| && order[k] == p;
        assert t.coord.tasks[|s.coord.tasks| + k].id == ReduceTask(p);
      }
    }
  }

  // Steps that leave the files alone and move no task keep the partition files as they should be.
  lemma StoredStays(s: System, t: System, w: int)
    requires Stored(s) && TasksMove(s.coord.tasks, t.coord.tasks, w) && |t.coord.tasks| == |s.coord.tasks|
    requires t.shuffled == s.shuffled && t.coord == s.coord.(tasks := t.coord.tasks)
    ensures Stored(t)
  {
    if s.coord.generated {
      forall p: nat ensures FileOk(t, p) {
        assert FileOk(s, p);
        SameReduceTasks(s.coord.tasks, t.coord.tasks, w, p);
      }
    }
  }

  lemma DeliverStores(job: Job, reducers: nat, s: System, w: int, sorted: seq<KeyValue>, order: seq<nat>)
    requires CleanJob(job) && Control(job, reducers, s) && Enabled(job, s, Deliver(w, sorted, order)) && Stored(s)
    ensures Stored(Next(job, s, Deliver(w, sorted, order)))
  {
    var t := Next(job, s, Deliver(w, sorted, order));
    AbsorbStores(job, reducers, s, w);
    AbsorbMoves(job, reducers, s, w);
    var u := s.(coord := Absorb(s.coord, s.workers[w].report));
    if !u.coord.generated && MapsDone(u.coord) {
      assert forall i: nat | i < |u.coord.tasks| :: TaskOk(job, u.coord.tasks[i], i);
      GenerateStores(u, sorted, order);
      StoredStays(u.(coord := t.coord, shuffled := sorted), t, w);
    } else {
      StoredStays(u, t, w);
    }
  }

  lemma StepStores(job: Job, reducers: nat, s: System, step: Step)
    requires CleanJob(job) && Control(job, reducers, s) && Enabled(job, s, step) && Stored(s)
    ensures Stored(Next(job, s, step))
  {
    var t := Next(job, s, step);
    match step {
      case Request(w, _) =>
        assert Link(job, s.coord.tasks, w, s.workers[w]);
        GrantMoves(job, reducers, s, w);
        StoredStays(s, t, w);
      case Check(late) =>
        SweepMoves(job, reducers, s.coord, late, -1);
        StoredStays(s, t, -1);
      case Deliver(w, sorted, order) => DeliverStores(job, reducers, s, w, sorted, order);
      case _ => StoredStays(s, t, -1);
    }
  }
}
