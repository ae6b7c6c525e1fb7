/** Two runs that end with an output lost. In both the reduce task is given up on worker 0 and completed by
    worker 1: worker 0 creates the output file again after worker 1 has closed it, or while worker 1 is still
    writing it. */
module LateWriter {
  import opened Coordinator
  import opened KeyValues
  import opened MapReduce
  import opened MapReduceData
  import opened MapReduceEquivalence
  import opened MapReduceRuns
  import opened MrSequential
  import opened MrWorker
  import opened Options
  import opened OutputFile
  import opened PartitionFile
  import opened Shuffle
  import opened Texts

  const NAME: Text := [97]
  const FIRST := KeyValue([97], [49])
  const SECOND := KeyValue([98], [49])
  const ONE := Line([97], [50])
  const TWO := Line([98], [50])

  // One file with two pairs.
  ghost function SmallJob(): Job {
    Job([NAME], map[NAME := []], (name: Text, contents: Text) => [FIRST, SECOND], (key: Text, values: seq<Text>) => [50])
  }

  function M(status: Status, worker: int): Task {
    Task(MapTask(0), status, worker, Input(NAME), MapOut(0), 0)
  }

  function R(status: Status, worker: int, retries: int): Task {
    Task(ReduceTask(0), status, worker, PartitionAt(0), ReduceOut(0), retries)
  }

  function Before(t: Task): Coord {
    Coord([t], [], 1, false, map[])
  }

  function After(t: Task): Coord {
    Coord([M(Completed, 0), t], [KeyValue([], []), KeyValue([], [])], 1, true, map[0 := Print([FIRST, SECOND])])
  }

  function MapReport(): Report {
    Report(MapTask(0), 0, MapOut(0), Completed, [FIRST, SECOND], 0)
  }

  function ReduceReport(): Report {
    Report(ReduceTask(0), 1, ReduceOut(0), Completed, [], 1)
  }

  ghost function Mapping(t: Task, workers: map<int, Worker>): System {
    System(Before(t), workers, map[], map[], [])
  }

  // No output file yet.
  ghost function Fresh(t: Task, x: Worker, y: Worker): System {
    System(After(t), map[0 := x, 1 := y], map[], map[], [FIRST, SECOND])
  }

  ghost function Filling(t: Task, x: Worker, y: Worker, file: OutFile, maker: Maker): System {
    System(After(t), map[0 := x, 1 := y], map[0 := file], map[0 := maker], [FIRST, SECOND])
  }

  function Late(pos: nat): Worker {
    Writing(R(InProgress, 0, 0), [ONE, TWO], pos)
  }

  function Prompt(pos: nat): Worker {
    Writing(R(InProgress, 1, 1), [ONE, TWO], pos)
  }

  ghost predicate Goes(s: System, step: Step, t: System) {
    Enabled(SmallJob(), s, step) && Next(SmallJob(), s, step) == t
  }

  // Worker 0 maps the file and is granted the reduce task; the task times out and is granted to worker 1.
  ghost function HeadSteps(): seq<Step> {
    [Join(0), Join(1), Request(0, false), Map(0), Deliver(0, [FIRST, SECOND], [0]), Request(0, false), Check({1}),
     Request(1, false), Open(1, [ONE, TWO]), Write(1)]
  }

  ghost function Head(): seq<System> {
    var x := Working(R(InProgress, 0, 0));
    [Mapping(M(NotStarted, -1), map[]),
     Mapping(M(NotStarted, -1), map[0 := Idle]),
     Mapping(M(NotStarted, -1), map[0 := Idle, 1 := Idle]),
     Mapping(M(InProgress, 0), map[0 := Working(M(InProgress, 0)), 1 := Idle]),
     Mapping(M(InProgress, 0), map[0 := Reporting(MapReport()), 1 := Idle]),
     Fresh(R(NotStarted, -1, 0), Idle, Idle),
     Fresh(R(InProgress, 0, 0), x, Idle),
     Fresh(R(NotStarted, -1, 1), x, Idle),
     Fresh(R(InProgress, 1, 1), x, Working(R(InProgress, 1, 1))),
     Filling(R(InProgress, 1, 1), x, Prompt(0), [], Maker(1, false)),
     Filling(R(InProgress, 1, 1), x, Prompt(1), [Some(ONE)], Maker(1, false))]
  }

  // Worker 1 completes the task, and then worker 0 creates the file.
  ghost function LateSteps(): seq<Step> {
    [Write(1), Close(1), Deliver(1, [], []), Open(0, [ONE, TWO])]
  }

  ghost function LateTail(): seq<System> {
    var x := Working(R(InProgress, 0, 0));
    [Filling(R(InProgress, 1, 1), x, Prompt(2), [Some(ONE), Some(TWO)], Maker(1, false)),
     Filling(R(InProgress, 1, 1), x, Reporting(ReduceReport()), [Some(ONE), Some(TWO)], Maker(1, true)),
     Filling(R(Completed, 1, 1), x, Idle, [Some(ONE), Some(TWO)], Maker(1, true)),
     Filling(R(Completed, 1, 1), Late(0), Idle, [], Maker(0, false))]
  }

  // Worker 0 creates the file between the two lines of worker 1, which then completes the task.
  ghost function OverlapSteps(): seq<Step> {
    [Open(0, [ONE, TWO]), Write(1), Close(1), Deliver(1, [], [])]
  }

  ghost function OverlapTail(): seq<System> {
    [Filling(R(InProgress, 1, 1), Late(0), Prompt(1), [], Maker(0, false)),
     Filling(R(InProgress, 1, 1), Late(0), Prompt(2), [None, Some(TWO)], Maker(0, false)),
     Filling(R(InProgress, 1, 1), Late(0), Reporting(ReduceReport()), [None, Some(TWO)], Maker(0, false)),
     Filling(R(Completed, 1, 1), Late(0), Idle, [None, Some(TWO)], Maker(0, false))]
  }

  lemma Slices()
    ensures [FIRST, SECOND][..1] == [FIRST] && [FIRST][..0] == []
  {
  }

  lemma OnePart(p: nat)
    ensures Part([FIRST, SECOND], p, 1) == if p == 0 then [FIRST, SECOND] else []
  {
    Slices();
    assert Part([FIRST], p, 1) == if p == 0 then [FIRST] else [];
  }

  lemma TwoGroups()
    ensures Keys([FIRST, SECOND]) == {[97], [98]} && Sorted([FIRST, SECOND])
  {
    KeysConcat([FIRST], [SECOND]);
    OneKey(FIRST);
    OneKey(SECOND);
    assert [FIRST] + [SECOND] == [FIRST, SECOND];
    LessIsTotal([97], [98]);
  }

  lemma TwoLines()
    ensures Reduction([ONE, TWO], [FIRST, SECOND], SmallJob().reducef)
  {
    TwoGroups();
    var lines := [ONE, TWO];
    assert lines[0].key == [97] && lines[1].key == [98];
    assert Less([97], [98]);
  }

  lemma SortedPairs()
    ensures SortOf([FIRST, SECOND], [FIRST, SECOND])
  {
    TwoGroups();
  }

  lemma ShuffleOfTwo(c: Coord)
    requires c.results == [FIRST, SECOND] && c.reducers == 1
    ensures IsShuffle(c, [FIRST, SECOND], [0])
  {
    SortedPairs();
    forall p: nat ensures p in [0] <==> Part([FIRST, SECOND], p, 1) != [] {
      OnePart(p);
    }
  }

  lemma FilesOfTwo()
    ensures Files([FIRST, SECOND], [0], 1) == map[0 := Print([FIRST, SECOND])]
  {
    OnePart(0);
    assert Files([FIRST, SECOND], [0], 1).Keys == {0};
  }

  lemma JoinSteps()
    ensures Goes(Mapping(M(NotStarted, -1), map[]), Join(0), Mapping(M(NotStarted, -1), map[0 := Idle]))
    ensures Goes(Mapping(M(NotStarted, -1), map[0 := Idle]), Join(1), Mapping(M(NotStarted, -1), map[0 := Idle, 1 := Idle]))
  {
  }

  lemma MapSteps()
    ensures Goes(Mapping(M(NotStarted, -1), map[0 := Idle, 1 := Idle]), Request(0, false),
                 Mapping(M(InProgress, 0), map[0 := Working(M(InProgress, 0)), 1 := Idle]))
    ensures Goes(Mapping(M(InProgress, 0), map[0 := Working(M(InProgress, 0)), 1 := Idle]), Map(0), Mapped())
  {
    var tasks := [M(NotStarted, -1)];
    assert Grantable(tasks[0]) && tasks[0 := M(InProgress, 0)] == [M(InProgress, 0)];
    assert Grant(Before(M(NotStarted, -1)), 0) == (Before(M(InProgress, 0)), Some(M(InProgress, 0)));
  }

  ghost function Mapped(): System {
    Mapping(M(InProgress, 0), map[0 := Reporting(MapReport()), 1 := Idle])
  }

  lemma AbsorbOne(mid: Coord)
    requires mid == Absorb(Before(M(InProgress, 0)), MapReport())
    ensures mid == Coord([M(Completed, 0)], [FIRST, SECOND], 1, false, map[]) && MapsDone(mid)
  {
  }

  lemma GenerateOne(mid: Coord)
    requires mid == Coord([M(Completed, 0)], [FIRST, SECOND], 1, false, map[]) && MapsDone(mid)
    ensures Generate(mid, [FIRST, SECOND], [0]) == After(R(NotStarted, -1, 0))
  {
    FilesOfTwo();
    assert ReduceTasks([0]) == [R(NotStarted, -1, 0)];
    assert Cleared([FIRST, SECOND]) == [KeyValue([], []), KeyValue([], [])];
  }

  lemma ShuffleEnabled()
    ensures Enabled(SmallJob(), Mapped(), Deliver(0, [FIRST, SECOND], [0]))
  {
    var mid := Absorb(Before(M(InProgress, 0)), MapReport());
    AbsorbOne(mid);
    ShuffleOfTwo(mid);
  }

  lemma ShuffleNext(t: System)
    requires t == Mapped().(coord := Generate(Absorb(Before(M(InProgress, 0)), MapReport()), [FIRST, SECOND], [0]),
                            workers := Mapped().workers[0 := Idle], shuffled := [FIRST, SECOND])
    ensures t == Fresh(R(NotStarted, -1, 0), Idle, Idle)
  {
    var mid := Absorb(Before(M(InProgress, 0)), MapReport());
    AbsorbOne(mid);
    GenerateOne(mid);
  }

  lemma {:induction false} ShuffleStep()
    ensures Goes(Mapped(), Deliver(0, [FIRST, SECOND], [0]), Fresh(R(NotStarted, -1, 0), Idle, Idle))
  {
    ShuffleEnabled();
    ShuffleNext(Next(SmallJob(), Mapped(), Deliver(0, [FIRST, SECOND], [0])));
  }

  lemma ReduceOutput()
    ensures IsReduceOutput([ONE, TWO], Print([FIRST, SECOND]), SmallJob().reducef)
  {
    RoundTrip([FIRST, SECOND]);
    TwoLines();
    SortedPairs();
  }

  // The reduce task, with the given retries, is granted to worker w.
  lemma GrantStep(retries: nat, w: int)
    ensures Grant(After(R(NotStarted, -1, retries)), w) ==
            (After(R(InProgress, w, retries)), Some(R(InProgress, w, retries)))
  {
    var c := After(R(NotStarted, -1, retries));
    assert !Grantable(c.tasks[0]) && Grantable(c.tasks[1]);
    assert FirstGrantable(c.tasks, 0) == FirstGrantable(c.tasks, 1) == Some(1);
    assert c.tasks[1 := R(InProgress, w, retries)] == [M(Completed, 0), R(InProgress, w, retries)];
  }

  lemma TimeoutStep()
    ensures Sweep(After(R(InProgress, 0, 0)).tasks, {1}, 0).0 == After(R(NotStarted, -1, 1)).tasks
  {
    var tasks := After(R(InProgress, 0, 0)).tasks;
    assert tasks[0 := Swept(tasks[0], false)] == tasks;
  }

  lemma DoneStep()
    ensures Sweep(After(R(Completed, 1, 1)).tasks, {}, 0) == (After(R(Completed, 1, 1)).tasks, true)
  {
    var tasks := After(R(Completed, 1, 1)).tasks;
    assert tasks[0 := Swept(tasks[0], false)] == tasks && tasks[1 := Swept(tasks[1], false)] == tasks;
    assert Sweep(tasks, {}, 2) == (tasks, true);
    assert Sweep(tasks, {}, 1) == (tasks, true);
  }

  lemma ReportStep()
    ensures Absorb(After(R(InProgress, 1, 1)), ReduceReport()) == After(R(Completed, 1, 1))
  {
    var c := After(R(InProgress, 1, 1));
    assert FirstMatch(c.tasks, ReduceReport(), 1) == Some(1);
    assert c.tasks[1 := R(Completed, 1, 1)] == [M(Completed, 0), R(Completed, 1, 1)];
  }

  lemma RequestStep(retries: nat, w: int, x: Worker)
    requires w == 0 || w == 1
    requires w == 0 ==> x == Idle
    ensures var u := Working(R(InProgress, w, retries));
            Goes(Fresh(R(NotStarted, -1, retries), x, Idle), Request(w, false),
                 Fresh(R(InProgress, w, retries), if w == 0 then u else x, if w == 0 then Idle else u))
  {
    GrantStep(retries, w);
  }

  lemma CheckStep(x: Worker)
    ensures Goes(Fresh(R(InProgress, 0, 0), x, Idle), Check({1}), Fresh(R(NotStarted, -1, 1), x, Idle))
  {
    TimeoutStep();
  }

  lemma FirstOpenStep(t: Task, x: Worker)
    ensures Goes(Fresh(t, x, Working(R(InProgress, 1, 1))), Open(1, [ONE, TWO]), Filling(t, x, Prompt(0), [], Maker(1, false)))
  {
    ReduceOutput();
  }

  lemma SecondOpenEnabled(t: Task, y: Worker, file: OutFile, maker: Maker)
    ensures Enabled(SmallJob(), Filling(t, Working(R(InProgress, 0, 0)), y, file, maker), Open(0, [ONE, TWO]))
  {
    ReduceOutput();
  }

  lemma SecondOpenStep(t: Task, y: Worker, file: OutFile, maker: Maker)
    ensures Goes(Filling(t, Working(R(InProgress, 0, 0)), y, file, maker), Open(0, [ONE, TWO]),
                 Filling(t, Late(0), y, [], Maker(0, false)))
  {
    SecondOpenEnabled(t, y, file, maker);
    assert map[0 := file][0 := []] == map[0 := []] && map[0 := maker][0 := Maker(0, false)] == map[0 := Maker(0, false)];
    assert map[0 := Working(R(InProgress, 0, 0)), 1 := y][0 := Late(0)] == map[0 := Late(0), 1 := y];
  }

  lemma WriteStep(t: Task, x: Worker, pos: nat, file: OutFile, maker: Maker)
    requires pos < 2
    ensures Goes(Filling(t, x, Prompt(pos), file, maker), Write(1),
                 Filling(t, x, Prompt(pos + 1), WriteAt(file, pos, [ONE, TWO][pos]), maker))
  {
  }

  lemma Written()
    ensures WriteAt([], 0, ONE) == [Some(ONE)] && WriteAt([Some(ONE)], 1, TWO) == [Some(ONE), Some(TWO)]
    ensures WriteAt([], 1, TWO) == [None, Some(TWO)]
  {
  }

  lemma CloseStep(t: Task, x: Worker, file: OutFile, maker: Maker)
    ensures Goes(Filling(t, x, Prompt(2), file, maker), Close(1),
                 Filling(t, x, Reporting(ReduceReport()), file, if maker.worker == 1 then Maker(1, true) else maker))
  {
    assert map[0 := maker][0 := Maker(1, true)] == map[0 := Maker(1, true)];
  }

  lemma DeliverStep(x: Worker, file: OutFile, maker: Maker)
    ensures Goes(Filling(R(InProgress, 1, 1), x, Reporting(ReduceReport()), file, maker), Deliver(1, [], []),
                 Filling(R(Completed, 1, 1), x, Idle, file, maker))
  {
    ReportStep();
  }

  lemma MapPhase(k: nat)
    requires k < 5
    ensures Goes(Head()[k], HeadSteps()[k], Head()[k + 1])
  {
    if k < 2 {
      JoinSteps();
    } else if k < 4 {
      MapSteps();
    } else {
      ShuffleStep();
    }
  }

  lemma ReducePhase(k: nat)
    requires 5 <= k < 8
    ensures Goes(Head()[k], HeadSteps()[k], Head()[k + 1])
  {
    var x := Working(R(InProgress, 0, 0));
    if k == 5 {
      RequestStep(0, 0, Idle);
    } else if k == 6 {
      CheckStep(x);
    } else {
      RequestStep(1, 1, x);
    }
  }

  lemma WritePhase(k: nat)
    requires 8 <= k < 10
    ensures Goes(Head()[k], HeadSteps()[k], Head()[k + 1])
  {
    var x := Working(R(InProgress, 0, 0));
    if k == 8 {
      FirstOpenStep(R(InProgress, 1, 1), x);
    } else {
      WriteStep(R(InProgress, 1, 1), x, 0, [], Maker(1, false));
      Written();
    }
  }

  // The tail goes on from the head.
  ghost predicate Continues(tail: seq<System>, steps: seq<Step>, k: nat)
    requires k < |steps| == |tail|
  {
    Goes(if k == 0 then Head()[10] else tail[k - 1], steps[k], tail[k])
  }

  lemma LatePhase(k: nat)
    requires k < 4
    ensures Continues(LateTail(), LateSteps(), k)
  {
    var x := Working(R(InProgress, 0, 0));
    if k == 0 {
      WriteStep(R(InProgress, 1, 1), x, 1, [Some(ONE)], Maker(1, false));
      Written();
    } else if k == 1 {
      CloseStep(R(InProgress, 1, 1), x, [Some(ONE), Some(TWO)], Maker(1, false));
    } else if k == 2 {
      DeliverStep(x, [Some(ONE), Some(TWO)], Maker(1, true));
    } else {
      SecondOpenStep(R(Completed, 1, 1), Idle, [Some(ONE), Some(TWO)], Maker(1, true));
    }
  }

  lemma OverlapPhase(k: nat)
    requires k < 4
    ensures Continues(OverlapTail(), OverlapSteps(), k)
  {
    if k == 0 {
      SecondOpenStep(R(InProgress, 1, 1), Prompt(1), [Some(ONE)], Maker(1, false));
    } else if k == 1 {
      WriteStep(R(InProgress, 1, 1), Late(0), 1, [], Maker(0, false));
      Written();
    } else if k == 2 {
      CloseStep(R(InProgress, 1, 1), Late(0), [None, Some(TWO)], Maker(0, false));
    } else {
      DeliverStep(Late(0), [None, Some(TWO)], Maker(0, false));
    }
  }

  lemma JobPairs()
    ensures MapOutput(SmallJob(), 0) == [FIRST, SECOND] && AllPairs(SmallJob(), 1) == [FIRST, SECOND]
  {
    assert AllPairs(SmallJob(), 0) == [];
  }

  lemma JobIsFair()
    ensures CleanJob(SmallJob()) && OrderInsensitive(SmallJob().reducef) && IsSequentialOutput(SmallJob(), [ONE, TWO])
  {
    JobPairs();
    TwoLines();
    SortedPairs();
    assert CleanText([97]) && CleanText([98]) && CleanText([49]);
  }

  // A run of the head and one of the tails.
  lemma IsSmallRun(tail: seq<System>, steps: seq<Step>)
    requires |tail| == |steps| && forall k: nat | k < |steps| :: Continues(tail, steps, k)
    ensures IsRun(SmallJob(), 1, Head() + tail, HeadSteps() + steps)
  {
    var run, all := Head() + tail, HeadSteps() + steps;
    assert MapTasks([NAME]) == [M(NotStarted, -1)];
    forall k | 0 <= k < |all|
      ensures Enabled(SmallJob(), run[k], all[k]) && run[k + 1] == Next(SmallJob(), run[k], all[k])
    {
      if k < 5 {
        MapPhase(k);
      } else if k < 8 {
        ReducePhase(k);
      } else if k < 10 {
        WritePhase(k);
      } else {
        var j := k - 10;
        assert Continues(tail, steps, j);
      }
    }
  }

  lemma HeadIsClean()
    ensures NoErrors(HeadSteps()) && NoSkips(Head())
  {
  }

  lemma StaysClean(tail: seq<System>, steps: seq<Step>)
    requires NoErrors(steps) && NoSkips(tail)
    ensures NoErrors(HeadSteps() + steps) && NoSkips(Head() + tail)
  {
    HeadIsClean();
    AllClean(Head(), HeadSteps(), tail, steps);
  }

  lemma AllClean(head: seq<System>, before: seq<Step>, tail: seq<System>, steps: seq<Step>)
    requires NoErrors(before) && NoSkips(head) && NoErrors(steps) && NoSkips(tail)
    ensures NoErrors(before + steps) && NoSkips(head + tail)
  {
  }

  lemma SmallRun(tail: seq<System>, steps: seq<Step>)
    requires |tail| == |steps| == 4 && forall k: nat | k < 4 :: Continues(tail, steps, k)
    requires NoErrors(steps) && NoSkips(tail)
    ensures IsRun(SmallJob(), 1, Head() + tail, HeadSteps() + steps)
    ensures NoErrors(HeadSteps() + steps) && NoSkips(Head() + tail) && (Head() + tail)[14] == tail[3]
  {
    IsSmallRun(tail, steps);
    StaysClean(tail, steps);
  }

  lemma LateIsClean()
    ensures NoErrors(LateSteps()) && NoSkips(LateTail()) && IsDone(LateTail()[3], {})
  {
    DoneStep();
  }

  lemma OverlapIsClean()
    ensures NoErrors(OverlapSteps()) && NoSkips(OverlapTail()) && IsDone(OverlapTail()[3], {})
  {
    DoneStep();
  }

  // A file that does not hold both lines is not the output.
  lemma LineIsLost(file: OutFile)
    requires Some(ONE) !in file
    ensures AllLines(map[0 := file], 1) != multiset(Slots([ONE, TWO]))
  {
    assert AllLines(map[0 := file], 0) == multiset{} && FileLines(map[0 := file], 0) == multiset(file);
    assert Slots([ONE, TWO])[0] == Some(ONE);
    assert Some(ONE) in multiset(Slots([ONE, TWO]));
  }

  /** In this run no task is skipped and no worker reports an error, Done returns true, and all lines of the
      output are lost, because a late worker has created the file again. */
  lemma LateWriterLosesOutput()
    ensures CleanJob(SmallJob()) && OrderInsensitive(SmallJob().reducef) && IsSequentialOutput(SmallJob(), [ONE, TWO])
    ensures var run, steps := Head() + LateTail(), HeadSteps() + LateSteps();
            && IsRun(SmallJob(), 1, run, steps) && NoErrors(steps) && NoSkips(run) && IsDone(run[14], {})
            && run[14].outputs == map[0 := []] && AllLines(run[14].outputs, 1) != multiset(Slots([ONE, TWO]))
  {
    JobIsFair();
    forall k: nat | k < 4 ensures Continues(LateTail(), LateSteps(), k) {
      LatePhase(k);
    }
    LateIsClean();
    SmallRun(LateTail(), LateSteps());
    LineIsLost([]);
  }

  /** The same when the file is created again while it is written: the worker that completes the task goes on
      at its own position and leaves a hole, although it writes and closes the file without an error. */
  lemma OverlapLeavesHole()
    ensures CleanJob(SmallJob()) && OrderInsensitive(SmallJob().reducef) && IsSequentialOutput(SmallJob(), [ONE, TWO])
    ensures var run, steps := Head() + OverlapTail(), HeadSteps() + OverlapSteps();
            && IsRun(SmallJob(), 1, run, steps) && NoErrors(steps) && NoSkips(run) && IsDone(run[14], {})
            && run[14].outputs == map[0 := [None, Some(TWO)]]
            && AllLines(run[14].outputs, 1) != multiset(Slots([ONE, TWO]))
  {
    JobIsFair();
    forall k: nat | k < 4 ensures Continues(OverlapTail(), OverlapSteps(), k) {
      OverlapPhase(k);
    }
    OverlapIsClean();
    SmallRun(OverlapTail(), OverlapSteps());
    LineIsLost([None, Some(TWO)]);
  }
}
