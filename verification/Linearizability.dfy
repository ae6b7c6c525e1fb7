/** Any number of concurrent clerk calls over a network that loses requests before they run and replies
    after they run, and the proof that every history they produce is linearizable. */
module Linearizability {
  import opened KvServer
  import opened KvModel
  import opened Clerk
  import opened Options

  // What the server answers to a call: the error of a put, or what a get found.
  datatype Answer = Put(err: Err) | Got(reply: GetReply<string>)

  // An attempt is on its way, or has run and its reply is on its way back, or the call has returned.
  datatype Phase = Sending | Ran(answer: Answer) | Returned(output: Output)

  /** One clerk call. Whether it took effect and the point at which it is linearized are kept for the
      record, as are the places in the log at which it began and ended. */
  datatype Call = Call(input: Input, retried: bool, phase: Phase, effect: bool, point: Option<nat>,
                       began: nat, ended: nat)

  // One execution at the server, in the order in which they happen.
  datatype Exec = Exec(call: nat, input: Input, answer: Answer)

  datatype System = System(store: Store<string>, calls: seq<Call>, log: seq<Exec>)

  datatype Step = Invoke(input: Input) | Execute(i: nat) | LoseRequest(i: nat) | LoseReply(i: nat) | Return(i: nat)

  ghost predicate Init(s: System) {
    s == System(map[], [], [])
  }

  ghost predicate Enabled(s: System, step: Step) {
    match step
    case Invoke(_) => true
    case Execute(i) => i < |s.calls| && s.calls[i].phase == Sending
    case LoseRequest(i) => i < |s.calls| && s.calls[i].phase == Sending
    case LoseReply(i) => i < |s.calls| && s.calls[i].phase.Ran?
    case Return(i) => i < |s.calls| && s.calls[i].phase.Ran?
  }

  function Serve(store: Store<string>, input: Input): (Store<string>, Answer) {
    match input
    case GetIn(key) => (store, Got(GetOf(store, key)))
    case PutIn(key, value, version) => var (after, err) := PutOf(store, key, value, version); (after, Put(err))
  }

  // What the clerk returns to its caller.
  function OutputOf(retried: bool, answer: Answer): Output {
    match answer
    case Put(err) => Output("", 0, ClerkErr(retried, err))
    case Got(Found(value, version)) => Output(value, version, OK)
    case Got(NoKey) => Output("", 0, ErrNoKey)
  }

  ghost function Next(s: System, step: Step): System
    requires Enabled(s, step)
  {
    match step
    case Invoke(input) =>
      s.(calls := s.calls + [Call(input, false, Sending, false, None, |s.log|, 0)])
    case Execute(i) =>
      var c := s.calls[i];
      var (store, answer) := Serve(s.store, c.input);
      System(store,
             s.calls[i := c.(phase := Ran(answer), effect := c.effect || answer == Put(OK),
                             point := if c.effect then c.point else Some(|s.log|))],
             s.log + [Exec(i, c.input, answer)])
    case LoseRequest(i) => s.(calls := s.calls[i := s.calls[i].(retried := true)])
    case LoseReply(i) => s.(calls := s.calls[i := s.calls[i].(retried := true, phase := Sending)])
    case Return(i) =>
      var c := s.calls[i];
      s.(calls := s.calls[i := c.(phase := Returned(OutputOf(c.retried, c.phase.answer)), ended := |s.log|)])
  }

  ghost predicate IsRun(run: seq<System>, steps: seq<Step>) {
    && |run| == |steps| + 1 && Init(run[0])
    && forall i | 0 <= i < |steps| :: Enabled(run[i], steps[i]) && run[i + 1] == Next(run[i], steps[i])
  }

  /** The state of one key as the model sees it, from the store and from the log. */

  function KeyState(store: Store<string>, key: Key): State {
    if key in store then State(store[key].value, store[key].version) else INIT
  }

  ghost function Effective(e: Exec): bool {
    e.answer == Put(OK) && e.input.PutIn?
  }

  // The state of a key after the first n executions: the effective puts on it decide.
  ghost function StateAt(log: seq<Exec>, key: Key, n: nat): State
    requires n <= |log|
  {
    if n == 0 then INIT
    else if Effective(log[n - 1]) && log[n - 1].input.key == key then
      State(log[n - 1].input.value, StateAt(log, key, n - 1).version + 1)
    else StateAt(log, key, n - 1)
  }

  // An execution answered what the state of its key demands.
  ghost predicate Answered(e: Exec, st: State) {
    match e.input
    case GetIn(_) => e.answer == Got(if st.version == 0 then NoKey else Found(st.value, st.version))
    case PutIn(_, _, version) =>
      e.answer == Put(if st.version == version then OK else if st.version == 0 then ErrNoKey else ErrVersion)
  }

  ghost predicate AnsweredAt(log: seq<Exec>, k: nat)
    requires k < |log|
  {
    Answered(log[k], StateAt(log, log[k].input.key, k))
  }

  /** The invariant. */

  ghost predicate LogOk(s: System) {
    && (forall k | 0 <= k < |s.log| :: s.log[k].call < |s.calls| && s.log[k].input == s.calls[s.log[k].call].input)
    && (forall k: nat | k < |s.log| :: AnsweredAt(s.log, k))
  }

  ghost predicate StoreOk(s: System) {
    && WellFormed(s.store)
    && forall key :: KeyState(s.store, key) == StateAt(s.log, key, |s.log|)
  }

  ghost predicate CallOk(s: System, i: nat)
    requires i < |s.calls|
  {
    var c := s.calls[i];
    && c.began <= |s.log|
    // The point is an execution of the call inside its window.
    && (c.point.Some? ==>
          c.began <= c.point.value < |s.log| && s.log[c.point.value].call == i
          && (c.phase.Returned? ==> c.point.value < c.ended <= |s.log|)
          && (c.effect <==> Effective(s.log[c.point.value])))
    && (c.phase != Sending ==> c.point.Some?)
    && (c.effect ==> c.point.Some? && c.input.PutIn? && VersionOf(s.store, c.input.key) > c.input.version)
    && (c.point.Some? && !c.effect && !c.retried ==> c.phase != Sending)
    && (c.effect && !c.retried ==> c.phase != Sending)
    // What has come back, or is on its way back.
    && (c.phase.Ran? ==> MatchesPoint(s, c, OutputOf(c.retried, c.phase.answer)) && (c.phase.answer.Put? <==> c.input.PutIn?))
    && (c.phase.Returned? ==> MatchesPoint(s, c, c.phase.output))
  }

  // The output of a call, seen from its point: a put that took effect reports OK or ErrMaybe, any other
  // call reports the answer it was given at its point.
  ghost predicate MatchesPoint(s: System, c: Call, output: Output)
    requires c.point.Some? && c.point.value < |s.log|
  {
    if c.effect then output.err == OK || output.err == ErrMaybe
    else
      var e := s.log[c.point.value];
      output == OutputOf(false, e.answer) || (e.answer == Put(ErrVersion) && output == OutputOf(true, e.answer))
  }

  ghost predicate Inv(s: System) {
    && LogOk(s) && StoreOk(s)
    && (forall i | 0 <= i < |s.calls| :: CallOk(s, i))
    // Every effective execution is the point of its call.
    && (forall k | 0 <= k < |s.log| && Effective(s.log[k]) ::
          s.calls[s.log[k].call].effect && s.calls[s.log[k].call].point == Some(k))
  }

  lemma {:induction false} StateAtPrefix(log: seq<Exec>, e: Exec, key: Key, n: nat)
    requires n <= |log|
    ensures StateAt(log + [e], key, n) == StateAt(log, key, n)
    decreases n
  {
    if n > 0 {
      StateAtPrefix(log, e, key, n - 1);
    }
  }

  // One execution, seen through the state of the keys.
  lemma ServeMeaning(store: Store<string>, input: Input, call: nat)
    requires WellFormed(store)
    ensures var (after, answer) := Serve(store, input);
            var e := Exec(call, input, answer);
            && WellFormed(after)
            && Answered(e, KeyState(store, input.key))
            && (forall key :: KeyState(after, key) ==
                  if Effective(e) && key == input.key then State(input.value, KeyState(store, key).version + 1)
                  else KeyState(store, key))
  {
    if input.PutIn? {
      PutMeaning(store, input.key, input.value, input.version);
    }
  }

  // Running one request keeps the store and the log in step.
  lemma ExecuteKeepsStore(s: System, i: nat)
    requires StoreOk(s) && Enabled(s, Execute(i))
    ensures StoreOk(Next(s, Execute(i)))
  {
    var c := s.calls[i];
    var e := Exec(i, c.input, Serve(s.store, c.input).1);
    ServeMeaning(s.store, c.input, i);
    var t := Next(s, Execute(i));
    assert t.log == s.log + [e] && t.store == Serve(s.store, c.input).0;
    StoreFollowsLog(s.store, Serve(s.store, c.input).0, s.log, e);
  }

  lemma {:induction false} StoreFollowsLog(store: Store<string>, after: Store<string>, log: seq<Exec>, e: Exec)
    requires forall key :: KeyState(store, key) == StateAt(log, key, |log|)
    requires forall key :: KeyState(after, key) ==
               if Effective(e) && key == e.input.key then State(e.input.value, KeyState(store, key).version + 1)
               else KeyState(store, key)
    ensures forall key :: KeyState(after, key) == StateAt(log + [e], key, |log| + 1)
  {
    forall key ensures KeyState(after, key) == StateAt(log + [e], key, |log| + 1) {
      StateAtPrefix(log, e, key, |log|);
      assert KeyState(store, key) == StateAt(log, key, |log|);
    }
  }

  lemma ExecutionAnswers(s: System, i: nat)
    requires StoreOk(s) && Enabled(s, Execute(i))
    ensures var c := s.calls[i];
            Answered(Exec(i, c.input, Serve(s.store, c.input).1), StateAt(s.log, c.input.key, |s.log|))
  {
    ServeMeaning(s.store, s.calls[i].input, i);
    assert KeyState(s.store, s.calls[i].input.key) == StateAt(s.log, s.calls[i].input.key, |s.log|);
  }

  lemma ExecuteKeepsLog(s: System, i: nat)
    requires LogOk(s) && StoreOk(s) && Enabled(s, Execute(i))
    ensures LogOk(Next(s, Execute(i)))
  {
    var e := Exec(i, s.calls[i].input, Serve(s.store, s.calls[i].input).1);
    ExecutionAnswers(s, i);
    LogKeepsAnswers(s.log, e);
    var t := Next(s, Execute(i));
    assert t.log == s.log + [e];
    assert forall k | 0 <= k < |s.log| :: t.log[k] == s.log[k];
  }

  lemma LogKeepsAnswers(log: seq<Exec>, e: Exec)
    requires forall k: nat | k < |log| :: AnsweredAt(log, k)
    requires Answered(e, StateAt(log, e.input.key, |log|))
    ensures forall k: nat | k <= |log| :: AnsweredAt(log + [e], k)
  {
    forall k: nat | k <= |log| ensures AnsweredAt(log + [e], k) {
      var x := if k < |log| then log[k] else e;
      assert (log + [e])[k] == x;
      StateAtPrefix(log, e, x.input.key, k);
      assert k < |log| ==> AnsweredAt(log, k);
    }
  }

  lemma ExecuteRaisesVersions(s: System, i: nat)
    requires WellFormed(s.store) && Enabled(s, Execute(i))
    ensures var t := Next(s, Execute(i));
            var c := s.calls[i];
            && (forall key :: VersionOf(t.store, key) >= VersionOf(s.store, key))
            && (t.calls[i].phase.answer == Put(OK) ==>
                  c.input.PutIn? && VersionOf(t.store, c.input.key) == c.input.version + 1)
            && (c.input.PutIn? && VersionOf(s.store, c.input.key) > c.input.version ==>
                  t.calls[i].phase.answer == Put(ErrVersion))
  {
    var c := s.calls[i];
    if c.input.PutIn? {
      PutMeaning(s.store, c.input.key, c.input.value, c.input.version);
    }
  }

  lemma ExecuteKeepsCall(s: System, i: nat, j: nat)
    requires Inv(s) && Enabled(s, Execute(i)) && j < |s.calls|
    ensures CallOk(Next(s, Execute(i)), j)
  {
    var t := Next(s, Execute(i));
    assert CallOk(s, j);
    ExecuteRaisesVersions(s, i);
    assert forall k | 0 <= k < |s.log| :: t.log[k] == s.log[k];
  }

  lemma ExecuteKeepsPoints(s: System, i: nat)
    requires Inv(s) && Enabled(s, Execute(i))
    ensures var t := Next(s, Execute(i));
            forall k | 0 <= k < |t.log| && Effective(t.log[k]) ::
              t.log[k].call < |t.calls| && t.calls[t.log[k].call].effect && t.calls[t.log[k].call].point == Some(k)
  {
    var t := Next(s, Execute(i));
    ExecuteRaisesVersions(s, i);
    assert CallOk(s, i);
    forall k | 0 <= k < |t.log| && Effective(t.log[k])
      ensures t.calls[t.log[k].call].effect && t.calls[t.log[k].call].point == Some(k)
    {
      if k < |s.log| {
        assert t.log[k] == s.log[k];
      }
    }
  }

  lemma OtherStepKeepsCall(s: System, step: Step, j: nat)
    requires Inv(s) && Enabled(s, step) && !step.Execute? && j < |Next(s, step).calls|
    ensures CallOk(Next(s, step), j)
  {
    if j < |s.calls| {
      assert CallOk(s, j);
    }
  }

  lemma StepKeepsInv(s: System, step: Step)
    requires Inv(s) && Enabled(s, step)
    ensures Inv(Next(s, step))
  {
    var t := Next(s, step);
    if step.Execute? {
      ExecuteKeepsStore(s, step.i);
      ExecuteKeepsLog(s, step.i);
      ExecuteKeepsPoints(s, step.i);
      forall j | 0 <= j < |t.calls| ensures CallOk(t, j) {
        ExecuteKeepsCall(s, step.i, j);
      }
    } else {
      forall j | 0 <= j < |t.calls| ensures CallOk(t, j) {
        OtherStepKeepsCall(s, step, j);
      }
    }
  }

  lemma {:induction false} RunKeepsInv(run: seq<System>, steps: seq<Step>)
    requires IsRun(run, steps)
    ensures Inv(run[|steps|])
    decreases |steps|
  {
    if steps != [] {
      var n := |steps| - 1;
      RunKeepsInv(run[..|steps|], steps[..n]);
      StepKeepsInv(run[n], steps[n]);
    }
  }

  /** The linearization. */

  // The calls that are in it: those that have returned, and those that have taken effect.
  ghost predicate Counts(c: Call) {
    c.phase.Returned? || c.effect
  }

  // Execution k is the point of its call, and the call is in the linearization.
  ghost predicate IsPoint(s: System, k: nat) {
    k < |s.log| && s.log[k].call < |s.calls| && Counts(s.calls[s.log[k].call]) && s.calls[s.log[k].call].point == Some(k)
  }

  // The calls whose points are among the first n executions, in the order of their points.
  ghost function Order(s: System, n: nat): seq<nat>
    requires n <= |s.log|
  {
    if n == 0 then []
    else if IsPoint(s, n - 1) then Order(s, n - 1) + [s.log[n - 1].call]
    else Order(s, n - 1)
  }

  ghost function Linearization(s: System): seq<nat> {
    Order(s, |s.log|)
  }

  // A call that has taken effect but not returned is taken to report ErrMaybe.
  ghost function Reported(c: Call): Output {
    if c.phase.Returned? then c.phase.output else Output("", 0, ErrMaybe)
  }

  ghost predicate InRange(s: System, order: seq<nat>) {
    forall a | 0 <= a < |order| :: order[a] < |s.calls|
  }

  // The strict model run over the calls on one key.
  ghost function Replay(s: System, key: Key, order: seq<nat>): (bool, State)
    requires InRange(s, order)
  {
    if order == [] then (true, INIT)
    else
      var n := |order| - 1;
      var (ok, st) := Replay(s, key, order[..n]);
      var c := s.calls[order[n]];
      if c.input.key != key then (ok, st)
      else
        var (fits, after) := StrictStep(st, c.input, Reported(c));
        (ok && fits, after)
  }

  // A put of a non-zero version to a missing key; the model has no answer for it.
  ghost predicate PutToMissing(c: Call) {
    c.phase.Returned? && c.input.PutIn? && c.phase.output.err == ErrNoKey
  }

  ghost predicate NoneMissing(s: System, key: Key, order: seq<nat>)
    requires InRange(s, order)
  {
    forall a | 0 <= a < |order| && s.calls[order[a]].input.key == key :: !PutToMissing(s.calls[order[a]])
  }

  lemma {:induction false} OrderInRange(s: System, n: nat)
    requires n <= |s.log|
    ensures InRange(s, Order(s, n)) && forall a | 0 <= a < |Order(s, n)| :: Counts(s.calls[Order(s, n)[a]])
    decreases n
  {
    if n > 0 {
      OrderInRange(s, n - 1);
    }
  }

  // The model accepts a call at its point, unless it is a put to a missing key, and agrees on the state.
  lemma {:induction false} PointFits(s: System, k: nat)
    requires Inv(s) && IsPoint(s, k)
    ensures var c := s.calls[s.log[k].call];
            var (fits, after) := StrictStep(StateAt(s.log, c.input.key, k), c.input, Reported(c));
            (fits <==> !PutToMissing(c)) && after == StateAt(s.log, c.input.key, k + 1)
  {
    assert CallOk(s, s.log[k].call) && AnsweredAt(s.log, k);
    StateShape(s, s.calls[s.log[k].call].input.key, k);
  }

  lemma {:induction false} StateShape(s: System, key: Key, n: nat)
    requires n <= |s.log|
    ensures StateAt(s.log, key, n).version == 0 ==> StateAt(s.log, key, n) == INIT
    decreases n
  {
    if n > 0 {
      StateShape(s, key, n - 1);
    }
  }

  // The model run over one more call.
  lemma ReplayLast(s: System, key: Key, order: seq<nat>, i: nat)
    requires InRange(s, order) && i < |s.calls|
    ensures InRange(s, order + [i])
    ensures var (ok, st) := Replay(s, key, order);
            var (fits, after) := StrictStep(st, s.calls[i].input, Reported(s.calls[i]));
            Replay(s, key, order + [i]) == if s.calls[i].input.key == key then (ok && fits, after) else (ok, st)
    ensures NoneMissing(s, key, order + [i]) <==>
              NoneMissing(s, key, order) && (s.calls[i].input.key == key ==> !PutToMissing(s.calls[i]))
  {
    var more := order + [i];
    assert more[..|order|] == order && more[|order|] == i;
    if NoneMissing(s, key, more) {
      forall a | 0 <= a < |order| && s.calls[order[a]].input.key == key ensures !PutToMissing(s.calls[order[a]]) {
        assert more[a] == order[a];
      }
    }
  }

  lemma EffectsArePoints(s: System, k: nat)
    requires Inv(s) && k < |s.log|
    ensures Effective(s.log[k]) ==> IsPoint(s, k)
  {
  }

  // After the points among the first n executions the model is where the log is.
  ghost predicate Agrees(s: System, key: Key, n: nat)
    requires n <= |s.log|
  {
    && InRange(s, Order(s, n))
    && Replay(s, key, Order(s, n)) == (NoneMissing(s, key, Order(s, n)), StateAt(s.log, key, n))
  }

  lemma AgreesAtPoint(s: System, key: Key, n: nat)
    requires 0 < n <= |s.log| && IsPoint(s, n - 1) && Agrees(s, key, n - 1)
    requires var c := s.calls[s.log[n - 1].call];
             StrictStep(StateAt(s.log, c.input.key, n - 1), c.input, Reported(c)) ==
             (!PutToMissing(c), StateAt(s.log, c.input.key, n))
    requires s.log[n - 1].input == s.calls[s.log[n - 1].call].input
    ensures Agrees(s, key, n)
  {
    ReplayLast(s, key, Order(s, n - 1), s.log[n - 1].call);
  }

  lemma AgreesBeside(s: System, key: Key, n: nat)
    requires 0 < n <= |s.log| && !IsPoint(s, n - 1) && !Effective(s.log[n - 1]) && Agrees(s, key, n - 1)
    ensures Agrees(s, key, n)
  {
    assert Order(s, n) == Order(s, n - 1);
    assert StateAt(s.log, key, n) == StateAt(s.log, key, n - 1);
  }

  lemma {:induction false} ReplayFollowsLog(s: System, key: Key, n: nat)
    requires Inv(s) && n <= |s.log|
    ensures Agrees(s, key, n)
    decreases n
  {
    if n == 0 {
      assert Order(s, 0) == [];
    } else {
      ReplayFollowsLog(s, key, n - 1);
      if IsPoint(s, n - 1) {
        PointFits(s, n - 1);
        AgreesAtPoint(s, key, n);
      } else {
        EffectsArePoints(s, n - 1);
        AgreesBeside(s, key, n);
      }
    }
  }

  // The place in the order of the call whose point is k.
  lemma {:induction false} PlaceOf(s: System, n: nat, k: nat) returns (a: nat)
    requires k < n <= |s.log| && IsPoint(s, k)
    ensures a < |Order(s, n)| && Order(s, n)[a] == s.log[k].call
    decreases n
  {
    if k == n - 1 {
      a := |Order(s, n)| - 1;
    } else {
      a := PlaceOf(s, n - 1, k);
    }
  }

  lemma {:induction false} OrderBelow(s: System, n: nat, a: nat)
    requires n <= |s.log| && a < |Order(s, n)|
    ensures var i := Order(s, n)[a];
            i < |s.calls| && Counts(s.calls[i]) && s.calls[i].point.Some? && s.calls[i].point.value < n
    decreases n
  {
    if n > 0 && a < |Order(s, n - 1)| {
      OrderBelow(s, n - 1, a);
    }
  }

  lemma {:induction false} OrderIsByPoint(s: System, n: nat, a: nat, b: nat)
    requires n <= |s.log| && a < b < |Order(s, n)|
    ensures InRange(s, Order(s, n))
    ensures var o := Order(s, n);
            && s.calls[o[a]].point.Some? && s.calls[o[b]].point.Some?
            && s.calls[o[a]].point.value < s.calls[o[b]].point.value
    decreases n
  {
    OrderInRange(s, n);
    if n > 0 {
      if b < |Order(s, n - 1)| {
        OrderIsByPoint(s, n - 1, a, b);
      } else {
        OrderBelow(s, n - 1, a);
      }
    }
  }

  // Call i returned before call j began.
  ghost predicate Precedes(s: System, i: nat, j: nat)
    requires i < |s.calls| && j < |s.calls|
  {
    s.calls[i].phase.Returned? && s.calls[i].ended <= s.calls[j].began
  }

  lemma OrderKeepsRealTime(s: System, a: nat, b: nat)
    requires Inv(s) && a < b < |Linearization(s)|
    ensures var o := Linearization(s);
            InRange(s, o) && o[a] != o[b] && !Precedes(s, o[b], o[a])
  {
    var o := Linearization(s);
    OrderIsByPoint(s, |s.log|, a, b);
    assert CallOk(s, o[a]) && CallOk(s, o[b]);
  }

  lemma AllReturnedAreOrdered(s: System, i: nat)
    requires Inv(s) && i < |s.calls| && s.calls[i].phase.Returned?
    ensures exists a :: 0 <= a < |Linearization(s)| && Linearization(s)[a] == i
  {
    assert CallOk(s, i);
    var k := s.calls[i].point.value;
    assert IsPoint(s, k);
    var a := PlaceOf(s, |s.log|, k);
    assert Linearization(s)[a] == i;
  }

  /** Every history is linearizable. There is one order of the calls in which every call that has returned
      occurs exactly once, a call that returned before another began comes before it, and the model, with
      the versions of gets checked too, accepts the calls of each key and ends in the state of the store;
      it accepts them if and only if no put to a missing key among them returned ErrNoKey. */
  lemma HistoryIsLinearizable(run: seq<System>, steps: seq<Step>)
    requires IsRun(run, steps)
    ensures var s := run[|steps|];
            var order := Linearization(s);
            && InRange(s, order)
            && (forall i | 0 <= i < |s.calls| && s.calls[i].phase.Returned? ::
                  exists a :: 0 <= a < |order| && order[a] == i)
            && (forall a, b | 0 <= a < b < |order| :: order[a] != order[b] && !Precedes(s, order[b], order[a]))
            && (forall key ::
                  && Replay(s, key, order).1 == KeyState(s.store, key)
                  && (Replay(s, key, order).0 <==>
                      forall i | 0 <= i < |s.calls| && s.calls[i].input.key == key :: !PutToMissing(s.calls[i])))
  {
    RunKeepsInv(run, steps);
    var s := run[|steps|];
    var order := Linearization(s);
    OrderInRange(s, |s.log|);
    forall i | 0 <= i < |s.calls| && s.calls[i].phase.Returned?
      ensures exists a :: 0 <= a < |order| && order[a] == i
    {
      AllReturnedAreOrdered(s, i);
    }
    forall a, b | 0 <= a < b < |order| ensures order[a] != order[b] && !Precedes(s, order[b], order[a]) {
      OrderKeepsRealTime(s, a, b);
    }
    forall key
      ensures Replay(s, key, order).1 == KeyState(s.store, key)
              && (Replay(s, key, order).0 <==>
                  forall i | 0 <= i < |s.calls| && s.calls[i].input.key == key :: !PutToMissing(s.calls[i]))
    {
      ReplayFollowsLog(s, key, |s.log|);
      MissingCalls(s, key);
    }
  }

  lemma MissingCalls(s: System, key: Key)
    requires Inv(s) && InRange(s, Linearization(s))
    ensures NoneMissing(s, key, Linearization(s)) <==>
            forall i | 0 <= i < |s.calls| && s.calls[i].input.key == key :: !PutToMissing(s.calls[i])
  {
    var order := Linearization(s);
    forall i | 0 <= i < |s.calls| && s.calls[i].input.key == key && PutToMissing(s.calls[i])
      ensures !NoneMissing(s, key, order)
    {
      AllReturnedAreOrdered(s, i);
      var a :| 0 <= a < |order| && order[a] == i;
    }
  }

  // The places at which a call began and ended, once it has, never change, and the log only grows.
  lemma StepKeepsTimes(s: System, step: Step, i: nat)
    requires Enabled(s, step) && i < |s.calls|
    ensures var t := Next(s, step);
            && i < |t.calls| && |s.log| <= |t.log| && t.calls[i].began == s.calls[i].began
            && (s.calls[i].phase.Returned? ==> t.calls[i] == s.calls[i])
  {
  }

  lemma {:induction false} TimesStay(run: seq<System>, steps: seq<Step>, k: nat, i: nat)
    requires IsRun(run, steps) && k <= |steps| && i < |run[k].calls|
    ensures var s, t := run[k], run[|steps|];
            && i < |t.calls| && |s.log| <= |t.log| && t.calls[i].began == s.calls[i].began
            && (s.calls[i].phase.Returned? ==> t.calls[i] == s.calls[i])
    decreases |steps|
  {
    if k < |steps| {
      var n := |steps| - 1;
      TimesStay(run[..|steps|], steps[..n], k, i);
      StepKeepsTimes(run[n], steps[n], i);
    }
  }

  /** Real time is the order of the steps: a call that returns before another is invoked precedes it, so the
      linearization never puts it after the other. */
  lemma ReturnedBeforeInvoked(run: seq<System>, steps: seq<Step>, k: nat, m: nat)
    requires IsRun(run, steps) && k < m < |steps| && steps[k].Return? && steps[m].Invoke?
    ensures var s := run[|steps|];
            steps[k].i < |s.calls| && |run[m].calls| < |s.calls| && Precedes(s, steps[k].i, |run[m].calls|)
  {
    TimesStay(run[..m + 1], steps[..m], k + 1, steps[k].i);
    TimesStay(run, steps, k + 1, steps[k].i);
    TimesStay(run, steps, m + 1, |run[m].calls|);
  }

  /** What calls return. */

  // The last execution of a call.
  ghost predicate IsLastRun(s: System, i: nat, k: nat) {
    k < |s.log| && s.log[k].call == i && forall m | k < m < |s.log| :: s.log[m].call != i
  }

  ghost predicate Carried(s: System, i: nat, k: nat)
    requires i < |s.calls|
  {
    var c := s.calls[i];
    IsLastRun(s, i, k) &&
    (c.phase.Ran? ==> c.phase.answer == s.log[k].answer) &&
    (c.phase.Returned? ==> c.phase.output == OutputOf(c.retried, s.log[k].answer))
  }

  // The answer on its way back, or returned, is that of the last execution.
  ghost predicate AnswersOk(s: System) {
    && (forall k | 0 <= k < |s.log| :: s.log[k].call < |s.calls|)
    && forall i: nat | i < |s.calls| && s.calls[i].phase != Sending :: exists k: nat :: Carried(s, i, k)
  }

  lemma ExecuteIsLastRun(s: System, i: nat)
    requires AnswersOk(s) && Enabled(s, Execute(i))
    ensures AnswersOk(Next(s, Execute(i)))
  {
    var t := Next(s, Execute(i));
    forall j: nat | j < |t.calls| && t.calls[j].phase != Sending ensures exists k: nat :: Carried(t, j, k) {
      if j == i {
        assert Carried(t, i, |s.log|);
      } else {
        var k: nat :| Carried(s, j, k);
        assert Carried(t, j, k);
      }
    }
  }

  lemma StepKeepsAnswers(s: System, step: Step)
    requires AnswersOk(s) && Enabled(s, step)
    ensures AnswersOk(Next(s, step))
  {
    if step.Execute? {
      ExecuteIsLastRun(s, step.i);
    } else {
      var t := Next(s, step);
      forall j: nat | j < |t.calls| && t.calls[j].phase != Sending ensures exists k: nat :: Carried(t, j, k) {
        var k: nat :| Carried(s, j, k);
        assert Carried(t, j, k);
      }
    }
  }

  // A message of the call was lost.
  ghost predicate LostOne(steps: seq<Step>, i: nat) {
    exists k :: 0 <= k < |steps| && (steps[k] == LoseRequest(i) || steps[k] == LoseReply(i))
  }

  lemma LostLast(steps: seq<Step>, i: nat)
    requires steps != []
    ensures var n := |steps| - 1;
            LostOne(steps, i) <==> LostOne(steps[..n], i) || steps[n] == LoseRequest(i) || steps[n] == LoseReply(i)
  {
    var n := |steps| - 1;
    if LostOne(steps[..n], i) {
      var k :| 0 <= k < n && (steps[..n][k] == LoseRequest(i) || steps[..n][k] == LoseReply(i));
      assert steps[k] == steps[..n][k];
    }
    if LostOne(steps, i) {
      var k :| 0 <= k < |steps| && (steps[k] == LoseRequest(i) || steps[k] == LoseReply(i));
      assert k < n ==> steps[..n][k] == steps[k];
    }
  }

  // A call counts as sent more than once exactly when one of its messages was lost.
  lemma {:induction false} RetriedMeansLost(run: seq<System>, steps: seq<Step>)
    requires IsRun(run, steps)
    ensures AnswersOk(run[|steps|])
    ensures forall i: nat :: LostOne(steps, i) <==> i < |run[|steps|].calls| && run[|steps|].calls[i].retried
    decreases |steps|
  {
    if steps != [] {
      var n := |steps| - 1;
      RetriedMeansLost(run[..|steps|], steps[..n]);
      StepKeepsAnswers(run[n], steps[n]);
      forall i: nat ensures LostOne(steps, i) <==> i < |run[|steps|].calls| && run[|steps|].calls[i].retried {
        LostLast(steps, i);
        assert LostOne(steps[..n], i) <==> i < |run[n].calls| && run[n].calls[i].retried;
      }
    }
  }

  // What a call must return if its key is in this state when it runs for the last time.
  ghost function Due(input: Input, st: State, lost: bool): Output {
    match input
    case GetIn(_) => if st.version == 0 then Output("", 0, ErrNoKey) else Output(st.value, st.version, OK)
    case PutIn(_, _, version) =>
      Output("", 0, if version == st.version then OK
                    else if st.version == 0 then ErrNoKey
                    else if lost then ErrMaybe else ErrVersion)
  }

  /** In every run a call returns what the state of its key demands when the call runs for the last time: a Get the
      value and version, a Put OK exactly when it names the version, even if it was sent again, ErrNoKey for a
      missing key, and otherwise ErrVersion, or ErrMaybe if and only if one of its messages was lost. */
  lemma ReturnedAsDue(run: seq<System>, steps: seq<Step>, i: nat)
    requires IsRun(run, steps) && i < |run[|steps|].calls| && run[|steps|].calls[i].phase.Returned?
    ensures var s := run[|steps|];
            exists k: nat | k < |s.log| :: IsLastRun(s, i, k) &&
              s.calls[i].phase.output == Due(s.calls[i].input, StateAt(s.log, s.calls[i].input.key, k), LostOne(steps, i))
  {
    RunKeepsInv(run, steps);
    RetriedMeansLost(run, steps);
    var s := run[|steps|];
    var k: nat :| Carried(s, i, k);
    assert AnsweredAt(s.log, k) && s.log[k].input == s.calls[i].input;
  }

  /** The model is the server: it goes to the state that the server goes to, accepts for a Get exactly the value and
      version that are due, and for a Put exactly ErrMaybe and the error that is due, with ErrVersion in the place of
      ErrNoKey. */
  lemma ModelIsServer(store: Store<string>, input: Input, output: Output)
    requires WellFormed(store)
    ensures var (ok, after) := StrictStep(KeyState(store, input.key), input, output);
            var due := Due(input, KeyState(store, input.key), false);
            && after == KeyState(Serve(store, input).0, input.key)
            && (input.GetIn? ==> (ok <==> output.value == due.value && output.version == due.version))
            && (input.PutIn? ==>
                  (ok <==> output.err == ErrMaybe || output.err == if due.err == ErrNoKey then ErrVersion else due.err))
  {
  }

  /** A call that loses no message returns: from every state its three steps can be taken one after the other, and
      it returns what the store holds. */
  lemma QuietCallReturns(s: System, input: Input)
    requires WellFormed(s.store)
    ensures var a := Next(s, Invoke(input));
            Enabled(a, Execute(|s.calls|)) &&
            var b := Next(a, Execute(|s.calls|));
            Enabled(b, Return(|s.calls|)) &&
            var c := Next(b, Return(|s.calls|));
            && c.calls[|s.calls|].phase == Returned(Due(input, KeyState(s.store, input.key), false))
            && c.store == (if input.PutIn? then PutOf(s.store, input.key, input.value, input.version).0 else s.store)
  {
  }

  /** A put whose reply is lost runs again: it has taken effect once and reports ErrMaybe. If its request was lost
      instead it reports OK. */
  lemma LostReplyGivesMaybe(s: System, key: Key, value: string)
    requires WellFormed(s.store)
    ensures var i, v := |s.calls|, VersionOf(s.store, key);
            var a := Next(s, Invoke(PutIn(key, value, v)));
            Enabled(a, Execute(i)) &&
            var b := Next(a, Execute(i));
            Enabled(b, LoseReply(i)) &&
            var c := Next(b, LoseReply(i));
            Enabled(c, Execute(i)) &&
            var d := Next(c, Execute(i));
            Enabled(d, Return(i)) &&
            var t := Next(d, Return(i));
            t.calls[i].phase == Returned(Output("", 0, ErrMaybe)) && t.store == s.store[key := Item(key, value, v + 1)]
  {
  }

  lemma LostRequestGivesOK(s: System, key: Key, value: string)
    requires WellFormed(s.store)
    ensures var i, v := |s.calls|, VersionOf(s.store, key);
            var a := Next(s, Invoke(PutIn(key, value, v)));
            Enabled(a, LoseRequest(i)) &&
            var b := Next(a, LoseRequest(i));
            Enabled(b, Execute(i)) &&
            var c := Next(b, Execute(i));
            Enabled(c, Return(i)) &&
            var t := Next(c, Return(i));
            t.calls[i].phase == Returned(Output("", 0, OK)) && t.store == s.store[key := Item(key, value, v + 1)]
  {
  }
}
