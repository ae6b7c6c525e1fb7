/** Counting puts: the version of a key against the numbers of OK and ErrMaybe answers its clients saw. */
module PutCounts {
  import opened Clerk
  import opened KvModel
  import opened KvServer
  import opened Linearizability

  ghost predicate IsPut(c: Call, key: Key) {
    c.input.PutIn? && c.input.key == key
  }

  ghost predicate TookEffect(c: Call, key: Key) {
    IsPut(c, key) && c.effect
  }

  ghost predicate Reports(c: Call, key: Key, err: Err) {
    IsPut(c, key) && c.phase.Returned? && c.phase.output.err == err
  }

  ghost function Effects(calls: seq<Call>, key: Key): nat {
    if calls == [] then 0
    else Effects(calls[..|calls| - 1], key) + if TookEffect(calls[|calls| - 1], key) then 1 else 0
  }

  ghost function Answers(calls: seq<Call>, key: Key, err: Err): nat {
    if calls == [] then 0
    else Answers(calls[..|calls| - 1], key, err) + if Reports(calls[|calls| - 1], key, err) then 1 else 0
  }

  lemma {:induction false} EffectsAfterChange(calls: seq<Call>, key: Key, i: nat, c: Call)
    requires i < |calls|
    ensures Effects(calls[i := c], key) + (if TookEffect(calls[i], key) then 1 else 0) ==
            Effects(calls, key) + (if TookEffect(c, key) then 1 else 0)
    decreases |calls|
  {
    var n := |calls| - 1;
    if i == n {
      assert calls[i := c][..n] == calls[..n];
    } else {
      EffectsAfterChange(calls[..n], key, i, c);
      assert calls[i := c][..n] == calls[..n][i := c];
    }
  }

  lemma StepCounts(s: System, step: Step, key: Key)
    requires Inv(s) && Enabled(s, step)
    requires VersionOf(s.store, key) == Effects(s.calls, key)
    ensures VersionOf(Next(s, step).store, key) == Effects(Next(s, step).calls, key)
  {
    var t := Next(s, step);
    match step {
      case Invoke(input) => assert t.calls[..|s.calls|] == s.calls;
      case Execute(i) =>
        EffectsAfterChange(s.calls, key, i, t.calls[i]);
        ExecuteCounts(s, i, key);
      case LoseRequest(i) => EffectsAfterChange(s.calls, key, i, t.calls[i]);
      case LoseReply(i) => EffectsAfterChange(s.calls, key, i, t.calls[i]);
      case Return(i) => EffectsAfterChange(s.calls, key, i, t.calls[i]);
    }
  }

  lemma ExecuteCounts(s: System, i: nat, key: Key)
    requires Inv(s) && Enabled(s, Execute(i))
    ensures var t := Next(s, Execute(i));
            VersionOf(t.store, key) - VersionOf(s.store, key) ==
            (if TookEffect(t.calls[i], key) then 1 else 0) - (if TookEffect(s.calls[i], key) then 1 else 0)
  {
    assert CallOk(s, i);
    var c := s.calls[i];
    if c.input.PutIn? {
      PutMeaning(s.store, c.input.key, c.input.value, c.input.version);
    }
  }

  // The version of a key is the number of puts on it that have taken effect.
  lemma {:induction false} VersionCountsEffects(run: seq<System>, steps: seq<Step>, key: Key)
    requires IsRun(run, steps)
    ensures VersionOf(run[|steps|].store, key) == Effects(run[|steps|].calls, key)
    decreases |steps|
  {
    if steps != [] {
      var n := |steps| - 1;
      VersionCountsEffects(run[..|steps|], steps[..n], key);
      RunKeepsInv(run[..|steps|], steps[..n]);
      StepCounts(run[n], steps[n], key);
    }
  }

  // A returned put took effect if it reports OK, and did not if it reports ErrVersion or ErrNoKey.
  lemma ReportMeaning(s: System, i: nat)
    requires Inv(s) && i < |s.calls| && s.calls[i].input.PutIn? && s.calls[i].phase.Returned?
    ensures var c := s.calls[i];
            && (c.phase.output.err == OK ==> c.effect)
            && (c.effect ==> c.phase.output.err == OK || c.phase.output.err == ErrMaybe)
  {
    assert CallOk(s, i) && AnsweredAt(s.log, s.calls[i].point.value);
  }

  lemma {:induction false} CountsBound(s: System, key: Key, n: nat)
    requires Inv(s) && n <= |s.calls|
    ensures Answers(s.calls[..n], key, OK) <= Effects(s.calls[..n], key)
    ensures (forall i | 0 <= i < n && IsPut(s.calls[i], key) :: s.calls[i].phase.Returned?) ==>
              Effects(s.calls[..n], key) <= Answers(s.calls[..n], key, OK) + Answers(s.calls[..n], key, ErrMaybe)
    decreases n
  {
    if n > 0 {
      CountsBound(s, key, n - 1);
      assert s.calls[..n][..n - 1] == s.calls[..n - 1];
      if s.calls[n - 1].input.PutIn? && s.calls[n - 1].phase.Returned? {
        ReportMeaning(s, n - 1);
      }
    }
  }

  /** The version of a key is at least the number of puts that reported OK, and once all its puts have
      returned it is at most that number plus the number that reported ErrMaybe. */
  lemma VersionBetweenAnswers(run: seq<System>, steps: seq<Step>, key: Key)
    requires IsRun(run, steps)
    ensures var s := run[|steps|];
            && Answers(s.calls, key, OK) <= VersionOf(s.store, key)
            && ((forall i | 0 <= i < |s.calls| && IsPut(s.calls[i], key) :: s.calls[i].phase.Returned?) ==>
                  VersionOf(s.store, key) <= Answers(s.calls, key, OK) + Answers(s.calls, key, ErrMaybe))
  {
    var s := run[|steps|];
    RunKeepsInv(run, steps);
    VersionCountsEffects(run, steps, key);
    CountsBound(s, key, |s.calls|);
    assert s.calls[..|s.calls|] == s.calls;
  }

  ghost predicate LosesNothing(steps: seq<Step>) {
    forall k | 0 <= k < |steps| :: !steps[k].LoseRequest? && !steps[k].LoseReply?
  }

  ghost predicate Certain(c: Call) {
    && !c.retried
    && (c.phase.Ran? ==> c.phase.answer != Put(ErrMaybe))
    && (c.phase.Returned? && c.input.PutIn? ==> c.phase.output.err != ErrMaybe)
  }

  lemma {:induction false} NothingLostNothingRetried(run: seq<System>, steps: seq<Step>)
    requires IsRun(run, steps) && LosesNothing(steps)
    ensures forall i | 0 <= i < |run[|steps|].calls| :: Certain(run[|steps|].calls[i])
    decreases |steps|
  {
    if steps != [] {
      var n := |steps| - 1;
      NothingLostNothingRetried(run[..|steps|], steps[..n]);
      RunKeepsInv(run[..|steps|], steps[..n]);
      var s, t := run[n], run[n + 1];
      forall i | 0 <= i < |t.calls| ensures Certain(t.calls[i]) {
        if i < |s.calls| {
          assert Certain(s.calls[i]) && CallOk(s, i);
        }
      }
    }
  }

  lemma {:induction false} NoMaybes(calls: seq<Call>, key: Key)
    requires forall i | 0 <= i < |calls| && calls[i].phase.Returned? && calls[i].input.PutIn? ::
               calls[i].phase.output.err != ErrMaybe
    ensures Answers(calls, key, ErrMaybe) == 0
    decreases |calls|
  {
    if calls != [] {
      NoMaybes(calls[..|calls| - 1], key);
    }
  }

  /** The check at the end of the concurrent put test. */
  ghost function SumOk(rs: seq<ClntRes>): nat {
    if rs == [] then 0 else SumOk(rs[..|rs| - 1]) + rs[|rs| - 1].nok
  }

  ghost function SumMaybe(rs: seq<ClntRes>): nat {
    if rs == [] then 0 else SumMaybe(rs[..|rs| - 1]) + rs[|rs| - 1].nmaybe
  }

  // What a client puts, and one round of OnePut: the answer to its put, and what the get after it returns.
  datatype EntryV = EntryV(id: nat, v: Version)

  datatype Round = Round(put: Err, got: Version, entry: EntryV)

  datatype PutResult = Wrong | Unfinished | Finished(version: Version, ok: bool)

  // What a client sends in one try.
  datatype Try = Try(entry: EntryV, version: Version)

  predicate WrongValue(me: nat, ver: Version, r: Round) {
    r.put == OK && r.got == ver + 1 && r.entry.id != me && r.entry.v != ver
  }

  function ResultOf(me: nat, ver: Version, r: Round): PutResult {
    if !(r.put == OK || r.put == ErrVersion || r.put == ErrMaybe) || WrongValue(me, ver, r) then Wrong
    else if r.put == ErrVersion then Unfinished
    else Finished(r.got, r.put == OK)
  }

  // The version named in round k.
  function VersionAt(ver: Version, rounds: seq<Round>, k: nat): Version
    requires k <= |rounds|
  {
    if k == 0 then ver else rounds[k - 1].got
  }

  // The first n tries.
  function TriesOf(me: nat, ver: Version, rounds: seq<Round>, n: nat): seq<Try>
    requires n <= |rounds|
  {
    seq(n, k requires 0 <= k < n => Try(EntryV(me, VersionAt(ver, rounds, k)), VersionAt(ver, rounds, k)))
  }

  ghost predicate AllRetried(me: nat, ver: Version, rounds: seq<Round>, n: nat)
    requires n <= |rounds|
  {
    forall k | 0 <= k < n :: ResultOf(me, VersionAt(ver, rounds, k), rounds[k]) == Unfinished
  }

  // Puts until one succeeds or may have; each put but the first names the version that the get before it
  // returned, and says so in its value.
  method OnePut(me: nat, ver: Version, rounds: seq<Round>) returns (res: PutResult, tried: seq<Try>)
    ensures |tried| <= |rounds| && tried == TriesOf(me, ver, rounds, |tried|)
    ensures if res == Unfinished then |tried| == |rounds| && AllRetried(me, ver, rounds, |rounds|)
            else |tried| > 0 && AllRetried(me, ver, rounds, |tried| - 1) &&
                 res == ResultOf(me, VersionAt(ver, rounds, |tried| - 1), rounds[|tried| - 1])
    ensures res.Finished? ==>
              && tried != [] && res.version == rounds[|tried| - 1].got
              && (if res.ok then rounds[|tried| - 1].put == OK else rounds[|tried| - 1].put == ErrMaybe)
              && forall k | 0 <= k < |tried| - 1 :: rounds[k].put == ErrVersion
    ensures res.Unfinished? ==> forall k | 0 <= k < |rounds| :: rounds[k].put == ErrVersion
  {
    TriesEnd(me, ver, rounds);
    var v := ver;
    tried := [];
    for k := 0 to |rounds|
      invariant |tried| == k && Trying(me, ver, rounds, tried, v)
    {
      OneMoreTry(me, ver, rounds, tried, v);
      tried := tried + [Try(EntryV(me, v), v)];
      var r := rounds[k];
      if !(r.put == OK || r.put == ErrVersion || r.put == ErrMaybe) {
        return Wrong, tried;
      }
      if r.put == OK && r.got == v + 1 {
        if r.entry.id != me && r.entry.v != v {
          return Wrong, tried;
        }
      }
      v := r.got;
      if r.put == OK || r.put == ErrMaybe {
        return Finished(v, r.put == OK), tried;
      }
    }
    return Unfinished, tried;
  }

  // A try that is not the last was answered ErrVersion.
  lemma TriesEnd(me: nat, ver: Version, rounds: seq<Round>)
    ensures forall n: nat | n <= |rounds| && AllRetried(me, ver, rounds, n) :: forall k | 0 <= k < n :: rounds[k].put == ErrVersion
  {
    forall n: nat, k | n <= |rounds| && AllRetried(me, ver, rounds, n) && 0 <= k < n ensures rounds[k].put == ErrVersion {
      assert ResultOf(me, VersionAt(ver, rounds, k), rounds[k]) == Unfinished;
    }
  }

  // How a round ends: the test fails on an error that a put cannot have, and on a value that is neither the client's
  // nor of its version although the put was answered OK and nothing came after it. Otherwise ErrVersion means another
  // try, and OK and ErrMaybe end the loop with the version just read, counted as OK only if it was.
  lemma ResultMeaning(me: nat, ver: Version, r: Round)
    ensures var res := ResultOf(me, ver, r);
            && (res == Wrong <==> r.put == ErrNoKey || (r.put == OK && r.got == ver + 1 && r.entry.id != me && r.entry.v != ver))
            && (res == Unfinished <==> r.put == ErrVersion)
            && (res.Finished? ==> res.version == r.got && (res.ok <==> r.put == OK) && (!res.ok <==> r.put == ErrMaybe))
  {
  }

  ghost predicate Trying(me: nat, ver: Version, rounds: seq<Round>, tried: seq<Try>, v: Version) {
    && |tried| <= |rounds| && v == VersionAt(ver, rounds, |tried|)
    && tried == TriesOf(me, ver, rounds, |tried|) && AllRetried(me, ver, rounds, |tried|)
  }

  lemma OneMoreTry(me: nat, ver: Version, rounds: seq<Round>, tried: seq<Try>, v: Version)
    requires Trying(me, ver, rounds, tried, v) && |tried| < |rounds|
    ensures var more := tried + [Try(EntryV(me, v), v)];
            && more == TriesOf(me, ver, rounds, |more|)
            && (ResultOf(me, v, rounds[|tried|]) == Unfinished ==> Trying(me, ver, rounds, more, rounds[|tried|].got))
  {
    TriesGrow(me, ver, rounds, |tried|);
  }

  lemma TriesGrow(me: nat, ver: Version, rounds: seq<Round>, k: nat)
    requires k < |rounds|
    ensures var v := VersionAt(ver, rounds, k);
            TriesOf(me, ver, rounds, k + 1) == TriesOf(me, ver, rounds, k) + [Try(EntryV(me, v), v)]
  {
  }

  /** OnePut in a run. */

  lemma {:induction false} LaterState(log: seq<Exec>, key: Key, n: nat, m: nat)
    requires n <= m <= |log|
    ensures StateAt(log, key, n).version <= StateAt(log, key, m).version
    ensures StateAt(log, key, n).version == StateAt(log, key, m).version ==> StateAt(log, key, n) == StateAt(log, key, m)
    decreases m
  {
    if n < m {
      LaterState(log, key, n, m - 1);
    }
  }

  ghost predicate ReturnedOn(s: System, i: nat, key: Key) {
    i < |s.calls| && s.calls[i].input.key == key && s.calls[i].phase.Returned?
  }

  // A call that was not answered ErrNoKey leaves its key present.
  lemma KeyIsPresent(s: System, i: nat, key: Key)
    requires Inv(s) && ReturnedOn(s, i, key) && s.calls[i].phase.output.err != ErrNoKey
    ensures s.calls[i].ended <= |s.log| && StateAt(s.log, key, s.calls[i].ended).version > 0
  {
    assert CallOk(s, i);
    KeyIsPresentAtPoint(s, i, key);
    LaterState(s.log, key, s.calls[i].point.value + 1, s.calls[i].ended);
  }

  lemma KeyIsPresentAtPoint(s: System, i: nat, key: Key)
    requires Inv(s) && ReturnedOn(s, i, key) && s.calls[i].phase.output.err != ErrNoKey && CallOk(s, i)
    ensures StateAt(s.log, key, s.calls[i].point.value + 1).version > 0
  {
    assert AnsweredAt(s.log, s.calls[i].point.value);
  }

  // A later call on the key is not answered ErrNoKey.
  lemma KeyStaysPresent(s: System, i: nat, j: nat, key: Key)
    requires Inv(s) && ReturnedOn(s, i, key) && s.calls[i].phase.output.err != ErrNoKey
    requires ReturnedOn(s, j, key) && Precedes(s, i, j)
    ensures s.calls[j].phase.output.err != ErrNoKey
  {
    KeyIsPresent(s, i, key);
    assert CallOk(s, j) && AnsweredAt(s.log, s.calls[j].point.value);
    LaterState(s.log, key, s.calls[i].ended, s.calls[j].point.value);
  }

  lemma FirstVersionIsFound(s: System, p: nat, key: Key)
    requires Inv(s) && ReturnedOn(s, p, key) && s.calls[p].input.PutIn? && s.calls[p].input.version == 0
    ensures s.calls[p].phase.output.err != ErrNoKey
  {
    assert CallOk(s, p) && AnsweredAt(s.log, s.calls[p].point.value);
  }

  // A get after a put that was answered OK sees the value of the put, or a greater version.
  lemma GetSeesPut(s: System, p: nat, g: nat, key: Key)
    requires Inv(s) && ReturnedOn(s, p, key) && s.calls[p].input.PutIn? && s.calls[p].phase.output.err == OK
    requires ReturnedOn(s, g, key) && s.calls[g].input.GetIn? && Precedes(s, p, g)
    ensures var put, got := s.calls[p].input, s.calls[g].phase.output;
            got.err == OK && got.version >= put.version + 1 && (got.version == put.version + 1 ==> got.value == put.value)
  {
    ReportMeaning(s, p);
    assert CallOk(s, p) && CallOk(s, g);
    var k, m := s.calls[p].point.value, s.calls[g].point.value;
    assert AnsweredAt(s.log, k) && AnsweredAt(s.log, m);
    assert StateAt(s.log, key, k + 1) == State(s.calls[p].input.value, s.calls[p].input.version + 1);
    LaterState(s.log, key, k + 1, m);
  }

  // The calls of one client in a run: it puts the entry under the version it knows, then gets, and begins each
  // call after the one before it has returned.
  datatype Client = Client(key: Key, me: nat, ver: Version, puts: seq<nat>, gets: seq<nat>)

  ghost predicate FoundBefore(s: System, key: Key, p: nat)
    requires p < |s.calls|
  {
    exists i: nat :: ReturnedOn(s, i, key) && s.calls[i].phase.output.err != ErrNoKey && Precedes(s, i, p)
  }

  ghost predicate MadeRound(s: System, c: Client, rounds: seq<Round>, k: nat, encode: EntryV -> string, decode: string -> EntryV)
    requires k < |rounds| == |c.puts| == |c.gets|
  {
    var p, g, v := c.puts[k], c.gets[k], VersionAt(c.ver, rounds, k);
    && ReturnedOn(s, p, c.key) && s.calls[p].input == PutIn(c.key, encode(EntryV(c.me, v)), v)
    && ReturnedOn(s, g, c.key) && s.calls[g].input == GetIn(c.key)
    && Precedes(s, p, g)
    && (if k == 0 then c.ver == 0 || FoundBefore(s, c.key, p)
        else c.gets[k - 1] < |s.calls| && Precedes(s, c.gets[k - 1], p))
    && var got := s.calls[g].phase.output;
       rounds[k] == Round(s.calls[p].phase.output.err, got.version, decode(got.value))
  }

  // It starts with version 0 or after the key was found.
  ghost predicate MadeRounds(s: System, c: Client, rounds: seq<Round>, encode: EntryV -> string, decode: string -> EntryV) {
    |rounds| == |c.puts| == |c.gets| && forall k: nat | k < |rounds| :: MadeRound(s, c, rounds, k, encode, decode)
  }

  ghost predicate IsFound(s: System, g: nat) {
    g < |s.calls| && s.calls[g].phase.Returned? && s.calls[g].phase.output.err == OK
  }

  lemma {:induction false} RoundIsRight(s: System, c: Client, rounds: seq<Round>, encode: EntryV -> string, decode: string -> EntryV, k: nat)
    requires Inv(s) && MadeRounds(s, c, rounds, encode, decode) && k < |rounds|
    requires forall e :: decode(encode(e)) == e
    ensures IsFound(s, c.gets[k]) && ResultOf(c.me, VersionAt(c.ver, rounds, k), rounds[k]) != Wrong
    decreases k
  {
    assert MadeRound(s, c, rounds, k, encode, decode);
    var p, g := c.puts[k], c.gets[k];
    if k > 0 {
      assert MadeRound(s, c, rounds, k - 1, encode, decode);
      RoundIsRight(s, c, rounds, encode, decode, k - 1);
      KeyStaysPresent(s, c.gets[k - 1], p, c.key);
    } else if c.ver == 0 {
      FirstVersionIsFound(s, p, c.key);
    } else {
      var i: nat :| ReturnedOn(s, i, c.key) && s.calls[i].phase.output.err != ErrNoKey && Precedes(s, i, p);
      KeyStaysPresent(s, i, p, c.key);
    }
    KeyStaysPresent(s, p, g, c.key);
    GetErrors(s, g);
    if rounds[k].put == OK {
      GetSeesPut(s, p, g, c.key);
    }
  }

  lemma GetErrors(s: System, i: nat)
    requires Inv(s) && i < |s.calls| && s.calls[i].phase.Returned? && s.calls[i].input.GetIn?
    ensures s.calls[i].phase.output.err == OK || s.calls[i].phase.output.err == ErrNoKey
  {
    assert CallOk(s, i) && AnsweredAt(s.log, s.calls[i].point.value);
  }

  /** OnePut reports true exactly for a put that took effect for certain: in a run a put counted as OK took effect, and
      one that is tried again did not. */
  lemma CountedPutTookEffect(run: seq<System>, steps: seq<Step>, c: Client, rounds: seq<Round>,
                             encode: EntryV -> string, decode: string -> EntryV, k: nat)
    requires IsRun(run, steps) && MadeRounds(run[|steps|], c, rounds, encode, decode) && k < |rounds|
    requires forall e :: decode(encode(e)) == e
    ensures c.puts[k] < |run[|steps|].calls|
    ensures var res := ResultOf(c.me, VersionAt(c.ver, rounds, k), rounds[k]);
            && (res.Finished? && res.ok ==> run[|steps|].calls[c.puts[k]].effect)
            && (res == Unfinished ==> !run[|steps|].calls[c.puts[k]].effect)
  {
    RunKeepsInv(run, steps);
    assert MadeRound(run[|steps|], c, rounds, k, encode, decode);
    ResultMeaning(c.me, VersionAt(c.ver, rounds, k), rounds[k]);
    ReportMeaning(run[|steps|], c.puts[k]);
  }

  /** Neither OnePut nor its get ever fails the test when its puts and gets are calls of a run, whatever other
      clients and the network do. */
  lemma OnePutIsNeverWrong(run: seq<System>, steps: seq<Step>, c: Client, rounds: seq<Round>,
                           encode: EntryV -> string, decode: string -> EntryV)
    requires IsRun(run, steps) && MadeRounds(run[|steps|], c, rounds, encode, decode)
    requires forall e :: decode(encode(e)) == e
    ensures forall k: nat | k < |rounds| ::
              IsFound(run[|steps|], c.gets[k]) && ResultOf(c.me, VersionAt(c.ver, rounds, k), rounds[k]) != Wrong
  {
    RunKeepsInv(run, steps);
    forall k: nat | k < |rounds|
      ensures IsFound(run[|steps|], c.gets[k]) && ResultOf(c.me, VersionAt(c.ver, rounds, k), rounds[k]) != Wrong
    {
      RoundIsRight(run[|steps|], c, rounds, encode, decode, k);
    }
  }

  // Adds the clients' counts to those passed in and compares them with the version of the key; without the
  // key the get fails the test.
  method CheckPutConcurrent(store: Store<string>, key: Key, rs: seq<ClntRes>, res: ClntRes, reliable: bool)
      returns (ok: bool, total: ClntRes)
    ensures ok ==> total == ClntRes(res.nok + SumOk(rs), res.nmaybe + SumMaybe(rs))
    ensures ok <==> key in store &&
                    if reliable then VersionOf(store, key) == res.nok + SumOk(rs)
                    else VersionOf(store, key) <= res.nok + SumOk(rs) + res.nmaybe + SumMaybe(rs)
  {
    total := res;
    if key !in store {
      return false, total;
    }
    var ver0 := store[key].version;
    for i := 0 to |rs|
      invariant total == ClntRes(res.nok + SumOk(rs[..i]), res.nmaybe + SumMaybe(rs[..i]))
    {
      assert rs[..i + 1][..i] == rs[..i];
      total := total.(nok := total.nok + rs[i].nok);
      total := total.(nmaybe := total.nmaybe + rs[i].nmaybe);
    }
    assert rs[..|rs|] == rs;
    ok := if reliable then ver0 == total.nok else ver0 <= total.nok + total.nmaybe;
  }

  /** The check passes after every run in which all puts on the key have returned: with equality if no
      message was lost, and with the ErrMaybe answers as slack otherwise. */
  lemma ConcurrentPutsPassCheck(run: seq<System>, steps: seq<Step>, key: Key, rs: seq<ClntRes>)
    requires IsRun(run, steps)
    requires forall i | 0 <= i < |run[|steps|].calls| && IsPut(run[|steps|].calls[i], key) ::
               run[|steps|].calls[i].phase.Returned?
    requires SumOk(rs) == Answers(run[|steps|].calls, key, OK)
    requires SumMaybe(rs) == Answers(run[|steps|].calls, key, ErrMaybe)
    ensures var ver0 := VersionOf(run[|steps|].store, key);
            ver0 <= SumOk(rs) + SumMaybe(rs) && (LosesNothing(steps) ==> ver0 == SumOk(rs))
  {
    VersionBetweenAnswers(run, steps, key);
    if LosesNothing(steps) {
      NothingLostNothingRetried(run, steps);
      NoMaybes(run[|steps|].calls, key);
    }
  }
}
