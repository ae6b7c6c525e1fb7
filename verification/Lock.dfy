/** The lock client: its two retry loops over the clerk, made of decisions that the protocol uses as well. */
module Lock {
  import opened Clerk
  import opened KvServer

  // What Acquire does with the answer to its Get: return, sleep and try again, or put its id.
  datatype Decision = Done | Again | TryPut(value: string, version: Version)

  function AcquireAfterGet(id: string, reply: GetReply<string>): Decision {
    var value := if reply.Found? then reply.value else "";
    var version := if reply.Found? then reply.version else 0;
    if value == id then Done
    else if value != "" then Again
    else TryPut(id, version)
  }

  function AcquireAfterPut(err: Err): Decision {
    if err == OK then Done else Again
  }

  function ReleaseAfterGet(id: string, reply: GetReply<string>): Decision {
    if reply.NoKey? || reply.value != id then Done else TryPut("", reply.version)
  }

  function ReleaseAfterPut(err: Err): Decision {
    if err == OK || err == ErrMaybe then Done else Again
  }

  // One round of a loop: the attempts of its Get and, if it comes to that, of its Put, each with what other
  // clients do in between.
  datatype Round = Round(gets: seq<Attempt>, puts: seq<Attempt>)

  ghost predicate AreRounds(rounds: seq<Round>) {
    forall i | 0 <= i < |rounds| :: IsCall(rounds[i].gets) && IsCall(rounds[i].puts)
  }

  // The server after some rounds, and whether the loop has returned.
  datatype Progress = Progress(store: Store<string>, returned: bool)

  function AcquireRound(store: Store<string>, id: string, name: Key, round: Round): Progress {
    var s := AfterGets(store, round.gets);
    match AcquireAfterGet(id, GetOf(s, name))
    case Done => Progress(s, true)
    case Again => Progress(s, false)
    case TryPut(value, version) =>
      var r := After(s, PutArgs(name, value, version), round.puts);
      Progress(r.store, AcquireAfterPut(ClerkErr(|round.puts| > 1, r.err)) == Done)
  }

  function ReleaseRound(store: Store<string>, id: string, name: Key, round: Round): Progress {
    var s := AfterGets(store, round.gets);
    match ReleaseAfterGet(id, GetOf(s, name))
    case TryPut(value, version) =>
      var r := After(s, PutArgs(name, value, version), round.puts);
      Progress(r.store, ReleaseAfterPut(ClerkErr(|round.puts| > 1, r.err)) == Done)
    case _ => Progress(s, true)
  }

  function Acquiring(store: Store<string>, id: string, name: Key, rounds: seq<Round>): Progress {
    if rounds == [] then Progress(store, false)
    else
      var prior := Acquiring(store, id, name, rounds[..|rounds| - 1]);
      if prior.returned then prior else AcquireRound(prior.store, id, name, rounds[|rounds| - 1])
  }

  function Releasing(store: Store<string>, id: string, name: Key, rounds: seq<Round>): Progress {
    if rounds == [] then Progress(store, false)
    else
      var prior := Releasing(store, id, name, rounds[..|rounds| - 1]);
      if prior.returned then prior else ReleaseRound(prior.store, id, name, rounds[|rounds| - 1])
  }

  class Lock {
    const ck: Clerk
    const Id: string
    const LockName: Key

    constructor (ck: Clerk, id: string, lockname: Key)
      ensures this.ck == ck && Id == id && LockName == lockname
    {
      this.ck, Id, LockName := ck, id, lockname;
    }

    // The loop of Acquire over the given rounds; it has not returned if they run out first.
    method Acquire(rounds: seq<Round>) returns (returned: bool)
      requires AreRounds(rounds)
      modifies ck.server
      ensures Progress(ck.server.KeyValueItems, returned) == Acquiring(old(ck.server.KeyValueItems), Id, LockName, rounds)
    {
      for i := 0 to |rounds|
        invariant Progress(ck.server.KeyValueItems, false) ==
                  Acquiring(old(ck.server.KeyValueItems), Id, LockName, rounds[..i])
      {
        assert rounds[..i + 1][..i] == rounds[..i];
        AcquireStops(old(ck.server.KeyValueItems), Id, LockName, rounds, i + 1);
        var reply := ck.Get(LockName, rounds[i].gets);
        var val, ver := "", 0;
        if reply.Found? {
          val, ver := reply.value, reply.version;
        }
        if val == Id {
          return true;
        }
        if val != "" {
          continue;
        }
        var err := ck.Put(LockName, Id, ver, rounds[i].puts);
        if err == OK {
          return true;
        }
        if err == ErrMaybe {
          continue;
        }
      }
      assert rounds[..|rounds|] == rounds;
      return false;
    }

    method Release(rounds: seq<Round>) returns (returned: bool)
      requires AreRounds(rounds)
      modifies ck.server
      ensures Progress(ck.server.KeyValueItems, returned) == Releasing(old(ck.server.KeyValueItems), Id, LockName, rounds)
    {
      for i := 0 to |rounds|
        invariant Progress(ck.server.KeyValueItems, false) ==
                  Releasing(old(ck.server.KeyValueItems), Id, LockName, rounds[..i])
      {
        assert rounds[..i + 1][..i] == rounds[..i];
        ReleaseStops(old(ck.server.KeyValueItems), Id, LockName, rounds, i + 1);
        var reply := ck.Get(LockName, rounds[i].gets);
        if reply.NoKey? || reply.value != Id {
          return true;
        }
        var err := ck.Put(LockName, "", reply.version, rounds[i].puts);
        if err == OK || err == ErrMaybe {
          return true;
        }
      }
      assert rounds[..|rounds|] == rounds;
      return false;
    }
  }

  // A loop that has returned does nothing more.
  lemma {:induction false} AcquireStops(store: Store<string>, id: string, name: Key, rounds: seq<Round>, i: nat)
    requires i <= |rounds|
    ensures var p := Acquiring(store, id, name, rounds[..i]);
            p.returned ==> Acquiring(store, id, name, rounds) == p
    decreases |rounds|
  {
    if i == |rounds| {
      assert rounds[..i] == rounds;
    } else {
      var n := |rounds| - 1;
      assert rounds[..n][..i] == rounds[..i];
      AcquireStops(store, id, name, rounds[..n], i);
    }
  }

  lemma {:induction false} ReleaseStops(store: Store<string>, id: string, name: Key, rounds: seq<Round>, i: nat)
    requires i <= |rounds|
    ensures var p := Releasing(store, id, name, rounds[..i]);
            p.returned ==> Releasing(store, id, name, rounds) == p
    decreases |rounds|
  {
    if i == |rounds| {
      assert rounds[..i] == rounds;
    } else {
      var n := |rounds| - 1;
      assert rounds[..n][..i] == rounds[..i];
      ReleaseStops(store, id, name, rounds[..n], i);
    }
  }

  // The last attempt of a put that reports OK took effect, so the key holds its value.
  lemma OkMeansStored(store: Store<string>, args: PutArgs, attempts: seq<Attempt>)
    requires IsCall(attempts) && ClerkErr(|attempts| > 1, After(store, args, attempts).err) == OK
    ensures GetOf(After(store, args, attempts).store, args.key) == KvServer.Found(args.value, args.version + 1)
  {
  }

  /** When Acquire returns, the key holds the lock's id at that moment, whatever other clients and the network
      did before. */
  lemma {:induction false} AcquireReturnsHolding(store: Store<string>, id: string, name: Key, rounds: seq<Round>)
    requires AreRounds(rounds) && id != "" && Acquiring(store, id, name, rounds).returned
    ensures var got := GetOf(Acquiring(store, id, name, rounds).store, name);
            got.Found? && got.value == id
    decreases |rounds|
  {
    var n := |rounds| - 1;
    var prior := Acquiring(store, id, name, rounds[..n]);
    if prior.returned {
      AcquireReturnsHolding(store, id, name, rounds[..n]);
    } else {
      var s := AfterGets(prior.store, rounds[n].gets);
      var d := AcquireAfterGet(id, GetOf(s, name));
      if d.TryPut? {
        OkMeansStored(s, PutArgs(name, d.value, d.version), rounds[n].puts);
      }
    }
  }

  /** Rounds without interference: whatever messages are lost, nobody else puts anything in between. */

  ghost predicate Undisturbed(attempts: seq<Attempt>) {
    forall i | 0 <= i < |attempts| :: attempts[i].others == []
  }

  lemma {:induction false} UndisturbedGets(store: Store<string>, attempts: seq<Attempt>)
    requires Undisturbed(attempts)
    ensures AfterGets(store, attempts) == store
    decreases |attempts|
  {
    if attempts != [] {
      UndisturbedGets(store, attempts[..|attempts| - 1]);
    }
  }

  ghost predicate Arrives(attempts: seq<Attempt>) {
    exists i :: 0 <= i < |attempts| && attempts[i].fate != RequestLost
  }

  // A put that names the version takes effect as soon as one of its requests arrives, and not again.
  lemma {:induction false} UndisturbedPut(store: Store<string>, args: PutArgs, attempts: seq<Attempt>)
    requires WellFormed(store) && Undisturbed(attempts) && args.version == VersionOf(store, args.key)
    ensures After(store, args, attempts).store ==
            if Arrives(attempts) then store[args.key := Item(args.key, args.value, args.version + 1)] else store
    decreases |attempts|
  {
    if attempts != [] {
      var n := |attempts| - 1;
      UndisturbedPut(store, args, attempts[..n]);
      if Arrives(attempts[..n]) {
        var i :| 0 <= i < n && attempts[..n][i].fate != RequestLost;
        assert attempts[i].fate != RequestLost;
      }
      if Arrives(attempts) {
        var i :| 0 <= i < |attempts| && attempts[i].fate != RequestLost;
        assert i < n ==> attempts[..n][i].fate != RequestLost;
      }
    }
  }

  ghost predicate Quiet(round: Round) {
    IsCall(round.gets) && IsCall(round.puts) && Undisturbed(round.gets) && Undisturbed(round.puts)
  }

  // The key is missing or holds no id.
  ghost predicate IsFree(store: Store<string>, name: Key) {
    name !in store || store[name].value == ""
  }

  // The store once the key has been put with the value.
  ghost function Held(store: Store<string>, name: Key, value: string): Store<string> {
    store[name := Item(name, value, VersionOf(store, name) + 1)]
  }

  /** One round of Acquire. A free lock is taken: the key gets the id under the next version, whatever messages are
      lost, and the round returns unless its first put to arrive was not the one that was answered. A lock that
      holds another id is left as it is, and the loop goes on; with its own id the loop returns. */
  lemma AcquireRoundMeaning(store: Store<string>, id: string, name: Key, round: Round)
    requires WellFormed(store) && id != "" && Quiet(round)
    ensures var p := AcquireRound(store, id, name, round);
            if IsFree(store, name) then
              p.store == Held(store, name, id) && (p.returned <==> !Arrives(round.puts[..|round.puts| - 1]))
            else p == Progress(store, store[name].value == id)
  {
    UndisturbedGets(store, round.gets);
    if IsFree(store, name) {
      var args := PutArgs(name, id, VersionOf(store, name));
      var n := |round.puts| - 1;
      UndisturbedPut(store, args, round.puts);
      UndisturbedPut(store, args, round.puts[..n]);
      assert round.puts[n].fate != RequestLost;
      PutAnswers(store, args, round.puts);
    }
  }

  /** Two rounds without interference take a free lock, however many messages are lost. */
  lemma FreeLockIsTaken(store: Store<string>, id: string, name: Key, first: Round, second: Round)
    requires WellFormed(store) && id != "" && Quiet(first) && Quiet(second) && IsFree(store, name)
    ensures Acquiring(store, id, name, [first, second]) == Progress(Held(store, name, id), true)
  {
    AcquireRoundMeaning(store, id, name, first);
    AcquireRoundMeaning(Held(store, name, id), id, name, second);
    OneRound(store, id, name, first);
    assert [first, second][..1] == [first];
  }

  lemma OneRound(store: Store<string>, id: string, name: Key, round: Round)
    ensures Acquiring(store, id, name, [round]) == AcquireRound(store, id, name, round)
  {
    assert [round][..0] == [];
  }

  /** One round of Release returns. It frees the key if it holds the id, and changes nothing otherwise. */
  lemma ReleaseRoundMeaning(store: Store<string>, id: string, name: Key, round: Round)
    requires WellFormed(store) && id != "" && Quiet(round)
    ensures ReleaseRound(store, id, name, round) ==
            Progress(if name in store && store[name].value == id then Held(store, name, "") else store, true)
  {
    UndisturbedGets(store, round.gets);
    if name in store && store[name].value == id {
      var args := PutArgs(name, "", VersionOf(store, name));
      var n := |round.puts| - 1;
      UndisturbedPut(store, args, round.puts);
      UndisturbedPut(store, args, round.puts[..n]);
      assert round.puts[n].fate != RequestLost;
      PutAnswers(store, args, round.puts);
    }
  }

  /** A lock can change hands: after the Release of its holder another lock takes it. */
  lemma LockChangesHands(store: Store<string>, id: string, other: string, name: Key, release: Round, first: Round, second: Round)
    requires WellFormed(store) && id != "" && other != "" && Quiet(release) && Quiet(first) && Quiet(second)
    requires name in store && store[name].value == id
    ensures var p := Releasing(store, id, name, [release]);
            && p.returned
            && Acquiring(p.store, other, name, [first, second]) == Progress(Held(Held(store, name, ""), name, other), true)
  {
    ReleaseRoundMeaning(store, id, name, release);
    assert [release][..0] == [];
    FreeLockIsTaken(Held(store, name, ""), other, name, first, second);
  }
}
