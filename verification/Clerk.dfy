/** The retrying clerk: what one call of Put does to the server, however many of its requests and replies
    are lost and whatever other clients do in between. */
module Clerk {
  import opened KvServer

  // What the network does to one attempt: loses the request, or its reply, or neither.
  datatype Fate = RequestLost | ReplyLost | Delivered

  datatype PutArgs = PutArgs(key: Key, value: string, version: Version)

  // One attempt: the puts other clients got in first, and the fate of the attempt itself.
  datatype Attempt = Attempt(others: seq<PutArgs>, fate: Fate)

  // The clerk reports ErrVersion as ErrMaybe once it has sent the request more than once.
  function ClerkErr(retried: bool, err: Err): Err {
    if retried && err == ErrVersion then ErrMaybe else err
  }

  // What a client of the tests counts: its puts that were answered OK, and ErrMaybe.
  datatype ClntRes = ClntRes(nok: nat, nmaybe: nat)

  function Interfere(store: Store<string>, others: seq<PutArgs>): Store<string> {
    if others == [] then store
    else
      var last := others[|others| - 1];
      PutOf(Interfere(store, others[..|others| - 1]), last.key, last.value, last.version).0
  }

  // A server execution of the attempt, if its request arrives.
  datatype Tried = Tried(store: Store<string>, err: Err, effects: nat)

  function TryOnce(store: Store<string>, args: PutArgs, a: Attempt): Tried {
    var before := Interfere(store, a.others);
    if a.fate == RequestLost then Tried(before, ErrMaybe, 0)
    else
      var (after, err) := PutOf(before, args.key, args.value, args.version);
      Tried(after, err, if err == OK then 1 else 0)
  }

  // The server after some attempts, and how often the put took effect in them.
  function After(store: Store<string>, args: PutArgs, attempts: seq<Attempt>): (r: Tried) {
    if attempts == [] then Tried(store, ErrMaybe, 0)
    else
      var n := |attempts| - 1;
      var prior := After(store, args, attempts[..n]);
      var t := TryOnce(prior.store, args, attempts[n]);
      Tried(t.store, t.err, prior.effects + t.effects)
  }

  // The server after the attempts of a get, which only others change.
  function AfterGets(store: Store<string>, attempts: seq<Attempt>): Store<string> {
    if attempts == [] then store
    else
      var n := |attempts| - 1;
      Interfere(AfterGets(store, attempts[..n]), attempts[n].others)
  }

  // The attempts of one call: all but the last lose a message, and the last is delivered.
  ghost predicate IsCall(attempts: seq<Attempt>) {
    && attempts != []
    && attempts[|attempts| - 1].fate == Delivered
    && forall i | 0 <= i < |attempts| - 1 :: attempts[i].fate != Delivered
  }

  class Clerk {
    const server: KVServer

    constructor (server: KVServer)
      ensures this.server == server
    {
      this.server := server;
    }

    // The puts of other clients that the server runs before an attempt arrives.
    method Others(puts: seq<PutArgs>)
      modifies server
      ensures server.KeyValueItems == Interfere(old(server.KeyValueItems), puts)
    {
      for i := 0 to |puts|
        invariant server.KeyValueItems == Interfere(old(server.KeyValueItems), puts[..i])
      {
        assert puts[..i + 1][..i] == puts[..i];
        var _ := server.Put(puts[i].key, puts[i].value, puts[i].version);
      }
      assert puts[..|puts|] == puts;
    }

    // One call over the network: not ok when a message is lost.
    method Call(args: PutArgs, a: Attempt) returns (ok: bool, err: Err)
      modifies server
      ensures ok == (a.fate == Delivered)
      ensures server.KeyValueItems == TryOnce(old(server.KeyValueItems), args, a).store
      ensures ok ==> err == TryOnce(old(server.KeyValueItems), args, a).err
    {
      Others(a.others);
      ok, err := false, ErrMaybe;
      if a.fate != RequestLost {
        err := server.Put(args.key, args.value, args.version);
        ok := a.fate == Delivered;
      }
    }

    method CallGet(key: Key, a: Attempt) returns (ok: bool, reply: GetReply<string>)
      modifies server
      ensures ok == (a.fate == Delivered)
      ensures server.KeyValueItems == Interfere(old(server.KeyValueItems), a.others)
      ensures ok ==> reply == GetOf(server.KeyValueItems, key)
    {
      Others(a.others);
      ok, reply := false, NoKey;
      if a.fate != RequestLost {
        reply := server.Get(key);
        ok := a.fate == Delivered;
      }
    }

    // The answer is what the key holds when the last attempt runs.
    method Get(key: Key, attempts: seq<Attempt>) returns (reply: GetReply<string>)
      requires IsCall(attempts)
      modifies server
      ensures server.KeyValueItems == AfterGets(old(server.KeyValueItems), attempts)
      ensures reply == GetOf(server.KeyValueItems, key)
    {
      var i := 0;
      assert attempts[..1][..0] == [];
      var ok, got := CallGet(key, attempts[0]);
      while !ok
        invariant i < |attempts| && ok == (attempts[i].fate == Delivered)
        invariant server.KeyValueItems == AfterGets(old(server.KeyValueItems), attempts[..i + 1])
        invariant ok ==> got == GetOf(server.KeyValueItems, key)
        invariant ok <==> i == |attempts| - 1
        decreases |attempts| - i
      {
        i := i + 1;
        assert attempts[..i + 1][..i] == attempts[..i];
        ok, got := CallGet(key, attempts[i]);
      }
      assert attempts[..|attempts|] == attempts;
      reply := got;
    }

    method Put(key: Key, value: string, version: Version, attempts: seq<Attempt>) returns (err: Err)
      requires IsCall(attempts)
      modifies server
      ensures var r := After(old(server.KeyValueItems), PutArgs(key, value, version), attempts);
              server.KeyValueItems == r.store && err == ClerkErr(|attempts| > 1, r.err)
    {
      var args := PutArgs(key, value, version);
      var isRetried := false;
      var i := 0;
      assert attempts[..1][..0] == [];
      var ok, replyErr := Call(args, attempts[0]);
      while !ok
        invariant i < |attempts| && ok == (attempts[i].fate == Delivered)
        invariant isRetried == (i > 0)
        invariant server.KeyValueItems == After(old(server.KeyValueItems), args, attempts[..i + 1]).store
        invariant ok ==> replyErr == After(old(server.KeyValueItems), args, attempts[..i + 1]).err
        invariant ok <==> i == |attempts| - 1
        decreases |attempts| - i
      {
        isRetried := true;
        i := i + 1;
        assert attempts[..i + 1][..i] == attempts[..i];
        ok, replyErr := Call(args, attempts[i]);
      }
      assert attempts[..|attempts|] == attempts;
      if isRetried && replyErr == ErrVersion {
        replyErr := ErrMaybe;
      }
      return replyErr;
    }
  }

  lemma {:induction false} InterferenceKeeps(store: Store<string>, others: seq<PutArgs>, key: Key)
    requires WellFormed(store)
    ensures WellFormed(Interfere(store, others))
    ensures VersionOf(Interfere(store, others), key) >= VersionOf(store, key)
    decreases |others|
  {
    if others != [] {
      var last := others[|others| - 1];
      InterferenceKeeps(store, others[..|others| - 1], key);
      PutMeaning(Interfere(store, others[..|others| - 1]), last.key, last.value, last.version);
    }
  }

  lemma TryKeeps(store: Store<string>, args: PutArgs, a: Attempt)
    requires WellFormed(store)
    ensures var t := TryOnce(store, args, a);
            && WellFormed(t.store)
            && VersionOf(t.store, args.key) >= VersionOf(store, args.key) + t.effects
            && (t.effects == 1 ==> VersionOf(t.store, args.key) == args.version + 1)
            && (VersionOf(store, args.key) > args.version ==> t.effects == 0)
            && (VersionOf(store, args.key) > args.version && a.fate != RequestLost ==> t.err == ErrVersion)
            && (t.err == OK <==> t.effects == 1)
  {
    InterferenceKeeps(store, a.others, args.key);
    PutMeaning(Interfere(store, a.others), args.key, args.value, args.version);
  }

  lemma {:induction false} EffectsBound(store: Store<string>, args: PutArgs, attempts: seq<Attempt>)
    requires WellFormed(store)
    ensures var r := After(store, args, attempts);
            && WellFormed(r.store) && r.effects <= 1
            && (r.effects == 1 ==> VersionOf(r.store, args.key) > args.version)
    decreases |attempts|
  {
    if attempts != [] {
      var n := |attempts| - 1;
      EffectsBound(store, args, attempts[..n]);
      TryKeeps(After(store, args, attempts[..n]).store, args, attempts[n]);
    }
  }

  /** A clerk Put takes effect at most once over all its retries: exactly once if it returns OK, and never
      if it returns ErrVersion or ErrNoKey. */
  lemma PutAtMostOnce(store: Store<string>, args: PutArgs, attempts: seq<Attempt>)
    requires WellFormed(store) && IsCall(attempts)
    ensures var r := After(store, args, attempts);
            var err := ClerkErr(|attempts| > 1, r.err);
            && r.effects <= 1
            && (err == OK ==> r.effects == 1)
            && (err == ErrVersion || err == ErrNoKey ==> r.effects == 0)
  {
    var n := |attempts| - 1;
    EffectsBound(store, args, attempts);
    EffectsBound(store, args, attempts[..n]);
    TryKeeps(After(store, args, attempts[..n]).store, args, attempts[n]);
    assert n == 0 ==> attempts[..n] == [];
  }

  /** What a clerk Put returns, seen from the store at which its last attempt runs: OK exactly when it names the
      version of the key there, however often it was sent before; ErrNoKey exactly when the key is missing there and
      the version is not 0; and for another version of a present key ErrVersion if it was sent once, ErrMaybe if it
      was sent more often. */
  lemma PutAnswers(store: Store<string>, args: PutArgs, attempts: seq<Attempt>)
    requires WellFormed(store) && IsCall(attempts)
    ensures var n := |attempts| - 1;
            var b := Interfere(After(store, args, attempts[..n]).store, attempts[n].others);
            var err := ClerkErr(|attempts| > 1, After(store, args, attempts).err);
            && (err == OK <==> args.version == VersionOf(b, args.key))
            && (err == ErrNoKey <==> args.key !in b && args.version != 0)
            && (err == ErrMaybe <==> args.key in b && args.version != b[args.key].version && |attempts| > 1)
            && (err == ErrVersion <==> args.key in b && args.version != b[args.key].version && |attempts| == 1)
  {
    var n := |attempts| - 1;
    EffectsBound(store, args, attempts[..n]);
    InterferenceKeeps(After(store, args, attempts[..n]).store, attempts[n].others, args.key);
    PutMeaning(Interfere(After(store, args, attempts[..n]).store, attempts[n].others), args.key, args.value, args.version);
  }

  lemma StalePutFails(store: Store<string>, args: PutArgs, attempts: seq<Attempt>)
    requires PutOf(store, args.key, args.value, args.version) == (store, ErrVersion)
    requires attempts == [Attempt([], ReplyLost), Attempt([], Delivered)]
    ensures After(store, args, attempts) == Tried(store, ErrVersion, 0)
  {
    assert attempts[..1] == [attempts[0]] && attempts[..1][..0] == [];
    assert TryOnce(store, args, attempts[0]) == Tried(store, ErrVersion, 0);
    assert After(store, args, attempts[..1]) == Tried(store, ErrVersion, 0);
    assert TryOnce(store, args, attempts[1]) == Tried(store, ErrVersion, 0);
  }

  /** ErrMaybe leaves both possibilities open: the same answer comes from a run in which the put took
      effect and from one in which it did not. */
  lemma MaybeIsUndecided(args: PutArgs)
    ensures exists s1, a1, s2, a2 ::
              && IsCall(a1) && IsCall(a2) && WellFormed<string>(s1) && WellFormed<string>(s2)
              && ClerkErr(|a1| > 1, After(s1, args, a1).err) == ErrMaybe && After(s1, args, a1).effects == 1
              && ClerkErr(|a2| > 1, After(s2, args, a2).err) == ErrMaybe && After(s2, args, a2).effects == 0
  {
    var now := if args.version == 0 then map[] else map[args.key := Item(args.key, "", args.version)];
    var later := map[args.key := Item(args.key, "", args.version + 1)];
    var lostReply := [Attempt([], ReplyLost), Attempt([], Delivered)];
    assert lostReply[..1] == [lostReply[0]] && lostReply[..1][..0] == [];
    assert After(now, args, lostReply[..1]) == Tried(PutOf(now, args.key, args.value, args.version).0, OK, 1);
    assert After(now, args, lostReply).effects == 1 && After(now, args, lostReply).err == ErrVersion;
    StalePutFails(later, args, lostReply);
    assert IsCall(lostReply);
  }
}
