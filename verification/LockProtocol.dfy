/** Any number of locks with one name, over a network that loses, delays without limit, duplicates and
    reorders requests and replies. Every request ever sent may still run, any number of times, and every
    reply to the attempt a lock is waiting for may arrive. */
module LockProtocol {
  import opened KvServer
  import opened Clerk
  import opened Lock

  // The locks' name and their ids.
  datatype Setup = Setup(name: Key, ids: seq<string>)

  ghost predicate Sound(e: Setup) {
    && (forall i | 0 <= i < |e.ids| :: e.ids[i] != "")
    && (forall i, j | 0 <= i < j < |e.ids| :: e.ids[i] != e.ids[j])
  }

  // Where a lock is: outside its methods, or waiting in Acquire or Release for a Get or a Put to return.
  datatype Pc = Idle | AGet | RGet | APut(version: Version) | RPut(version: Version)

  // A lock is held from the return of Acquire to the next call of Release. The version current when its
  // last Get was sent is kept for the record.
  datatype LockState = LockState(pc: Pc, attempt: nat, retried: bool, held: bool, since: nat)

  datatype GetRequest = GetRequest(i: nat, attempt: nat)
  datatype PutRequest = PutRequest(i: nat, attempt: nat, value: string, version: Version)
  datatype GetAnswer = GetAnswer(i: nat, attempt: nat, reply: GetReply<string>)
  datatype PutAnswer = PutAnswer(request: PutRequest, err: Err)

  // The value each version of the key had, and the put that made each version after the first, are kept
  // for the record.
  datatype System = System(store: Store<string>, locks: seq<LockState>,
                           gets: set<GetRequest>, puts: set<PutRequest>,
                           gotten: set<GetAnswer>, answered: set<PutAnswer>,
                           values: seq<string>, makers: seq<PutRequest>)

  datatype Step = Acquire(i: nat) | Release(i: nat) | Retry(i: nat)
                | ServeGet(get: GetRequest) | ServePut(put: PutRequest)
                | TakeGet(got: GetAnswer) | TakePut(answer: PutAnswer)

  ghost predicate Init(e: Setup, s: System) {
    && s.store == map[] && |s.locks| == |e.ids|
    && (forall i | 0 <= i < |s.locks| :: s.locks[i] == LockState(Idle, 0, false, false, 0))
    && s.gets == {} && s.puts == {} && s.gotten == {} && s.answered == {}
    && s.values == [""] && s.makers == []
  }

  function Getting(pc: Pc): bool {
    pc == AGet || pc == RGet
  }

  ghost predicate Enabled(s: System, step: Step) {
    match step
    case Acquire(i) => i < |s.locks| && s.locks[i].pc == Idle
    case Release(i) => i < |s.locks| && s.locks[i].pc == Idle
    case Retry(i) => i < |s.locks| && s.locks[i].pc != Idle
    case ServeGet(get) => get in s.gets
    case ServePut(put) => put in s.puts
    case TakeGet(got) =>
      got in s.gotten && got.i < |s.locks| && got.attempt == s.locks[got.i].attempt && Getting(s.locks[got.i].pc)
    case TakePut(answer) =>
      answer in s.answered && answer.request.i < |s.locks| &&
      answer.request.attempt == s.locks[answer.request.i].attempt &&
      s.locks[answer.request.i].pc != Idle && !Getting(s.locks[answer.request.i].pc)
  }

  ghost function SendGet(s: System, i: nat, pc: Pc, held: bool): System
    requires i < |s.locks|
  {
    var attempt := s.locks[i].attempt + 1;
    s.(locks := s.locks[i := LockState(pc, attempt, false, held, if |s.values| == 0 then 0 else |s.values| - 1)],
       gets := s.gets + {GetRequest(i, attempt)})
  }

  ghost function SendPut(s: System, i: nat, pc: Pc, value: string, version: Version, retried: bool): System
    requires i < |s.locks|
  {
    var l := s.locks[i];
    s.(locks := s.locks[i := l.(pc := pc, attempt := l.attempt + 1, retried := retried)],
       puts := s.puts + {PutRequest(i, l.attempt + 1, value, version)})
  }

  ghost function Finish(s: System, i: nat, held: bool): System
    requires i < |s.locks|
  {
    s.(locks := s.locks[i := s.locks[i].(pc := Idle, held := held)])
  }

  ghost function Next(e: Setup, s: System, step: Step): System
    requires Enabled(s, step) && |s.locks| == |e.ids|
  {
    match step
    case Acquire(i) => SendGet(s, i, AGet, s.locks[i].held)
    case Release(i) => SendGet(s, i, RGet, false)
    case Retry(i) =>
      var l := s.locks[i];
      (match l.pc
       case APut(version) => SendPut(s, i, l.pc, e.ids[i], version, true)
       case RPut(version) => SendPut(s, i, l.pc, "", version, true)
       case _ => SendGet(s, i, l.pc, l.held))
    case ServeGet(get) => s.(gotten := s.gotten + {GetAnswer(get.i, get.attempt, GetOf(s.store, e.name))})
    case ServePut(put) =>
      var (store, err) := PutOf(s.store, e.name, put.value, put.version);
      s.(store := store, answered := s.answered + {PutAnswer(put, err)},
         values := if err == OK then s.values + [put.value] else s.values,
         makers := if err == OK then s.makers + [put] else s.makers)
    case TakeGet(got) =>
      var i := got.i;
      var l := s.locks[i];
      if l.pc == AGet then
        (match AcquireAfterGet(e.ids[i], got.reply)
         case Done => Finish(s, i, true)
         case Again => SendGet(s, i, AGet, l.held)
         case TryPut(value, version) => SendPut(s, i, APut(version), value, version, false))
      else
        (match ReleaseAfterGet(e.ids[i], got.reply)
         case TryPut(value, version) => SendPut(s, i, RPut(version), value, version, false)
         case _ => Finish(s, i, false))
    case TakePut(answer) =>
      var i := answer.request.i;
      var l := s.locks[i];
      var err := ClerkErr(l.retried, answer.err);
      if l.pc.APut? then
        if AcquireAfterPut(err) == Done then Finish(s, i, true) else SendGet(s, i, AGet, l.held)
      else
        if ReleaseAfterPut(err) == Done then Finish(s, i, false) else SendGet(s, i, RGet, false)
  }

  ghost predicate IsRun(e: Setup, run: seq<System>, steps: seq<Step>) {
    && |run| == |steps| + 1 && Init(e, run[0])
    && forall i | 0 <= i < |steps| ::
         |run[i].locks| == |e.ids| && Enabled(run[i], steps[i]) && run[i + 1] == Next(e, run[i], steps[i])
  }

  /** The invariant. */

  // The current version of the key.
  ghost function Now(s: System): int {
    |s.values| - 1
  }

  // The record of the key's values agrees with the store, and each new value came from a put.
  ghost predicate HistoryOk(e: Setup, s: System) {
    && |s.values| >= 1 && s.values[0] == "" && |s.makers| == Now(s)
    && WellFormed(s.store) && VersionOf(s.store, e.name) == Now(s)
    && (e.name in s.store ==> s.store[e.name].value == s.values[Now(s)])
    && (forall v | 0 <= v < |s.makers| ::
          s.makers[v] in s.puts && s.makers[v].version == v && s.makers[v].value == s.values[v + 1])
  }

  // A put takes a free lock or frees the sender's own.
  ghost predicate PutOk(e: Setup, s: System, q: PutRequest) {
    && q.i < |s.locks| && q.i < |e.ids| && q.attempt <= s.locks[q.i].attempt && q.version < |s.values|
    && (if q.value == "" then s.values[q.version] == e.ids[q.i] else q.value == e.ids[q.i] && s.values[q.version] == "")
  }

  // Only the put a lock is waiting for can still change the key.
  ghost predicate PutTimely(s: System, q: PutRequest)
    requires q.i < |s.locks|
  {
    var l := s.locks[q.i];
    match l.pc
    case Idle => q.version < Now(s)
    case AGet => q.version < l.since
    case RGet => q.version < l.since
    case APut(version) => q.version <= version && (q.version == version ==> q.value != "") && (q.attempt == l.attempt ==> q.version == version)
    case RPut(version) => q.version <= version && (q.version == version ==> q.value == "") && (q.attempt == l.attempt ==> q.version == version)
  }

  ghost predicate GetAnswerOk(s: System, r: GetAnswer) {
    && r.i < |s.locks| && r.attempt <= s.locks[r.i].attempt
    && (r.reply.Found? ==> 1 <= r.reply.version < |s.values| && s.values[r.reply.version] == r.reply.value)
    && (r.attempt == s.locks[r.i].attempt && Getting(s.locks[r.i].pc) ==>
          s.locks[r.i].since <= if r.reply.Found? then r.reply.version else 0)
  }

  ghost predicate PutAnswerOk(s: System, r: PutAnswer) {
    && r.request in s.puts && r.request.version < Now(s)
    && (r.err == OK || r.err == ErrVersion)
    && (r.err == OK ==> s.values[r.request.version + 1] == r.request.value)
  }

  ghost predicate LockOk(e: Setup, s: System, i: nat)
    requires i < |s.locks| && i < |e.ids| && |s.values| >= 1
  {
    var l := s.locks[i];
    && (match l.pc
        case Idle => l.held <==> s.values[Now(s)] == e.ids[i]
        case AGet => l.since <= Now(s)
        case RGet => l.since <= Now(s)
        case APut(version) => version <= Now(s) && s.values[version] == ""
        case RPut(version) => version <= Now(s) && s.values[version] == e.ids[i])
    && (l.held ==> s.values[Now(s)] == e.ids[i] && (l.pc == Idle || (l.pc == AGet && l.since == Now(s))))
  }

  ghost predicate Inv(e: Setup, s: System) {
    && |s.locks| == |e.ids|
    && HistoryOk(e, s)
    && (forall q | q in s.puts :: PutOk(e, s, q) && PutTimely(s, q))
    && (forall r | r in s.gets :: r.i < |s.locks| && r.attempt <= s.locks[r.i].attempt)
    && (forall r | r in s.gotten :: GetAnswerOk(s, r))
    && (forall r | r in s.answered :: PutAnswerOk(s, r))
    && (forall i | 0 <= i < |s.locks| :: LockOk(e, s, i))
  }

  // A version that held an id and is no longer current was cleared by a put of that lock; a version that
  // holds an id was made by a put of that lock.
  lemma OwnPuts(e: Setup, s: System, i: nat, v: nat)
    requires Sound(e) && Inv(e, s) && i < |e.ids| && v < |s.makers|
    ensures s.values[v] == e.ids[i] ==> s.makers[v].i == i && s.values[v + 1] == ""
    ensures s.values[v + 1] == e.ids[i] ==> s.makers[v].i == i && s.values[v] == ""
  {
    assert PutOk(e, s, s.makers[v]);
  }

  // If all puts of a lock are older than a version, that version decides whether the lock is in the key now.
  lemma {:induction false} QuietSince(e: Setup, s: System, i: nat, v: nat, w: nat)
    requires Sound(e) && Inv(e, s) && i < |e.ids| && v <= w <= Now(s)
    requires forall q | q in s.puts && q.i == i :: q.version < v
    ensures s.values[w] == e.ids[i] <==> s.values[v] == e.ids[i]
    decreases w
  {
    if v < w {
      QuietSince(e, s, i, v, w - 1);
      OwnPuts(e, s, i, w - 1);
    }
  }

  /** Sending. */

  lemma SendGetKeepsInv(e: Setup, s: System, i: nat, pc: Pc, held: bool)
    requires Sound(e) && Inv(e, s) && i < |s.locks| && Getting(pc)
    requires forall q | q in s.puts && q.i == i :: q.version < Now(s)
    requires held ==> pc == AGet && s.values[Now(s)] == e.ids[i]
    ensures Inv(e, SendGet(s, i, pc, held))
  {
    var t := SendGet(s, i, pc, held);
    forall q | q in t.puts ensures PutOk(e, t, q) && PutTimely(t, q) {
      assert PutOk(e, s, q) && PutTimely(s, q);
    }
    forall r | r in t.gotten ensures GetAnswerOk(t, r) {
      assert GetAnswerOk(s, r);
    }
    forall j | 0 <= j < |t.locks| ensures LockOk(e, t, j) {
      assert LockOk(e, s, j);
    }
    assert forall r | r in t.answered :: PutAnswerOk(s, r);
  }

  lemma SendPutKeepsInv(e: Setup, s: System, i: nat, pc: Pc, value: string, version: Version, retried: bool)
    requires Sound(e) && Inv(e, s) && i < |s.locks| && (pc == APut(version) || pc == RPut(version))
    requires !s.locks[i].held && version <= Now(s)
    requires pc.APut? ==> value == e.ids[i] && s.values[version] == ""
    requires pc.RPut? ==> value == "" && s.values[version] == e.ids[i]
    requires forall q | q in s.puts && q.i == i :: q.version <= version && (q.version == version ==> q.value == value)
    ensures Inv(e, SendPut(s, i, pc, value, version, retried))
  {
    var t := SendPut(s, i, pc, value, version, retried);
    forall q | q in t.puts ensures PutOk(e, t, q) && PutTimely(t, q) {
      if q in s.puts {
        assert PutOk(e, s, q) && PutTimely(s, q);
      }
    }
    forall r | r in t.gotten ensures GetAnswerOk(t, r) {
      assert GetAnswerOk(s, r);
    }
    forall j | 0 <= j < |t.locks| ensures LockOk(e, t, j) {
      assert LockOk(e, s, j);
    }
    assert forall r | r in t.answered :: PutAnswerOk(s, r);
  }

  lemma FinishKeepsInv(e: Setup, s: System, i: nat, held: bool)
    requires Sound(e) && Inv(e, s) && i < |s.locks|
    requires forall q | q in s.puts && q.i == i :: q.version < Now(s)
    requires held <==> s.values[Now(s)] == e.ids[i]
    ensures Inv(e, Finish(s, i, held))
  {
    var t := Finish(s, i, held);
    forall q | q in t.puts ensures PutOk(e, t, q) && PutTimely(t, q) {
      assert PutOk(e, s, q) && PutTimely(s, q);
    }
    forall r | r in t.gotten ensures GetAnswerOk(t, r) {
      assert GetAnswerOk(s, r);
    }
    forall j | 0 <= j < |t.locks| ensures LockOk(e, t, j) {
      assert LockOk(e, s, j);
    }
    assert forall r | r in t.answered :: PutAnswerOk(s, r);
  }

  /** Serving. */

  lemma ServeGetKeepsInv(e: Setup, s: System, get: GetRequest)
    requires Sound(e) && Inv(e, s) && get in s.gets
    ensures Inv(e, Next(e, s, ServeGet(get)))
  {
    var t := Next(e, s, ServeGet(get));
    var r := GetAnswer(get.i, get.attempt, GetOf(s.store, e.name));
    assert LockOk(e, s, get.i);
    assert GetAnswerOk(s, r);
    forall q | q in t.puts ensures PutOk(e, t, q) && PutTimely(t, q) {
      assert PutOk(e, s, q) && PutTimely(s, q);
    }
    forall x | x in t.gotten ensures GetAnswerOk(t, x) {
      assert GetAnswerOk(s, x);
    }
    forall j | 0 <= j < |t.locks| ensures LockOk(e, t, j) {
      assert LockOk(e, s, j);
    }
    assert forall x | x in t.answered :: PutAnswerOk(s, x);
  }

  // A put that takes effect is one its lock is waiting for; then no lock is held.
  lemma EffectivePut(e: Setup, s: System, put: PutRequest)
    requires Sound(e) && Inv(e, s) && put in s.puts && put.version == Now(s)
    ensures s.locks[put.i].pc == APut(put.version) || s.locks[put.i].pc == RPut(put.version)
    ensures forall j | 0 <= j < |s.locks| :: !s.locks[j].held
  {
    assert PutOk(e, s, put) && PutTimely(s, put) && LockOk(e, s, put.i);
    forall j | 0 <= j < |s.locks| ensures !s.locks[j].held {
      assert LockOk(e, s, j);
    }
  }

  lemma ServePutKeepsHistory(e: Setup, s: System, put: PutRequest)
    requires Sound(e) && Inv(e, s) && put in s.puts
    ensures var t := Next(e, s, ServePut(put));
            && HistoryOk(e, t)
            && (put.version == Now(s) ==> t.values == s.values + [put.value])
            && (put.version != Now(s) ==> t.values == s.values)
            && PutAnswerOk(t, PutAnswer(put, PutOf(s.store, e.name, put.value, put.version).1))
  {
    assert PutOk(e, s, put);
    PutMeaning(s.store, e.name, put.value, put.version);
  }

  lemma ServePutKeepsInv(e: Setup, s: System, put: PutRequest)
    requires Sound(e) && Inv(e, s) && put in s.puts
    ensures Inv(e, Next(e, s, ServePut(put)))
  {
    var t := Next(e, s, ServePut(put));
    ServePutKeepsHistory(e, s, put);
    assert PutOk(e, s, put);
    if put.version == Now(s) {
      EffectivePut(e, s, put);
    }
    forall q | q in t.puts ensures PutOk(e, t, q) && PutTimely(t, q) {
      assert PutOk(e, s, q) && PutTimely(s, q);
    }
    forall r | r in t.gotten ensures GetAnswerOk(t, r) {
      assert GetAnswerOk(s, r);
    }
    forall r | r in t.answered ensures PutAnswerOk(t, r) {
      assert r in s.answered ==> PutAnswerOk(s, r);
    }
    forall j | 0 <= j < |t.locks| ensures LockOk(e, t, j) {
      assert LockOk(e, s, j);
    }
  }

  /** Taking answers. */

  lemma PutsBefore(e: Setup, s: System, i: nat)
    requires Inv(e, s) && i < |s.locks|
    ensures s.locks[i].pc == Idle ==> forall q | q in s.puts && q.i == i :: q.version < Now(s)
    ensures Getting(s.locks[i].pc) ==> forall q | q in s.puts && q.i == i :: q.version < s.locks[i].since <= Now(s)
  {
    assert LockOk(e, s, i);
    forall q | q in s.puts && q.i == i
      ensures s.locks[i].pc == Idle ==> q.version < Now(s)
      ensures Getting(s.locks[i].pc) ==> q.version < s.locks[i].since <= Now(s)
    {
      assert PutTimely(s, q);
    }
  }

  lemma TakeGetKeepsInv(e: Setup, s: System, got: GetAnswer)
    requires Sound(e) && Inv(e, s) && Enabled(s, TakeGet(got))
    ensures Inv(e, Next(e, s, TakeGet(got)))
  {
    var i := got.i;
    var l := s.locks[i];
    assert GetAnswerOk(s, got) && LockOk(e, s, i);
    PutsBefore(e, s, i);
    var v := if got.reply.Found? then got.reply.version else 0;
    QuietSince(e, s, i, v, Now(s));
    if l.pc == AGet {
      match AcquireAfterGet(e.ids[i], got.reply) {
        case Done => FinishKeepsInv(e, s, i, true);
        case Again => SendGetKeepsInv(e, s, i, AGet, l.held);
        case TryPut(value, version) => SendPutKeepsInv(e, s, i, APut(version), value, version, false);
      }
    } else {
      match ReleaseAfterGet(e.ids[i], got.reply) {
        case TryPut(value, version) => SendPutKeepsInv(e, s, i, RPut(version), value, version, false);
        case _ => FinishKeepsInv(e, s, i, false);
      }
    }
  }

  // Once the answer to a lock's put is in, none of its puts can change the key any more.
  lemma AnsweredPutIsPast(e: Setup, s: System, answer: PutAnswer)
    requires Sound(e) && Inv(e, s) && Enabled(s, TakePut(answer))
    ensures var l := s.locks[answer.request.i];
            && answer.request.version == l.pc.version < Now(s)
            && forall q | q in s.puts && q.i == answer.request.i :: q.version <= l.pc.version
  {
    assert PutAnswerOk(s, answer);
    assert PutTimely(s, answer.request);
    forall q | q in s.puts && q.i == answer.request.i ensures q.version <= s.locks[answer.request.i].pc.version {
      assert PutTimely(s, q);
    }
  }

  // After an acquiring put has been answered OK the key holds the lock's id; after a releasing put has been
  // answered at all it does not.
  lemma AnswerDecides(e: Setup, s: System, answer: PutAnswer)
    requires Sound(e) && Inv(e, s) && Enabled(s, TakePut(answer))
    ensures var i := answer.request.i;
            && (s.locks[i].pc.APut? && answer.err == OK ==> s.values[Now(s)] == e.ids[i])
            && (s.locks[i].pc.RPut? ==> s.values[Now(s)] != e.ids[i] && s.values[s.locks[i].pc.version + 1] == ""
                                        && s.makers[s.locks[i].pc.version].i == i)
  {
    var i := answer.request.i;
    AnsweredPutIsPast(e, s, answer);
    assert PutAnswerOk(s, answer) && PutTimely(s, answer.request) && PutOk(e, s, answer.request) && LockOk(e, s, i);
    var v := s.locks[i].pc.version;
    OwnPuts(e, s, i, v);
    QuietSince(e, s, i, v + 1, Now(s));
  }

  lemma TakePutKeepsInv(e: Setup, s: System, answer: PutAnswer)
    requires Sound(e) && Inv(e, s) && Enabled(s, TakePut(answer))
    ensures Inv(e, Next(e, s, TakePut(answer)))
  {
    var i := answer.request.i;
    var l := s.locks[i];
    assert LockOk(e, s, i);
    AnsweredPutIsPast(e, s, answer);
    AnswerDecides(e, s, answer);
    var err := ClerkErr(l.retried, answer.err);
    if l.pc.APut? {
      if err == OK {
        FinishKeepsInv(e, s, i, true);
      } else {
        SendGetKeepsInv(e, s, i, AGet, l.held);
      }
    } else {
      if ReleaseAfterPut(err) == Done {
        FinishKeepsInv(e, s, i, false);
      } else {
        SendGetKeepsInv(e, s, i, RGet, false);
      }
    }
  }

  lemma RetryKeepsInv(e: Setup, s: System, i: nat)
    requires Sound(e) && Inv(e, s) && Enabled(s, Retry(i))
    ensures Inv(e, Next(e, s, Retry(i)))
  {
    var l := s.locks[i];
    assert LockOk(e, s, i);
    PutsBefore(e, s, i);
    forall q | q in s.puts && q.i == i ensures PutTimely(s, q) && PutOk(e, s, q) {
    }
    match l.pc {
      case APut(version) => SendPutKeepsInv(e, s, i, l.pc, e.ids[i], version, true);
      case RPut(version) => SendPutKeepsInv(e, s, i, l.pc, "", version, true);
      case _ => SendGetKeepsInv(e, s, i, l.pc, l.held);
    }
  }

  lemma StepKeepsInv(e: Setup, s: System, step: Step)
    requires Sound(e) && Inv(e, s) && Enabled(s, step)
    ensures Inv(e, Next(e, s, step))
  {
    match step {
      case Acquire(i) => PutsBefore(e, s, i); assert LockOk(e, s, i); SendGetKeepsInv(e, s, i, AGet, s.locks[i].held);
      case Release(i) => PutsBefore(e, s, i); SendGetKeepsInv(e, s, i, RGet, false);
      case Retry(i) => RetryKeepsInv(e, s, i);
      case ServeGet(get) => ServeGetKeepsInv(e, s, get);
      case ServePut(put) => ServePutKeepsInv(e, s, put);
      case TakeGet(got) => TakeGetKeepsInv(e, s, got);
      case TakePut(answer) => TakePutKeepsInv(e, s, answer);
    }
  }

  lemma {:induction false} RunKeepsInv(e: Setup, run: seq<System>, steps: seq<Step>)
    requires Sound(e) && IsRun(e, run, steps)
    ensures Inv(e, run[|steps|])
    decreases |steps|
  {
    if steps != [] {
      var n := |steps| - 1;
      RunKeepsInv(e, run[..|steps|], steps[..n]);
      StepKeepsInv(e, run[n], steps[n]);
    }
  }

  /** Mutual exclusion: in every run at most one lock is held, and the stored value is then its id. */
  lemma MutualExclusion(e: Setup, run: seq<System>, steps: seq<Step>)
    requires Sound(e) && IsRun(e, run, steps)
    ensures var s := run[|steps|];
            && |s.locks| == |e.ids|
            && (forall i, j | 0 <= i < |s.locks| && 0 <= j < |s.locks| && s.locks[i].held && s.locks[j].held :: i == j)
            && (forall i | 0 <= i < |s.locks| && s.locks[i].held ::
                  e.name in s.store && s.store[e.name].value == e.ids[i])
  {
    RunKeepsInv(e, run, steps);
    var s := run[|steps|];
    forall i | 0 <= i < |s.locks| && s.locks[i].held
      ensures s.values[Now(s)] == e.ids[i] && e.name in s.store && s.store[e.name].value == e.ids[i]
    {
      assert LockOk(e, s, i);
    }
  }

  /** Release is definite: while a lock is idle and not held the stored value is not its id, and none of
      the requests it has ever sent can change the key any more. */
  lemma ReleaseIsDefinite(e: Setup, run: seq<System>, steps: seq<Step>, i: nat)
    requires Sound(e) && IsRun(e, run, steps)
    requires i < |run[|steps|].locks| && run[|steps|].locks[i].pc == Idle && !run[|steps|].locks[i].held
    ensures var s := run[|steps|];
            && |s.locks| == |e.ids|
            && (e.name in s.store ==> s.store[e.name].value != e.ids[i])
            && forall put | put in s.puts && put.i == i :: PutOf(s.store, e.name, put.value, put.version) == (s.store, ErrVersion)
  {
    RunKeepsInv(e, run, steps);
    var s := run[|steps|];
    assert LockOk(e, s, i);
    PutsBefore(e, s, i);
  }

  /** In Release, any answer to the put, ErrMaybe included, means that a put of the same lock has cleared
      the key, and the key does not hold the lock's id. */
  lemma ReleaseMaybeMeansCleared(e: Setup, run: seq<System>, steps: seq<Step>, answer: PutAnswer)
    requires Sound(e) && IsRun(e, run, steps) && Enabled(run[|steps|], TakePut(answer))
    requires run[|steps|].locks[answer.request.i].pc.RPut?
    ensures var s := run[|steps|];
            var v := s.locks[answer.request.i].pc.version;
            && |s.locks| == |e.ids| && v < |s.makers| == |s.values| - 1 && s.values[v + 1] == "" && s.makers[v].i == answer.request.i && s.makers[v].value == ""
            && e.name in s.store && s.store[e.name].value != e.ids[answer.request.i]
  {
    RunKeepsInv(e, run, steps);
    var s := run[|steps|];
    AnsweredPutIsPast(e, s, answer);
    AnswerDecides(e, s, answer);
  }

  /** A quiet network: what a method does when its messages arrive and nothing else happens. */

  // One step after another.
  ghost predicate Goes(e: Setup, s: System, step: Step, t: System) {
    |s.locks| == |e.ids| && Enabled(s, step) && Next(e, s, step) == t
  }

  ghost predicate Leads(e: Setup, run: seq<System>, steps: seq<Step>) {
    |run| == |steps| + 1 && forall k | 0 <= k < |steps| :: Goes(e, run[k], steps[k], run[k + 1])
  }

  // The lock is outside its methods.
  ghost predicate Settled(s: System, i: nat, held: bool) {
    i < |s.locks| && s.locks[i].pc == Idle && s.locks[i].held == held
  }

  // The Get of a method goes out, is served, and comes back.
  lemma QuietGet(e: Setup, s: System, i: nat, call: Step) returns (a: System, b: System)
    requires |s.locks| == |e.ids| && i < |e.ids| && s.locks[i].pc == Idle && (call == Acquire(i) || call == Release(i))
    ensures Goes(e, s, call, a) && Goes(e, a, ServeGet(GetRequest(i, a.locks[i].attempt)), b)
    ensures b.store == s.store && |b.locks| == |e.ids| && b.locks == a.locks && b.puts == s.puts
    ensures b.locks[i].pc == if call == Acquire(i) then AGet else RGet
    ensures Enabled(b, TakeGet(GetAnswer(i, b.locks[i].attempt, GetOf(s.store, e.name))))
  {
    a := Next(e, s, call);
    assert GetRequest(i, a.locks[i].attempt) in a.gets;
    b := Next(e, a, ServeGet(GetRequest(i, a.locks[i].attempt)));
    assert GetAnswer(i, b.locks[i].attempt, GetOf(s.store, e.name)) in b.gotten;
  }

  // A put that has just been sent, and names the version, is served and comes back with OK.
  lemma QuietPut(e: Setup, s: System, i: nat, value: string, version: Version) returns (a: System, b: System)
    requires |s.locks| == |e.ids| && i < |e.ids| && WellFormed(s.store) && version == VersionOf(s.store, e.name)
    requires s.locks[i].pc == APut(version) || s.locks[i].pc == RPut(version)
    requires PutRequest(i, s.locks[i].attempt, value, version) in s.puts
    ensures var put := PutRequest(i, s.locks[i].attempt, value, version);
            Goes(e, s, ServePut(put), a) && Goes(e, a, TakePut(PutAnswer(put, OK)), b)
    ensures b.store == Held(s.store, e.name, value) && |b.locks| == |e.ids|
    ensures b.locks[i].pc == Idle && b.locks[i].held == s.locks[i].pc.APut?
  {
    var put := PutRequest(i, s.locks[i].attempt, value, version);
    PutMeaning(s.store, e.name, value, version);
    a := Next(e, s, ServePut(put));
    b := Next(e, a, TakePut(PutAnswer(put, OK)));
  }

  /** From every state in which the key is missing or empty a lock outside its methods can acquire: its five steps can
      be taken one after the other, and then it is held and its id is stored. */
  lemma FreeLockCanBeTaken(e: Setup, s: System, i: nat) returns (run: seq<System>, steps: seq<Step>)
    requires |s.locks| == |e.ids| && i < |e.ids| && e.ids[i] != "" && WellFormed(s.store)
    requires s.locks[i].pc == Idle && IsFree(s.store, e.name)
    ensures Leads(e, run, steps) && |steps| == 5 && steps[0] == Acquire(i) && run[0] == s
    ensures Settled(run[5], i, true) && run[5].store == Held(s.store, e.name, e.ids[i])
  {
    var a, b := QuietGet(e, s, i, Acquire(i));
    var got := GetAnswer(i, b.locks[i].attempt, GetOf(s.store, e.name));
    var c := Next(e, b, TakeGet(got));
    var version := VersionOf(s.store, e.name);
    assert PutRequest(i, c.locks[i].attempt, e.ids[i], version) in c.puts;
    var d, f := QuietPut(e, c, i, e.ids[i], version);
    var put := PutRequest(i, c.locks[i].attempt, e.ids[i], version);
    run := [s, a, b, c, d, f];
    steps := [Acquire(i), ServeGet(GetRequest(i, a.locks[i].attempt)), TakeGet(got), ServePut(put), TakePut(PutAnswer(put, OK))];
  }

  /** From every state in which the key holds its id a lock outside its methods can release it in five steps. */
  lemma HeldLockCanBeReleased(e: Setup, s: System, i: nat) returns (run: seq<System>, steps: seq<Step>)
    requires |s.locks| == |e.ids| && i < |e.ids| && e.ids[i] != "" && WellFormed(s.store)
    requires s.locks[i].pc == Idle && e.name in s.store && s.store[e.name].value == e.ids[i]
    ensures Leads(e, run, steps) && |steps| == 5 && steps[0] == Release(i) && run[0] == s
    ensures Settled(run[5], i, false) && run[5].store == Held(s.store, e.name, "")
  {
    var a, b := QuietGet(e, s, i, Release(i));
    var got := GetAnswer(i, b.locks[i].attempt, GetOf(s.store, e.name));
    var c := Next(e, b, TakeGet(got));
    var version := VersionOf(s.store, e.name);
    assert PutRequest(i, c.locks[i].attempt, "", version) in c.puts;
    var d, f := QuietPut(e, c, i, "", version);
    var put := PutRequest(i, c.locks[i].attempt, "", version);
    run := [s, a, b, c, d, f];
    steps := [Release(i), ServeGet(GetRequest(i, a.locks[i].attempt)), TakeGet(got), ServePut(put), TakePut(PutAnswer(put, OK))];
  }

  /** While another id is stored, Acquire asks again and has put nothing. */
  lemma TakenLockIsLeft(e: Setup, s: System, i: nat) returns (run: seq<System>, steps: seq<Step>)
    requires |s.locks| == |e.ids| && i < |e.ids| && WellFormed(s.store)
    requires s.locks[i].pc == Idle && !IsFree(s.store, e.name) && s.store[e.name].value != e.ids[i]
    ensures Leads(e, run, steps) && |steps| == 3 && steps[0] == Acquire(i) && run[0] == s
    ensures i < |run[3].locks| && run[3].locks[i].pc == AGet && run[3].store == s.store && run[3].puts == s.puts
  {
    var a, b := QuietGet(e, s, i, Acquire(i));
    var got := GetAnswer(i, b.locks[i].attempt, GetOf(s.store, e.name));
    run := [s, a, b, Next(e, b, TakeGet(got))];
    steps := [Acquire(i), ServeGet(GetRequest(i, a.locks[i].attempt)), TakeGet(got)];
  }

  /** The network forgets nothing: whatever was ever sent may run again, and whatever was ever answered may arrive as
      long as its lock waits for it. */
  lemma NetworkForgetsNothing(e: Setup, s: System, step: Step)
    requires |s.locks| == |e.ids| && Enabled(s, step)
    ensures var t := Next(e, s, step);
            && s.gets <= t.gets && s.puts <= t.puts && s.gotten <= t.gotten && s.answered <= t.answered
            && (forall get | get in s.gets :: Enabled(t, ServeGet(get)))
            && (forall put | put in s.puts :: Enabled(t, ServePut(put)))
            && |t.locks| == |s.locks| && (forall i: nat | i < |t.locks| && t.locks[i].pc != Idle :: Enabled(t, Retry(i)))
  {
  }
}
