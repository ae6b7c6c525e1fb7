/** Clients that append to one shared list by reading it and putting it back, over a network that loses
    requests and replies, and the checker that inspects the list afterwards. */
module Appends {
  import opened Choice
  import opened KvServer
  import opened Clerk
  import opened Options

  datatype Entry = Entry(id: nat, n: nat)

  /** The checker. */

  // The entry number a client's next entry must at least have.
  ghost function NextOf(es: seq<Entry>, c: nat): nat {
    if es == [] then 0
    else if es[|es| - 1].id == c then es[|es| - 1].n + 1
    else NextOf(es[..|es| - 1], c)
  }

  ghost function Count(es: seq<Entry>, c: nat): nat {
    if es == [] then 0 else Count(es[..|es| - 1], c) + if es[|es| - 1].id == c then 1 else 0
  }

  // The entries of each client have increasing numbers.
  ghost predicate Ordered(es: seq<Entry>) {
    forall a, b | 0 <= a < b < |es| && es[a].id == es[b].id :: es[a].n < es[b].n
  }

  ghost predicate WithinAnswers(es: seq<Entry>, c: nat, r: ClntRes) {
    && NextOf(es, c) - Count(es, c) <= r.nmaybe
    && NextOf(es, c) <= r.nok + r.nmaybe
  }

  lemma {:induction false} NextIsBound(es: seq<Entry>, c: nat)
    requires Ordered(es)
    ensures forall a | 0 <= a < |es| && es[a].id == c :: es[a].n < NextOf(es, c)
    ensures NextOf(es, c) == 0 || exists a :: 0 <= a < |es| && es[a] == Entry(c, NextOf(es, c) - 1)
    decreases |es|
  {
    if es != [] {
      var n := |es| - 1;
      NextIsBound(es[..n], c);
      if es[n].id == c {
        assert es[n] == Entry(c, NextOf(es, c) - 1);
      } else if NextOf(es, c) != 0 {
        var a :| 0 <= a < n && es[..n][a] == Entry(c, NextOf(es, c) - 1);
        assert es[a] == Entry(c, NextOf(es, c) - 1);
      }
    }
  }

  lemma OrderedExtends(es: seq<Entry>, k: nat)
    requires k < |es| && Ordered(es[..k])
    ensures Ordered(es[..k + 1]) <==> NextOf(es[..k], es[k].id) <= es[k].n
  {
    var front := es[..k];
    NextIsBound(front, es[k].id);
    assert forall a | 0 <= a < k :: front[a] == es[a] == es[..k + 1][a];
    if NextOf(front, es[k].id) > es[k].n {
      var a :| 0 <= a < k && front[a] == Entry(es[k].id, NextOf(front, es[k].id) - 1);
      assert es[..k + 1][a].id == es[..k + 1][k].id;
    }
  }

  ghost predicate Occurs(es: seq<Entry>, c: nat) {
    exists a :: 0 <= a < |es| && es[a].id == c
  }

  // A client without a result makes the checker panic.
  ghost predicate ClientWithin(es: seq<Entry>, rs: seq<ClntRes>, c: nat) {
    c < |rs| && WithinAnswers(es, c, rs[c])
  }

  ghost predicate AllWithin(es: seq<Entry>, nclnt: nat, rs: seq<ClntRes>) {
    forall c: nat | c < nclnt || Occurs(es, c) :: ClientWithin(es, rs, c)
  }

  // What the checker demands.
  ghost predicate Accepted(es: seq<Entry>, nclnt: nat, rs: seq<ClntRes>, ver: Version) {
    Ordered(es) && |es| + 1 == ver && AllWithin(es, nclnt, rs)
  }

  // A missing key of a map counts as zero.
  function At(m: map<nat, int>, c: nat): int {
    if c in m then m[c] else 0
  }

  // The two maps of the checker after some entries.
  ghost predicate Scanned(es: seq<Entry>, nclnt: nat, expected: map<nat, int>, skipped: map<nat, int>) {
    && Ordered(es)
    && forall c: nat :: ScannedFor(es, nclnt, expected, skipped, c)
  }

  ghost predicate ScannedFor(es: seq<Entry>, nclnt: nat, expected: map<nat, int>, skipped: map<nat, int>, c: nat) {
    && (c in expected <==> c < nclnt || Occurs(es, c))
    && At(expected, c) == NextOf(es, c)
    && At(skipped, c) == NextOf(es, c) - Count(es, c)
  }

  lemma NothingScanned(nclnt: nat, expected: map<nat, int>, skipped: map<nat, int>)
    requires forall c: nat :: (c in expected <==> c < nclnt) && At(expected, c) == 0 && At(skipped, c) == 0
    ensures Scanned([], nclnt, expected, skipped)
  {
  }

  lemma CountsLast(es: seq<Entry>, e: Entry, c: nat)
    ensures NextOf(es + [e], c) == if e.id == c then e.n + 1 else NextOf(es, c)
    ensures Count(es + [e], c) == Count(es, c) + if e.id == c then 1 else 0
    ensures Occurs(es + [e], c) <==> Occurs(es, c) || c == e.id
  {
    var more := es + [e];
    assert more[..|es|] == es && more[|es|] == e;
    if Occurs(es, c) {
      var a :| 0 <= a < |es| && es[a].id == c;
      assert more[a].id == c;
    }
  }

  lemma OrderedLast(es: seq<Entry>, e: Entry)
    requires Ordered(es)
    ensures Ordered(es + [e]) <==> NextOf(es, e.id) <= e.n
  {
    var more := es + [e];
    assert more[..|es|] == es && more[..|es| + 1] == more;
    OrderedExtends(more, |es|);
  }

  // One more entry that does not fall back: the gap before it counts as skipped.
  lemma ScanStep(es: seq<Entry>, e: Entry, nclnt: nat, expected: map<nat, int>, skipped: map<nat, int>)
    requires Scanned(es, nclnt, expected, skipped) && At(expected, e.id) <= e.n
    ensures Scanned(es + [e], nclnt, expected[e.id := e.n + 1], skipped[e.id := At(skipped, e.id) + e.n - At(expected, e.id)])
  {
    assert ScannedFor(es, nclnt, expected, skipped, e.id);
    OrderedLast(es, e);
    var later, gaps := expected[e.id := e.n + 1], skipped[e.id := At(skipped, e.id) + e.n - At(expected, e.id)];
    forall c: nat ensures ScannedFor(es + [e], nclnt, later, gaps, c) {
      assert ScannedFor(es, nclnt, expected, skipped, c);
      CountsLast(es, e, c);
    }
  }

  // Without a gap nothing new is skipped.
  lemma NothingSkipped(es: seq<Entry>, nclnt: nat, expected: map<nat, int>, skipped: map<nat, int>, c: nat)
    requires Scanned(es, nclnt, expected, skipped[c := At(skipped, c)])
    ensures Scanned(es, nclnt, expected, skipped)
  {
    forall d: nat ensures ScannedFor(es, nclnt, expected, skipped, d) {
      assert ScannedFor(es, nclnt, expected, skipped[c := At(skipped, c)], d);
    }
  }

  method CheckAppends(es: seq<Entry>, nclnt: nat, rs: seq<ClntRes>, ver: Version) returns (ok: bool)
    ensures ok <==> Accepted(es, nclnt, rs, ver)
  {
    var expected: map<nat, int>, skipped: map<nat, int> := map[], map[];
    for i := 0 to nclnt
      invariant forall c: nat :: (c in expected <==> c < i) && At(expected, c) == 0 && At(skipped, c) == 0
    {
      expected := expected[i := 0];
      skipped := skipped[i := 0];
    }
    NothingScanned(nclnt, expected, skipped);
    assert es[..0] == [];
    for k := 0 to |es|
      invariant Scanned(es[..k], nclnt, expected, skipped)
    {
      var e := es[k];
      assert es[..k + 1] == es[..k] + [e];
      assert ScannedFor(es[..k], nclnt, expected, skipped, e.id);
      if At(expected, e.id) > e.n {
        FallsBack(es, k);
        return false;
      }
      ScanStep(es[..k], e, nclnt, expected, skipped);
      if At(expected, e.id) == e.n {
        NothingSkipped(es[..k + 1], nclnt, expected[e.id := e.n + 1], skipped, e.id);
        expected := expected[e.id := At(expected, e.id) + 1];
      } else {
        var s := e.n - At(expected, e.id);
        expected := expected[e.id := e.n + 1];
        skipped := skipped[e.id := At(skipped, e.id) + s];
      }
    }
    assert es[..|es|] == es;
    assert Scanned(es, nclnt, expected, skipped) && Ordered(es);
    if |es| + 1 != ver {
      return false;
    }
    ok := Compare(es, nclnt, expected, skipped, rs);
  }

  lemma FallsBack(es: seq<Entry>, k: nat)
    requires k < |es| && Ordered(es[..k]) && NextOf(es[..k], es[k].id) > es[k].n
    ensures !Ordered(es)
  {
    OrderedExtends(es, k);
    assert forall a | 0 <= a <= k :: es[..k + 1][a] == es[a];
  }

  // The last loop, over the map in any order.
  method Compare(es: seq<Entry>, nclnt: nat, expected: map<nat, int>, skipped: map<nat, int>, rs: seq<ClntRes>)
      returns (ok: bool)
    requires Scanned(es, nclnt, expected, skipped)
    ensures ok <==> AllWithin(es, nclnt, rs)
  {
    var keys := expected.Keys;
    while keys != {}
      invariant keys <= expected.Keys
      invariant forall c | c in expected && c !in keys :: ClientWithin(es, rs, c)
      decreases keys
    {
      var c := TakeAny(keys);
      keys := keys - {c};
      assert ScannedFor(es, nclnt, expected, skipped, c);
      if c >= |rs| || At(skipped, c) > rs[c].nmaybe || expected[c] > rs[c].nok + rs[c].nmaybe {
        assert c in expected && At(expected, c) == expected[c] && !ClientWithin(es, rs, c);
        return false;
      }
    }
    forall c: nat | c < nclnt || Occurs(es, c) ensures ClientWithin(es, rs, c) {
      assert ScannedFor(es, nclnt, expected, skipped, c);
    }
    return true;
  }

  /** The clients. */

  // A client is between appends, or its Put is under way: on its way to the server, or run and answered.
  datatype Phase = Ready | Putting(es: seq<Entry>, version: Version, retried: bool, ran: Option<Err>)

  // The answers to a client's finished appends, and whether its present Put has taken effect, are kept
  // for the record.
  datatype Client = Client(n: nat, phase: Phase, nok: nat, nmaybe: nat, answers: seq<Err>, effect: bool)

  datatype System = System(store: Store<seq<Entry>>, clients: seq<Client>)

  datatype Step = Read(c: nat) | Run(c: nat) | LoseRequest(c: nat) | LoseReply(c: nat) | Finish(c: nat)

  // The key "k".
  const KEY: Key := [107]

  // The test puts the empty list first.
  ghost predicate Init(s: System) {
    && s.store == map[KEY := Item(KEY, [], 1)]
    && forall c | 0 <= c < |s.clients| :: s.clients[c] == Client(0, Ready, 0, 0, [], false)
  }

  ghost predicate Enabled(s: System, step: Step) {
    && step.c < |s.clients|
    && var phase := s.clients[step.c].phase;
       match step
       case Read(_) => phase == Ready && KEY in s.store
       case Run(_) => phase.Putting? && phase.ran == None
       case LoseRequest(_) => phase.Putting? && phase.ran == None
       case LoseReply(_) => phase.Putting? && phase.ran != None
       case Finish(_) => phase.Putting? && phase.ran != None
  }

  ghost function Next(s: System, step: Step): System
    requires Enabled(s, step)
  {
    var i := step.c;
    var c := s.clients[i];
    match step
    case Read(_) =>
      var item := s.store[KEY];
      s.(clients := s.clients[i := c.(phase := Putting(item.value + [Entry(i, c.n)], item.version, false, None))])
    case Run(_) =>
      var (store, err) := PutOf(s.store, KEY, c.phase.es, c.phase.version);
      System(store, s.clients[i := c.(phase := c.phase.(ran := Some(err)), effect := c.effect || err == OK)])
    case LoseRequest(_) => s.(clients := s.clients[i := c.(phase := c.phase.(retried := true))])
    case LoseReply(_) => s.(clients := s.clients[i := c.(phase := c.phase.(retried := true, ran := None))])
    case Finish(_) =>
      var err := ClerkErr(c.phase.retried, c.phase.ran.value);
      var done := c.(phase := Ready, n := c.n + 1, answers := c.answers + [err], effect := false);
      s.(clients := s.clients[i := if err == OK then done.(nok := c.nok + 1)
                                   else if err == ErrMaybe then done.(nmaybe := c.nmaybe + 1)
                                   else c.(phase := Ready, effect := false)])
  }

  ghost predicate IsRun(run: seq<System>, steps: seq<Step>) {
    && |run| == |steps| + 1 && Init(run[0])
    && forall i | 0 <= i < |steps| :: Enabled(run[i], steps[i]) && run[i + 1] == Next(run[i], steps[i])
  }

  /** The invariant. */

  ghost function List(s: System): seq<Entry>
    requires KEY in s.store
  {
    s.store[KEY].value
  }

  ghost function Tally(answers: seq<Err>, err: Err): nat {
    if answers == [] then 0
    else Tally(answers[..|answers| - 1], err) + if answers[|answers| - 1] == err then 1 else 0
  }

  // One try of an append: the list and version that the get returns, and the answer to the put.
  datatype Attempted = Attempted(list: seq<Entry>, version: Version, answer: Err)

  datatype Sent = Sent(list: seq<Entry>, version: Version)

  // How many of the first n puts were answered so.
  function Given(tries: seq<Attempted>, n: nat, err: Err): nat
    requires n <= |tries|
  {
    if n == 0 then 0 else Given(tries, n - 1, err) + if tries[n - 1].answer == err then 1 else 0
  }

  // A put extends the list just read by the entry the client is at, and names the version just read.
  function PutAt(me: nat, tries: seq<Attempted>, k: nat): Sent
    requires k < |tries|
  {
    Sent(tries[k].list + [Entry(me, Given(tries, k, OK) + Given(tries, k, ErrMaybe))], tries[k].version)
  }

  ghost predicate PutsAppend(me: nat, tries: seq<Attempted>, puts: seq<Sent>)
    requires |puts| <= |tries|
  {
    forall k | 0 <= k < |puts| :: puts[k] == PutAt(me, tries, k)
  }

  // The loop of one client over the outcomes of its gets and puts. It moves on to its next entry after OK and
  // ErrMaybe, and tries the same entry again after ErrVersion with the list as it is then.
  method OneClientAppend(me: nat, tries: seq<Attempted>) returns (res: ClntRes, puts: seq<Sent>)
    ensures res == ClntRes(Given(tries, |tries|, OK), Given(tries, |tries|, ErrMaybe))
    ensures |puts| == |tries| && PutsAppend(me, tries, puts)
  {
    var nmay, nok, i, k := 0, 0, 0, 0;
    puts := [];
    while k < |tries|
      invariant |puts| == k <= |tries| && PutsAppend(me, tries, puts)
      invariant nok == Given(tries, k, OK) && nmay == Given(tries, k, ErrMaybe)
      invariant k < |tries| ==> i == nok + nmay
    {
      while k < |tries|
        invariant |puts| == k <= |tries| && PutsAppend(me, tries, puts)
        invariant nok == Given(tries, k, OK) && nmay == Given(tries, k, ErrMaybe) && i == nok + nmay
      {
        var es := tries[k].list;
        es := es + [Entry(me, i)];
        puts := puts + [Sent(es, tries[k].version)];
        k := k + 1;
        if tries[k - 1].answer == OK {
          nok := nok + 1;
          break;
        } else if tries[k - 1].answer == ErrMaybe {
          nmay := nmay + 1;
          break;
        }
      }
      i := i + 1;
    }
    res := ClntRes(nok, nmay);
  }

  ghost predicate AnswersOk(c: Client) {
    && |c.answers| == c.n
    && (forall j | 0 <= j < c.n :: c.answers[j] == OK || c.answers[j] == ErrMaybe)
    && c.nok == Tally(c.answers, OK) && c.nmaybe == Tally(c.answers, ErrMaybe)
  }

  // The entries of a client are appends it has finished, and the present one if it has taken effect.
  ghost predicate EntriesOk(list: seq<Entry>, i: nat, c: Client) {
    && (forall a | 0 <= a < |list| && list[a].id == i :: list[a].n < c.n || (list[a].n == c.n && c.effect))
    && (forall j | 0 <= j < |c.answers| && c.answers[j] == OK :: Entry(i, j) in list)
    && (c.effect ==> Entry(i, c.n) in list)
  }

  ghost predicate PutOk(list: seq<Entry>, version: Version, i: nat, c: Client) {
    match c.phase
    case Ready => !c.effect
    case Putting(es, v, retried, ran) =>
      && 1 <= v <= version
      && (v == version ==> es == list + [Entry(i, c.n)] && !c.effect)
      && (ran == None && !retried ==> !c.effect)
      && (ran.Some? ==> ran.value == OK || ran.value == ErrVersion)
      && (ran == Some(OK) ==> c.effect)
      && (ran == Some(ErrVersion) && !retried ==> !c.effect)
  }

  ghost predicate Inv(s: System) {
    && KEY in s.store
    && s.store[KEY].version == |List(s)| + 1
    && Ordered(List(s))
    && (forall e | e in List(s) :: e.id < |s.clients|)
    && (forall i | 0 <= i < |s.clients| ::
          AnswersOk(s.clients[i]) && EntriesOk(List(s), i, s.clients[i])
          && PutOk(List(s), s.store[KEY].version, i, s.clients[i]))
  }

  // A put that takes effect appends exactly one entry, the client's present one.
  lemma RunAppends(s: System, i: nat)
    requires Inv(s) && Enabled(s, Run(i))
    ensures var t := Next(s, Run(i));
            KEY in t.store &&
            (if t.clients[i].phase.ran == Some(OK) then
               List(t) == List(s) + [Entry(i, s.clients[i].n)] && t.store[KEY].version == s.store[KEY].version + 1
               && !s.clients[i].effect && t.clients[i].effect
             else t.store == s.store && t.clients[i].phase.ran == Some(ErrVersion) && t.clients[i].effect == s.clients[i].effect)
  {
  }

  lemma AppendKeepsOrdered(list: seq<Entry>, e: Entry)
    requires Ordered(list) && forall a | 0 <= a < |list| && list[a].id == e.id :: list[a].n < e.n
    ensures Ordered(list + [e])
  {
  }

  lemma RunKeepsInv(s: System, i: nat)
    requires Inv(s) && Enabled(s, Run(i))
    ensures Inv(Next(s, Run(i)))
  {
    var t := Next(s, Run(i));
    RunAppends(s, i);
    if t.clients[i].phase.ran == Some(OK) {
      AppendKeepsOrdered(List(s), Entry(i, s.clients[i].n));
      forall j | 0 <= j < |t.clients|
        ensures AnswersOk(t.clients[j]) && EntriesOk(List(t), j, t.clients[j])
                && PutOk(List(t), t.store[KEY].version, j, t.clients[j])
      {
        assert EntriesOk(List(s), j, s.clients[j]);
        assert List(t)[|List(s)|] == Entry(i, s.clients[i].n);
      }
    }
  }

  lemma TallyLast(answers: seq<Err>, err: Err, e: Err)
    ensures Tally(answers + [err], e) == Tally(answers, e) + if err == e then 1 else 0
  {
    assert (answers + [err])[..|answers|] == answers;
  }

  // The client of a finished put: its answer is recorded unless it has to try again.
  lemma FinishKeepsAnswers(s: System, i: nat)
    requires Enabled(s, Finish(i)) && AnswersOk(s.clients[i])
    requires var ran := s.clients[i].phase.ran.value; ran == OK || ran == ErrVersion
    ensures AnswersOk(Next(s, Finish(i)).clients[i])
  {
    var c := s.clients[i];
    var err := ClerkErr(c.phase.retried, c.phase.ran.value);
    TallyLast(c.answers, err, OK);
    TallyLast(c.answers, err, ErrMaybe);
  }

  lemma FinishKeepsEntries(s: System, i: nat)
    requires KEY in s.store && Enabled(s, Finish(i)) && |s.clients[i].answers| == s.clients[i].n
    requires EntriesOk(List(s), i, s.clients[i]) && PutOk(List(s), s.store[KEY].version, i, s.clients[i])
    ensures EntriesOk(List(s), i, Next(s, Finish(i)).clients[i])
  {
    var c := s.clients[i];
    var err := ClerkErr(c.phase.retried, c.phase.ran.value);
    forall j | 0 <= j < |c.answers + [err]| && (c.answers + [err])[j] == OK && err == OK ensures Entry(i, j) in List(s) {
      assert j < c.n ==> c.answers[j] == OK;
    }
  }

  lemma FinishKeepsInv(s: System, i: nat)
    requires Inv(s) && Enabled(s, Finish(i))
    ensures Inv(Next(s, Finish(i)))
  {
    assert AnswersOk(s.clients[i]) && PutOk(List(s), s.store[KEY].version, i, s.clients[i]);
    FinishKeepsAnswers(s, i);
    FinishKeepsEntries(s, i);
  }

  lemma StepKeepsInv(s: System, step: Step)
    requires Inv(s) && Enabled(s, step)
    ensures Inv(Next(s, step))
  {
    match step {
      case Read(i) =>
      case Run(i) => RunKeepsInv(s, i);
      case LoseRequest(i) =>
      case LoseReply(i) =>
      case Finish(i) => FinishKeepsInv(s, i);
    }
  }

  lemma {:induction false} RunHolds(run: seq<System>, steps: seq<Step>)
    requires IsRun(run, steps)
    ensures Inv(run[|steps|])
    decreases |steps|
  {
    if steps != [] {
      var n := |steps| - 1;
      RunHolds(run[..|steps|], steps[..n]);
      StepKeepsInv(run[n], steps[n]);
    }
  }

  /** No lost update: every step leaves the list as it is or extends it by one entry. */
  lemma ListsOnlyGrow(run: seq<System>, steps: seq<Step>, k: nat)
    requires IsRun(run, steps) && k < |steps|
    ensures KEY in run[k].store && KEY in run[k + 1].store
    ensures List(run[k + 1]) == List(run[k]) || exists e :: List(run[k + 1]) == List(run[k]) + [e]
    ensures run[k + 1].store[KEY].version - run[k].store[KEY].version == |List(run[k + 1])| - |List(run[k])|
  {
    RunHolds(run[..k + 1], steps[..k]);
    if steps[k].Run? {
      RunAppends(run[k], steps[k].c);
    }
  }

  ghost function Occurrences(list: seq<Entry>, e: Entry): nat {
    multiset(list)[e]
  }

  lemma {:induction false} OrderedMeansOnce(list: seq<Entry>, e: Entry)
    requires Ordered(list)
    ensures Occurrences(list, e) == if e in list then 1 else 0
    decreases |list|
  {
    if list != [] {
      var n := |list| - 1;
      OrderedMeansOnce(list[..n], e);
      assert list == list[..n] + [list[n]];
      assert multiset(list) == multiset(list[..n]) + multiset{list[n]};
      if list[n] == e {
        assert e !in list[..n];
      }
    }
  }

  /** Every append that was answered OK is in the list exactly once, every one answered ErrMaybe at most
      once, and the list holds nothing else but appends still under way. */
  lemma AppendsAppearOnce(run: seq<System>, steps: seq<Step>, e: Entry)
    requires IsRun(run, steps)
    ensures var s := run[|steps|];
            KEY in s.store &&
            var times := Occurrences(List(s), e);
            && times <= 1
            && (e.id < |s.clients| && e.n < |s.clients[e.id].answers| && s.clients[e.id].answers[e.n] == OK ==> times == 1)
            && (times == 1 ==> e.id < |s.clients| &&
                               (e.n < s.clients[e.id].n || (e.n == s.clients[e.id].n && s.clients[e.id].effect)))
  {
    RunHolds(run, steps);
    var s := run[|steps|];
    OrderedMeansOnce(List(s), e);
    if e.id < |s.clients| {
      assert EntriesOk(List(s), e.id, s.clients[e.id]);
    }
  }

  /** The clients of a run follow the loop of OneClientAppend. */

  // What the gets of a client returned.
  datatype Got = Got(list: seq<Entry>, version: Version)

  ghost function Gets(run: seq<System>, steps: seq<Step>, c: nat): seq<Got>
    requires IsRun(run, steps)
  {
    if steps == [] then []
    else
      var n := |steps| - 1;
      MoreGets(run[n], steps[n], c, Gets(run[..|steps|], steps[..n], c))
  }

  ghost function MoreGets(s: System, step: Step, c: nat, gets: seq<Got>): seq<Got>
    requires Enabled(s, step)
  {
    if step == Read(c) then gets + [Got(List(s), s.store[KEY].version)] else gets
  }

  // What it sent in the puts that were answered.
  ghost function Puts(run: seq<System>, steps: seq<Step>, c: nat): seq<Sent>
    requires IsRun(run, steps)
  {
    if steps == [] then []
    else
      var n := |steps| - 1;
      MorePuts(run[n], steps[n], c, Puts(run[..|steps|], steps[..n], c))
  }

  ghost function MorePuts(s: System, step: Step, c: nat, puts: seq<Sent>): seq<Sent>
    requires Enabled(s, step)
  {
    if step == Finish(c) then puts + [Sent(s.clients[c].phase.es, s.clients[c].phase.version)] else puts
  }

  // How its clerk answered them.
  ghost function Answers(run: seq<System>, steps: seq<Step>, c: nat): seq<Err>
    requires IsRun(run, steps)
  {
    if steps == [] then []
    else
      var n := |steps| - 1;
      MoreAnswers(run[n], steps[n], c, Answers(run[..|steps|], steps[..n], c))
  }

  ghost function MoreAnswers(s: System, step: Step, c: nat, answers: seq<Err>): seq<Err>
    requires Enabled(s, step)
  {
    if step == Finish(c) then answers + [ClerkErr(s.clients[c].phase.retried, s.clients[c].phase.ran.value)] else answers
  }

  ghost function TriesOf(gets: seq<Got>, answers: seq<Err>): seq<Attempted>
    requires |answers| <= |gets|
  {
    seq(|answers|, k requires 0 <= k < |answers| => Attempted(gets[k].list, gets[k].version, answers[k]))
  }

  lemma {:induction false} GivenInPrefix(tries: seq<Attempted>, more: seq<Attempted>, n: nat, err: Err)
    requires n <= |tries| <= |more| && forall k | 0 <= k < n :: more[k] == tries[k]
    ensures Given(more, n, err) == Given(tries, n, err)
    decreases n
  {
    if n > 0 {
      GivenInPrefix(tries, more, n - 1, err);
    }
  }

  // The client has made these gets, put what the loop puts, and counts what the loop counts; the put under
  // way, if any, is the next of the loop.
  ghost predicate InLoop(c: nat, client: Client, gets: seq<Got>, puts: seq<Sent>, answers: seq<Err>) {
    && |puts| == |answers| <= |gets|
    && var tries := TriesOf(gets, answers);
    && var (nok, nmaybe) := (Given(tries, |tries|, OK), Given(tries, |tries|, ErrMaybe));
    && client.nok == nok && client.nmaybe == nmaybe && client.n == nok + nmaybe
    && PutsAppend(c, tries, puts)
    && match client.phase
       case Ready => |gets| == |answers|
       case Putting(es, version, _, _) =>
         |gets| == |answers| + 1 && es == gets[|answers|].list + [Entry(c, client.n)] && version == gets[|answers|].version
  }

  lemma GetKeepsLoop(c: nat, client: Client, gets: seq<Got>, puts: seq<Sent>, answers: seq<Err>, got: Got)
    requires InLoop(c, client, gets, puts, answers) && client.phase == Ready
    ensures InLoop(c, client.(phase := Putting(got.list + [Entry(c, client.n)], got.version, false, None)),
                   gets + [got], puts, answers)
  {
    assert TriesOf(gets + [got], answers) == TriesOf(gets, answers);
  }

  lemma AnswerKeepsLoop(c: nat, client: Client, after: Client, gets: seq<Got>, puts: seq<Sent>, answers: seq<Err>, err: Err)
    requires InLoop(c, client, gets, puts, answers) && client.phase.Putting? && after.phase == Ready
    requires after.nok == client.nok + if err == OK then 1 else 0
    requires after.nmaybe == client.nmaybe + if err == ErrMaybe then 1 else 0
    requires after.n == client.n + if err == OK || err == ErrMaybe then 1 else 0
    ensures InLoop(c, after, gets, puts + [Sent(client.phase.es, client.phase.version)], answers + [err])
  {
    var tries, more := TriesOf(gets, answers), TriesOf(gets, answers + [err]);
    var k := |answers|;
    forall e: Err, n: nat | n <= k ensures Given(more, n, e) == Given(tries, n, e) {
      GivenInPrefix(tries, more, n, e);
    }
    var sent := puts + [Sent(client.phase.es, client.phase.version)];
    assert PutAt(c, more, k) == sent[k];
    forall j | 0 <= j < |sent| ensures sent[j] == PutAt(c, more, j) {
      assert j < k ==> sent[j] == puts[j] == PutAt(c, tries, j);
    }
  }

  lemma StepKeepsLoop(s: System, step: Step, c: nat, gets: seq<Got>, puts: seq<Sent>, answers: seq<Err>)
    requires Enabled(s, step) && c < |s.clients| && InLoop(c, s.clients[c], gets, puts, answers)
    ensures var t := Next(s, step);
            c < |t.clients| &&
            InLoop(c, t.clients[c], MoreGets(s, step, c, gets), MorePuts(s, step, c, puts), MoreAnswers(s, step, c, answers))
  {
    var client := s.clients[c];
    if step == Read(c) {
      GetKeepsLoop(c, client, gets, puts, answers, Got(List(s), s.store[KEY].version));
    } else if step == Finish(c) {
      var err := ClerkErr(client.phase.retried, client.phase.ran.value);
      AnswerKeepsLoop(c, client, Next(s, step).clients[c], gets, puts, answers, err);
    }
  }

  /** In every run the gets, puts and answers of a client are those of OneClientAppend: each put is the one the
      loop makes from the gets and answers before it, and the counts are those the loop returns. */
  lemma {:induction false} RunFollowsLoop(run: seq<System>, steps: seq<Step>, c: nat)
    requires IsRun(run, steps) && c < |run[|steps|].clients|
    ensures InLoop(c, run[|steps|].clients[c], Gets(run, steps, c), Puts(run, steps, c), Answers(run, steps, c))
    decreases |steps|
  {
    if steps != [] {
      var n := |steps| - 1;
      var front, before := run[..|steps|], steps[..n];
      RunFollowsLoop(front, before, c);
      StepKeepsLoop(run[n], steps[n], c, Gets(front, before, c), Puts(front, before, c), Answers(front, before, c));
    }
  }

  /** An append that loses no message and meets no other succeeds: from every state in which the client is between
      appends its three steps can be taken one after the other; they add its entry to the list and count one OK. */
  lemma QuietAppend(s: System, c: nat)
    requires c < |s.clients| && s.clients[c].phase == Ready && KEY in s.store
    ensures var a := Next(s, Read(c));
            Enabled(a, Run(c)) &&
            var b := Next(a, Run(c));
            Enabled(b, Finish(c)) &&
            var t := Next(b, Finish(c));
            && KEY in t.store && List(t) == List(s) + [Entry(c, s.clients[c].n)]
            && t.store[KEY].version == s.store[KEY].version + 1
            && t.clients[c].phase == Ready && t.clients[c].n == s.clients[c].n + 1
            && t.clients[c].nok == s.clients[c].nok + 1 && t.clients[c].nmaybe == s.clients[c].nmaybe
  {
  }

  /** If the reply to its put is lost, the entry is in the list once and is counted as ErrMaybe. */
  lemma LostReplyAppend(s: System, c: nat)
    requires c < |s.clients| && s.clients[c].phase == Ready && KEY in s.store
    ensures var a := Next(s, Read(c));
            Enabled(a, Run(c)) &&
            var b := Next(a, Run(c));
            Enabled(b, LoseReply(c)) &&
            var d := Next(b, LoseReply(c));
            Enabled(d, Run(c)) &&
            var f := Next(d, Run(c));
            Enabled(f, Finish(c)) &&
            var t := Next(f, Finish(c));
            && KEY in t.store && List(t) == List(s) + [Entry(c, s.clients[c].n)]
            && t.clients[c].phase == Ready && t.clients[c].n == s.clients[c].n + 1
            && t.clients[c].nok == s.clients[c].nok && t.clients[c].nmaybe == s.clients[c].nmaybe + 1
  {
  }

  // If its request is lost the put is sent again and counted as OK.
  lemma LostRequestAppend(s: System, c: nat)
    requires c < |s.clients| && s.clients[c].phase == Ready && KEY in s.store
    ensures var a := Next(s, Read(c));
            Enabled(a, LoseRequest(c)) &&
            var b := Next(a, LoseRequest(c));
            Enabled(b, Run(c)) &&
            var d := Next(b, Run(c));
            Enabled(d, Finish(c)) &&
            var t := Next(d, Finish(c));
            && KEY in t.store && List(t) == List(s) + [Entry(c, s.clients[c].n)]
            && t.clients[c].phase == Ready && t.clients[c].nok == s.clients[c].nok + 1
  {
  }

  /** The counting behind the checker. */

  ghost function Numbers(list: seq<Entry>, c: nat): set<nat> {
    set a | 0 <= a < |list| && list[a].id == c :: list[a].n
  }

  ghost function Below(n: nat): (r: set<nat>)
    ensures |r| == n && forall j: nat :: j in r <==> j < n
  {
    if n == 0 then {} else Below(n - 1) + {n - 1}
  }

  ghost function Places(answers: seq<Err>, err: Err): set<nat> {
    set j: nat | j < |answers| && answers[j] == err
  }

  lemma NumbersLast(list: seq<Entry>, e: Entry, c: nat)
    ensures Numbers(list + [e], c) == Numbers(list, c) + if e.id == c then {e.n} else {}
    ensures Ordered(list + [e]) && e.id == c ==> e.n !in Numbers(list, c)
  {
    var more := list + [e];
    forall k | k in Numbers(list, c) ensures k in Numbers(more, c) {
      var a :| 0 <= a < |list| && list[a].id == c && list[a].n == k;
      assert more[a] == list[a];
    }
    assert more[|list|] == e;
    assert forall a | 0 <= a < |list| :: more[a] == list[a];
  }

  lemma {:induction false} CountIsNumbers(list: seq<Entry>, c: nat)
    requires Ordered(list)
    ensures |Numbers(list, c)| == Count(list, c)
    decreases |list|
  {
    if list == [] {
      assert Numbers(list, c) == {};
    } else {
      var n := |list| - 1;
      CountIsNumbers(list[..n], c);
      NumbersLast(list[..n], list[n], c);
      assert list == list[..n] + [list[n]];
    }
  }

  lemma NumberOf(list: seq<Entry>, e: Entry)
    requires e in list
    ensures e.n in Numbers(list, e.id)
  {
    var a :| 0 <= a < |list| && list[a] == e;
  }

  lemma {:induction false} TallyIsPlaces(answers: seq<Err>, err: Err)
    ensures |Places(answers, err)| == Tally(answers, err)
    decreases |answers|
  {
    if answers == [] {
      assert Places(answers, err) == {};
    } else {
      var n := |answers| - 1;
      TallyIsPlaces(answers[..n], err);
      if answers[n] == err {
        assert Places(answers, err) == Places(answers[..n], err) + {n};
      } else {
        assert Places(answers, err) == Places(answers[..n], err);
      }
    }
  }

  lemma {:induction false} AnswersAddUp(answers: seq<Err>)
    requires forall j | 0 <= j < |answers| :: answers[j] == OK || answers[j] == ErrMaybe
    ensures Tally(answers, OK) + Tally(answers, ErrMaybe) == |answers|
    decreases |answers|
  {
    if answers != [] {
      AnswersAddUp(answers[..|answers| - 1]);
    }
  }

  // What a client's entries skip are appends that were answered ErrMaybe.
  lemma SkippedWereMaybes(list: seq<Entry>, i: nat, c: Client)
    requires Ordered(list) && AnswersOk(c) && EntriesOk(list, i, c) && !c.effect
    ensures WithinAnswers(list, i, ClntRes(c.nok, c.nmaybe))
  {
    var next := NextOf(list, i);
    NextIsBound(list, i);
    assert next <= c.n;
    AnswersAddUp(c.answers);
    CountIsNumbers(list, i);
    TallyIsPlaces(c.answers, ErrMaybe);
    forall j: nat | Entry(i, j) in list ensures j in Numbers(list, i) {
      NumberOf(list, Entry(i, j));
    }
    assert Below(next) <= Numbers(list, i) + Places(c.answers, ErrMaybe);
    SubsetCount(Below(next), Numbers(list, i) + Places(c.answers, ErrMaybe));
  }

  /** The checker accepts the list after every run in which the clients have stopped between appends. */
  lemma CheckAcceptsEveryRun(run: seq<System>, steps: seq<Step>, rs: seq<ClntRes>)
    requires IsRun(run, steps)
    requires forall c | 0 <= c < |run[|steps|].clients| :: run[|steps|].clients[c].phase == Ready
    requires |rs| == |run[|steps|].clients|
    requires forall c | 0 <= c < |rs| :: rs[c] == ClntRes(run[|steps|].clients[c].nok, run[|steps|].clients[c].nmaybe)
    ensures var s := run[|steps|];
            KEY in s.store && Accepted(List(s), |s.clients|, rs, s.store[KEY].version)
  {
    RunHolds(run, steps);
    var s := run[|steps|];
    forall c: nat | Occurs(List(s), c) ensures c < |s.clients| {
      var a :| 0 <= a < |List(s)| && List(s)[a].id == c;
      assert List(s)[a] in List(s);
    }
    forall c: nat | c < |s.clients| ensures ClientWithin(List(s), rs, c) {
      SkippedWereMaybes(List(s), c, s.clients[c]);
    }
  }
}
