/** The multiplexer as a protocol: any number of concurrent SendReceive calls, the client's reader, and a
    server that answers requests in any order over a connection that may fail at any point. */
module DemuxProtocol {
  import opened Choice
  import opened Demux
  import opened Options

  // Where a SendReceive call is: no tag yet, tagged, in the table, listening on its channel, or back.
  datatype Phase = Fresh | Tagged | Registered | Listening | Refused | Returned(reply: Reply)

  // Where the request or the reply of a call is.
  datatype Stage = Unsent | ToServer | Serving | ToClient | Over

  // One SendReceive call. The order of its tag, the stage of its message, the server's answer and the
  // number of replies it was sent are kept for the record; no step of the program looks at them.
  datatype Call = Call(bytes: Bytes, phase: Phase, order: nat, stage: Stage,
                       inbox: seq<Reply>, answer: Option<Reply>, told: nat)

  // A request or a reply on the connection. The call is kept for the record only.
  datatype Msg = Msg(tag: Tag, data: Bytes, ok: bool, call: nat)

  datatype ReaderState = Reading | Closing | Draining(left: seq<Tag>) | Drained

  datatype System = System(nextTag: Tag, issued: nat, calls: seq<Call>, table: map<Tag, nat>, closed: bool,
                           requests: seq<Msg>, serving: set<Msg>, replies: seq<Msg>,
                           reader: ReaderState, fatal: bool)

  function TagOf(order: nat): Tag {
    (1 + order) % TAGS
  }

  ghost predicate Init(s: System) {
    s == System(1, 0, [], map[], false, [], {}, [], Reading, false)
  }

  datatype Step =
    | Begin(bytes: Bytes)                              // a caller enters SendReceive
    | TakeTag(i: nat)
    | Put(i: nat)                                      // callmap.put
    | Write(i: nat, sent: bool)                        // trans.WriteCall, which may fail
    | ServerRead                                       // the server starts a handler
    | ServerAnswer(m: Msg, rep: Bytes, ok: bool, sent: bool)
    | ClientRead                                       // the reader gets a reply and delivers it
    | ReadFails                                        // the reader gets an error and closes the table
    | ListOutstanding(order: seq<Tag>)
    | FailNext                                         // the reader fails one outstanding call
    | Close                                            // Close closes the table from outside
    | Receive(i: nat)                                  // a caller takes the reply from its channel

  ghost predicate Enabled(s: System, step: Step) {
    match step
    case Begin(_) => true
    case TakeTag(i) => i < |s.calls| && s.calls[i].phase == Fresh
    case Put(i) => i < |s.calls| && s.calls[i].phase == Tagged
    case Write(i, _) => i < |s.calls| && s.calls[i].phase == Registered
    case ServerRead => s.requests != []
    case ServerAnswer(m, _, _, _) => m in s.serving
    case ClientRead => s.reader == Reading && s.replies != []
    case ReadFails => s.reader == Reading
    case ListOutstanding(order) => s.reader == Closing && Elements(order) == s.table.Keys && Distinct(order)
    case FailNext => s.reader.Draining? && s.reader.left != []
    case Close => true
    case Receive(i) => i < |s.calls| && s.calls[i].phase == Listening && s.calls[i].inbox != []
  }

  // The delivery of one reply: the call leaves the table and gets it; without a call the process stops.
  ghost function Deliver(s: System, tag: Tag, r: Reply): System {
    match Take(s.table, tag)
    case NoCall => s.(fatal := true)
    case Found(i, rest) =>
      if i < |s.calls| then
        var c := s.calls[i];
        s.(table := rest, calls := s.calls[i := c.(inbox := c.inbox + [r], told := c.told + 1)])
      else s.(fatal := true)
  }

  ghost function SetStage(s: System, i: nat, stage: Stage): System {
    if i < |s.calls| then s.(calls := s.calls[i := s.calls[i].(stage := stage)]) else s
  }

  ghost function Next(s: System, step: Step): System
    requires Enabled(s, step)
  {
    match step
    case Begin(bytes) => s.(calls := s.calls + [Call(bytes, Fresh, 0, Unsent, [], None, 0)])
    case TakeTag(i) =>
      s.(nextTag := (s.nextTag + 1) % TAGS, issued := s.issued + 1,
         calls := s.calls[i := s.calls[i].(phase := Tagged, order := s.issued)])
    case Put(i) =>
      s.(calls := s.calls[i := s.calls[i].(phase := if s.closed then Refused else Registered)],
         table := PutIn(s.table, s.closed, TagOf(s.calls[i].order), i))
    case Write(i, sent) =>
      var c := s.calls[i];
      if sent then
        s.(calls := s.calls[i := c.(phase := Listening, stage := ToServer)],
           requests := s.requests + [Msg(TagOf(c.order), c.bytes, true, i)])
      else s.(calls := s.calls[i := c.(phase := Listening, stage := Over)])
    case ServerRead =>
      SetStage(s.(requests := s.requests[1..], serving := s.serving + {s.requests[0]}), s.requests[0].call, Serving)
    case ServerAnswer(m, rep, ok, sent) =>
      var t := s.(serving := s.serving - {m},
                  replies := if sent then s.replies + [Msg(m.tag, rep, ok, m.call)] else s.replies,
                  calls := if m.call < |s.calls| then s.calls[m.call := s.calls[m.call].(answer := Some(Answer(rep, ok)))]
                           else s.calls);
      SetStage(t, m.call, if sent then ToClient else Over)
    case ClientRead =>
      var m := s.replies[0];
      Deliver(SetStage(s.(replies := s.replies[1..]), m.call, Over), m.tag, Answer(m.data, m.ok))
    case ReadFails => s.(reader := Closing, closed := true)
    case ListOutstanding(order) => s.(reader := if order == [] then Drained else Draining(order))
    case FailNext =>
      var left := s.reader.left;
      Deliver(s, left[0], ReadFailed).(reader := if left[1..] == [] then Drained else Draining(left[1..]))
    case Close => s.(closed := true)
    case Receive(i) =>
      var c := s.calls[i];
      s.(calls := s.calls[i := c.(phase := Returned(c.inbox[0]), inbox := c.inbox[1..])])
  }

  ghost predicate IsRun(run: seq<System>, steps: seq<Step>) {
    && |run| == |steps| + 1 && Init(run[0])
    && forall i | 0 <= i < |steps| :: Enabled(run[i], steps[i]) && run[i + 1] == Next(run[i], steps[i])
  }

  // No call registers under a tag while an older call is registered under it.
  ghost predicate TagIsFree(s: System, step: Step) {
    step.Put? && step.i < |s.calls| && !s.closed ==> TagOf(s.calls[step.i].order) !in s.table
  }

  ghost predicate ReusesNoTag(run: seq<System>, steps: seq<Step>)
    requires |run| == |steps| + 1
  {
    forall k | 0 <= k < |steps| :: TagIsFree(run[k], steps[k])
  }

  /** The invariant. */

  ghost predicate Honest(c: Call, r: Reply) {
    r == ReadFailed || c.answer == Some(r)
  }

  ghost predicate CallOk(c: Call) {
    (c.stage == Unsent || c.stage == ToServer || c.stage == Serving ==> c.answer == None) &&
    match c.phase
    case Fresh => c.stage == Unsent && c.inbox == [] && c.told == 0
    case Tagged => c.stage == Unsent && c.inbox == [] && c.told == 0
    case Refused => c.stage == Unsent && c.inbox == [] && c.told == 0
    case Registered => c.stage == Unsent && |c.inbox| == c.told <= 1 && forall r | r in c.inbox :: Honest(c, r)
    case Listening => c.stage != Unsent && |c.inbox| == c.told <= 1 && forall r | r in c.inbox :: Honest(c, r)
    case Returned(r) => c.stage != Unsent && c.inbox == [] && c.told == 1 && Honest(c, r)
  }

  ghost predicate Awaiting(c: Call) {
    (c.phase == Registered || c.phase == Listening) && c.told == 0
  }

  ghost predicate CallsOk(s: System) {
    && (forall i | 0 <= i < |s.calls| :: CallOk(s.calls[i]))
    && (forall i | 0 <= i < |s.calls| && s.calls[i].phase != Fresh :: s.calls[i].order < s.issued)
    && (forall i, j | 0 <= i < j < |s.calls| && s.calls[i].phase != Fresh && s.calls[j].phase != Fresh ::
          s.calls[i].order != s.calls[j].order)
  }

  // The table holds exactly the calls that still wait for a reply.
  ghost predicate TableOk(s: System) {
    && (forall t | t in s.table :: s.table[t] < |s.calls| && Awaiting(s.calls[s.table[t]]) && TagOf(s.calls[s.table[t]].order) == t)
    && (forall i | 0 <= i < |s.calls| && Awaiting(s.calls[i]) ::
          TagOf(s.calls[i].order) in s.table && s.table[TagOf(s.calls[i].order)] == i)
  }

  // A message belongs to a call at the right stage and carries its tag.
  ghost predicate Carries(s: System, m: Msg, stage: Stage) {
    m.call < |s.calls| && s.calls[m.call].stage == stage && m.tag == TagOf(s.calls[m.call].order)
  }

  ghost predicate RequestsOk(s: System) {
    && (forall k | 0 <= k < |s.requests| ::
          Carries(s, s.requests[k], ToServer) && s.requests[k].data == s.calls[s.requests[k].call].bytes
          && s.requests[k].ok)
    && (forall j, k | 0 <= j < k < |s.requests| :: s.requests[j].call != s.requests[k].call)
  }

  ghost predicate ServingOk(s: System) {
    forall m | m in s.serving :: Carries(s, m, Serving) && m.data == s.calls[m.call].bytes && m.ok
  }

  ghost predicate RepliesOk(s: System) {
    && (forall k | 0 <= k < |s.replies| ::
          Carries(s, s.replies[k], ToClient)
          && s.calls[s.replies[k].call].answer == Some(Answer(s.replies[k].data, s.replies[k].ok)))
    && (forall j, k | 0 <= j < k < |s.replies| :: s.replies[j].call != s.replies[k].call)
  }

  ghost predicate MessagesOk(s: System) {
    RequestsOk(s) && ServingOk(s) && RepliesOk(s)
  }

  ghost predicate ReaderOk(s: System) {
    match s.reader
    case Reading =>
      forall i | 0 <= i < |s.calls| && s.calls[i].stage != Over :: s.calls[i].told == 0
    case Closing => s.closed
    case Draining(left) => s.closed && Elements(left) == s.table.Keys && Distinct(left)
    case Drained => s.closed && s.table == map[]
  }

  ghost predicate Inv(s: System) {
    && !s.fatal
    && s.nextTag == TagOf(s.issued)
    && CallsOk(s) && TableOk(s) && MessagesOk(s) && ReaderOk(s)
  }

  /** What a change of one call keeps. */

  // The step gives call i a new value and touches no other call.
  ghost predicate Changes(s: System, t: System, i: nat) {
    && i < |s.calls| && |t.calls| == |s.calls| && t.calls == s.calls[i := t.calls[i]]
    && t.issued == s.issued
    && t.calls[i].order == s.calls[i].order && (t.calls[i].phase == Fresh) == (s.calls[i].phase == Fresh)
  }

  lemma ChangeKeepsCalls(s: System, t: System, i: nat)
    requires CallsOk(s) && Changes(s, t, i) && CallOk(t.calls[i])
    ensures CallsOk(t)
  {
  }

  lemma ChangeKeepsTable(s: System, t: System, i: nat)
    requires TableOk(s) && Changes(s, t, i)
    requires t.table == s.table && Awaiting(t.calls[i]) == Awaiting(s.calls[i])
    ensures TableOk(t)
  {
  }

  lemma DeliveryKeepsTable(s: System, t: System, i: nat, tag: Tag)
    requires TableOk(s) && Changes(s, t, i)
    requires tag in s.table && s.table[tag] == i && t.table == s.table - {tag} && !Awaiting(t.calls[i])
    ensures TableOk(t)
  {
  }

  // The message of call i is the only one that may have changed.
  ghost predicate SameMessages(s: System, t: System) {
    t.requests == s.requests && t.serving == s.serving && t.replies == s.replies
  }

  lemma ChangeKeepsMessages(s: System, t: System, i: nat)
    requires MessagesOk(s) && Changes(s, t, i) && SameMessages(s, t)
    requires t.calls[i].stage == s.calls[i].stage && t.calls[i].answer == s.calls[i].answer
    requires t.calls[i].bytes == s.calls[i].bytes
    ensures MessagesOk(t)
  {
  }

  lemma PutKeepsTable(s: System, t: System, i: nat)
    requires CallsOk(s) && TableOk(s) && Changes(s, t, i) && TagOf(s.calls[i].order) !in s.table
    requires !Awaiting(s.calls[i]) && Awaiting(t.calls[i]) && s.calls[i].phase != Fresh
    requires t.table == s.table[TagOf(s.calls[i].order) := i]
    ensures TableOk(t)
  {
  }

  lemma TakeTagKeepsCalls(s: System, i: nat)
    requires CallsOk(s) && Enabled(s, TakeTag(i))
    ensures CallsOk(Next(s, TakeTag(i)))
  {
    var t := Next(s, TakeTag(i));
    assert CallOk(s.calls[i]) && CallOk(t.calls[i]);
    assert forall j | 0 <= j < |s.calls| && j != i :: t.calls[j] == s.calls[j];
  }

  // A call that takes its tag is neither in the table nor on the way.
  lemma TakeTagKeepsRest(s: System, i: nat)
    requires TableOk(s) && MessagesOk(s) && Enabled(s, TakeTag(i)) && s.calls[i].stage == Unsent
    ensures TableOk(Next(s, TakeTag(i))) && MessagesOk(Next(s, TakeTag(i)))
  {
    var t := Next(s, TakeTag(i));
    assert forall j | 0 <= j < |s.calls| && j != i :: t.calls[j] == s.calls[j];
  }

  lemma TakeTagKeepsInv(s: System, i: nat)
    requires Inv(s) && Enabled(s, TakeTag(i))
    ensures Inv(Next(s, TakeTag(i)))
  {
    assert CallOk(s.calls[i]);
    TakeTagKeepsCalls(s, i);
    TakeTagKeepsRest(s, i);
  }

  lemma PutKeepsInv(s: System, i: nat)
    requires Inv(s) && Enabled(s, Put(i)) && TagIsFree(s, Put(i))
    ensures Inv(Next(s, Put(i)))
  {
    var t := Next(s, Put(i));
    ChangeKeepsCalls(s, t, i);
    ChangeKeepsMessages(s, t, i);
    if s.closed {
      ChangeKeepsTable(s, t, i);
    } else {
      PutKeepsTable(s, t, i);
    }
  }

  lemma WriteKeepsInv(s: System, i: nat, sent: bool)
    requires Inv(s) && Enabled(s, Write(i, sent))
    ensures Inv(Next(s, Write(i, sent)))
  {
    var t := Next(s, Write(i, sent));
    ChangeKeepsCalls(s, t, i);
    ChangeKeepsTable(s, t, i);
    assert CallOk(s.calls[i]);
    WriteKeepsMessages(s, i, sent);
  }

  lemma WriteKeepsMessages(s: System, i: nat, sent: bool)
    requires MessagesOk(s) && Enabled(s, Write(i, sent)) && s.calls[i].stage == Unsent
    ensures MessagesOk(Next(s, Write(i, sent)))
  {
    WriteKeepsOthers(s, i, sent);
    var t := Next(s, Write(i, sent));
    forall k | 0 <= k < |s.requests| ensures t.requests[k] == s.requests[k] && s.requests[k].call != i {
      assert Carries(s, s.requests[k], ToServer);
    }
  }

  lemma WriteKeepsOthers(s: System, i: nat, sent: bool)
    requires MessagesOk(s) && Enabled(s, Write(i, sent)) && s.calls[i].stage == Unsent
    ensures ServingOk(Next(s, Write(i, sent))) && RepliesOk(Next(s, Write(i, sent)))
  {
  }

  lemma ServerReadKeepsInv(s: System)
    requires Inv(s) && Enabled(s, ServerRead)
    ensures Inv(Next(s, ServerRead))
  {
    var t := Next(s, ServerRead);
    var i := s.requests[0].call;
    ChangeKeepsCalls(s, t, i);
    ChangeKeepsTable(s, t, i);
    ServerReadKeepsMessages(s);
  }

  lemma ServerReadKeepsMessages(s: System)
    requires MessagesOk(s) && Enabled(s, ServerRead)
    ensures MessagesOk(Next(s, ServerRead))
  {
    var t := Next(s, ServerRead);
    assert forall k | 0 <= k < |t.requests| :: t.requests[k] == s.requests[k + 1];
  }

  lemma ServerAnswerKeepsInv(s: System, m: Msg, rep: Bytes, ok: bool, sent: bool)
    requires Inv(s) && Enabled(s, ServerAnswer(m, rep, ok, sent))
    ensures Inv(Next(s, ServerAnswer(m, rep, ok, sent)))
  {
    var t := Next(s, ServerAnswer(m, rep, ok, sent));
    assert s.calls[m.call].stage == Serving;
    ChangeKeepsCalls(s, t, m.call);
    ChangeKeepsTable(s, t, m.call);
    ServerAnswerKeepsMessages(s, m, rep, ok, sent);
  }

  lemma ServerAnswerKeepsMessages(s: System, m: Msg, rep: Bytes, ok: bool, sent: bool)
    requires MessagesOk(s) && Enabled(s, ServerAnswer(m, rep, ok, sent))
    ensures MessagesOk(Next(s, ServerAnswer(m, rep, ok, sent)))
  {
    assert Carries(s, m, Serving);
    ServerAnswerKeepsOthers(s, m, rep, ok, sent);
    var t := Next(s, ServerAnswer(m, rep, ok, sent));
    forall k | 0 <= k < |s.replies| ensures t.replies[k] == s.replies[k] && s.replies[k].call != m.call {
      assert Carries(s, s.replies[k], ToClient);
    }
  }

  lemma ServerAnswerKeepsOthers(s: System, m: Msg, rep: Bytes, ok: bool, sent: bool)
    requires MessagesOk(s) && Enabled(s, ServerAnswer(m, rep, ok, sent))
    ensures RequestsOk(Next(s, ServerAnswer(m, rep, ok, sent))) && ServingOk(Next(s, ServerAnswer(m, rep, ok, sent)))
  {
    assert Carries(s, m, Serving);
    forall x | x in s.serving && x != m ensures x.call != m.call {
      assert Carries(s, x, Serving);
    }
  }

  lemma ClientReadKeepsInv(s: System)
    requires Inv(s) && Enabled(s, ClientRead)
    ensures Inv(Next(s, ClientRead))
  {
    var t := Next(s, ClientRead);
    var m := s.replies[0];
    assert Carries(s, m, ToClient) && Awaiting(s.calls[m.call]);
    assert s.table[m.tag] == m.call;
    ChangeKeepsCalls(s, t, m.call);
    DeliveryKeepsTable(s, t, m.call, m.tag);
    ClientReadKeepsMessages(s);
  }

  lemma ClientReadKeepsMessages(s: System)
    requires MessagesOk(s) && Enabled(s, ClientRead)
    requires s.replies[0].tag in s.table && s.table[s.replies[0].tag] == s.replies[0].call
    ensures MessagesOk(Next(s, ClientRead))
  {
    var t := Next(s, ClientRead);
    assert Carries(s, s.replies[0], ToClient);
    assert forall k | 0 <= k < |t.replies| :: t.replies[k] == s.replies[k + 1];
  }

  lemma FailNextKeepsInv(s: System)
    requires Inv(s) && Enabled(s, FailNext)
    ensures Inv(Next(s, FailNext))
  {
    var t := Next(s, FailNext);
    var left := s.reader.left;
    assert left[0] in Elements(left);
    var i := s.table[left[0]];
    ChangeKeepsCalls(s, t, i);
    DeliveryKeepsTable(s, t, i, left[0]);
    ChangeKeepsMessages(s, t, i);
    FirstIsFailed(left);
  }

  lemma FirstIsFailed(left: seq<Tag>)
    requires left != [] && Distinct(left)
    ensures Elements(left[1..]) == Elements(left) - {left[0]} && Distinct(left[1..])
  {
    assert left == [left[0]] + left[1..];
    ElementsConcat([left[0]], left[1..]);
    assert left[0] !in Elements(left[1..]);
  }

  lemma ReceiveKeepsInv(s: System, i: nat)
    requires Inv(s) && Enabled(s, Receive(i))
    ensures Inv(Next(s, Receive(i)))
  {
    var t := Next(s, Receive(i));
    assert CallOk(s.calls[i]) && s.calls[i].inbox[0] in s.calls[i].inbox;
    ChangeKeepsCalls(s, t, i);
    ChangeKeepsTable(s, t, i);
    ChangeKeepsMessages(s, t, i);
  }

  lemma BeginKeepsInv(s: System, bytes: Bytes)
    requires Inv(s)
    ensures Inv(Next(s, Begin(bytes)))
  {
    BeginKeepsTable(s, bytes);
  }

  lemma BeginKeepsTable(s: System, bytes: Bytes)
    requires Inv(s)
    ensures CallsOk(Next(s, Begin(bytes))) && TableOk(Next(s, Begin(bytes)))
  {
  }

  lemma ListKeepsInv(s: System, order: seq<Tag>)
    requires Inv(s) && Enabled(s, ListOutstanding(order))
    ensures Inv(Next(s, ListOutstanding(order)))
  {
    assert order == [] ==> s.table.Keys == {};
    assert order == [] ==> s.table == map[];
  }

  lemma StepKeepsInv(s: System, step: Step)
    requires Inv(s) && Enabled(s, step) && TagIsFree(s, step)
    ensures Inv(Next(s, step))
  {
    match step {
      case Begin(bytes) => BeginKeepsInv(s, bytes);
      case TakeTag(i) => TakeTagKeepsInv(s, i);
      case Put(i) => PutKeepsInv(s, i);
      case Write(i, sent) => WriteKeepsInv(s, i, sent);
      case ServerRead => ServerReadKeepsInv(s);
      case ServerAnswer(m, rep, ok, sent) => ServerAnswerKeepsInv(s, m, rep, ok, sent);
      case ClientRead => ClientReadKeepsInv(s);
      case ReadFails =>
      case ListOutstanding(order) => ListKeepsInv(s, order);
      case FailNext => FailNextKeepsInv(s);
      case Close =>
      case Receive(i) => ReceiveKeepsInv(s, i);
    }
  }

  lemma {:induction false} RunKeepsInv(run: seq<System>, steps: seq<Step>)
    requires IsRun(run, steps) && ReusesNoTag(run, steps)
    ensures Inv(run[|steps|])
    decreases |steps|
  {
    if steps != [] {
      var n := |steps| - 1;
      RunKeepsInv(run[..|steps|], steps[..n]);
      StepKeepsInv(run[n], steps[n]);
    }
  }

  /** Tags. */

  lemma TagsDiffer(a: nat, b: nat)
    requires a < TAGS && b < TAGS && TagOf(a) == TagOf(b)
    ensures a == b
  {
  }

  lemma IssuedGrows(s: System, step: Step)
    requires Enabled(s, step)
    ensures s.issued <= Next(s, step).issued
  {
  }

  // While there are at least as many tags as calls, a tag is always free.
  lemma FreshTagIsFree(s: System, step: Step)
    requires Inv(s) && Enabled(s, step) && s.issued <= TAGS
    ensures TagIsFree(s, step)
  {
    if step.Put? && TagOf(s.calls[step.i].order) in s.table {
      var j := s.table[TagOf(s.calls[step.i].order)];
      assert Awaiting(s.calls[j]);
      TagsDiffer(s.calls[j].order, s.calls[step.i].order);
    }
  }

  /** A connection that carries at most 2^32 calls reuses no tag. */
  lemma {:induction false} FewCallsReuseNoTag(run: seq<System>, steps: seq<Step>)
    requires IsRun(run, steps) && run[|steps|].issued <= TAGS
    ensures ReusesNoTag(run, steps)
    decreases |steps|
  {
    if steps != [] {
      var n := |steps| - 1;
      IssuedGrows(run[n], steps[n]);
      FewCallsReuseNoTag(run[..|steps|], steps[..n]);
      RunKeepsInv(run[..|steps|], steps[..n]);
      FreshTagIsFree(run[n], steps[n]);
      forall k | 0 <= k < |steps| ensures TagIsFree(run[k], steps[k]) {
        assert k < n ==> TagIsFree(run[..|steps|][k], steps[..n][k]);
      }
    }
  }

  /** In every run that reuses no registered tag, whatever the order of the server's answers and wherever the
      connection fails: no reply finds its call missing; each call is sent at most one reply; what it
      returns is the server's answer to its own bytes or the connection error; and once the reader has
      drained the table no call is left in it and none waits for a reply that cannot come. */
  lemma DemuxIsSafe(run: seq<System>, steps: seq<Step>)
    requires IsRun(run, steps) && ReusesNoTag(run, steps)
    ensures var s := run[|steps|];
            && !s.fatal
            && (forall i | 0 <= i < |s.calls| :: s.calls[i].told <= 1)
            && (forall i | 0 <= i < |s.calls| && s.calls[i].phase.Returned? ::
                  Honest(s.calls[i], s.calls[i].phase.reply))
            && (s.reader == Drained ==>
                  s.table == map[] && s.closed && forall i | 0 <= i < |s.calls| :: !Awaiting(s.calls[i]))
  {
    RunKeepsInv(run, steps);
  }

  // An answer is recorded for a call only by a handler that was given that call's own bytes, and once.
  lemma AnswersAreOwn(run: seq<System>, steps: seq<Step>, m: Msg, rep: Bytes, ok: bool, sent: bool)
    requires IsRun(run, steps) && ReusesNoTag(run, steps)
    requires Enabled(run[|steps|], ServerAnswer(m, rep, ok, sent))
    ensures var s := run[|steps|];
            var t := Next(s, ServerAnswer(m, rep, ok, sent));
            && m.call < |s.calls| && m.data == s.calls[m.call].bytes
            && s.calls[m.call].answer == None && t.calls[m.call].answer == Some(Answer(rep, ok))
            && forall i | 0 <= i < |s.calls| && i != m.call :: t.calls[i] == s.calls[i]
  {
    RunKeepsInv(run, steps);
    assert CallOk(run[|steps|].calls[m.call]);
  }

  // An answer never changes afterwards.
  lemma StepKeepsAnswer(s: System, step: Step, i: nat)
    requires Inv(s) && Enabled(s, step) && i < |s.calls| && s.calls[i].answer.Some?
    ensures i < |Next(s, step).calls| && Next(s, step).calls[i].answer == s.calls[i].answer
  {
    StepKeepsBytes(s, step, i);
    if step.ServerAnswer? {
      ServerAnswerKeepsAnswer(s, step.m, i);
    }
  }

  lemma DeliveryKeepsCall(s: System, tag: Tag, r: Reply, i: nat)
    requires i < |s.calls|
    ensures var t := Deliver(s, tag, r);
            |t.calls| == |s.calls| && t.calls[i].answer == s.calls[i].answer && t.calls[i].bytes == s.calls[i].bytes
  {
  }

  // The server answers each call only once.
  lemma ServerAnswerKeepsAnswer(s: System, m: Msg, i: nat)
    requires CallsOk(s) && ServingOk(s) && m in s.serving && i < |s.calls| && s.calls[i].answer.Some?
    ensures m.call != i
  {
    assert Carries(s, m, Serving) && CallOk(s.calls[m.call]);
  }

  // The step is the server's answer to call i, given to a handler that was sent the call's own bytes.
  ghost predicate Serves(step: Step, c: Call, i: nat) {
    step.ServerAnswer? && step.m.call == i && step.m.data == c.bytes && c.answer == Some(Answer(step.rep, step.ok))
  }

  lemma NewAnswer(s: System, step: Step, i: nat)
    requires CallsOk(s) && ServingOk(s) && Enabled(s, step) && i < |Next(s, step).calls|
    requires Next(s, step).calls[i].answer.Some? && (i < |s.calls| ==> s.calls[i].answer.None?)
    ensures Serves(step, Next(s, step).calls[i], i)
  {
    if i < |s.calls| && !step.ServerAnswer? {
      StepKeepsBytes(s, step, i);
    }
  }

  // No step changes the bytes of a call, and only the server's answers change what it is answered.
  lemma StepKeepsBytes(s: System, step: Step, i: nat)
    requires Enabled(s, step) && i < |s.calls|
    ensures var t := Next(s, step);
            i < |t.calls| && t.calls[i].bytes == s.calls[i].bytes
            && (!step.ServerAnswer? ==> t.calls[i].answer == s.calls[i].answer)
  {
    if step.FailNext? {
      DeliveryKeepsCall(s, s.reader.left[0], ReadFailed, i);
    } else if step.ClientRead? {
      var m := s.replies[0];
      var t := SetStage(s.(replies := s.replies[1..]), m.call, Over);
      DeliveryKeepsCall(t, m.tag, Answer(m.data, m.ok), i);
    }
  }

  lemma {:induction false} AnswerWasServed(run: seq<System>, steps: seq<Step>, i: nat)
    requires IsRun(run, steps) && ReusesNoTag(run, steps)
    requires i < |run[|steps|].calls| && run[|steps|].calls[i].answer.Some?
    ensures exists k | 0 <= k < |steps| :: Serves(steps[k], run[|steps|].calls[i], i)
    decreases |steps|
  {
    if steps != [] {
      var n := |steps| - 1;
      RunKeepsInv(run[..|steps|], steps[..n]);
      if i < |run[n].calls| && run[n].calls[i].answer.Some? {
        AnswerWasServed(run[..|steps|], steps[..n], i);
        var k :| 0 <= k < n && Serves(steps[..n][k], run[n].calls[i], i);
        StepKeepsAnswer(run[n], steps[n], i);
        StepKeepsBytes(run[n], steps[n], i);
        assert Serves(steps[k], run[|steps|].calls[i], i);
      } else {
        NewAnswer(run[n], steps[n], i);
      }
    }
  }

  /** What a call returns is the connection error, or an answer the server gave in this run to exactly the
      bytes of that call: the multiplexed calls behave like direct ones. */
  lemma ReturnedAnswerIsOwn(run: seq<System>, steps: seq<Step>, i: nat)
    requires IsRun(run, steps) && ReusesNoTag(run, steps)
    requires i < |run[|steps|].calls| && run[|steps|].calls[i].phase.Returned?
    ensures var c := run[|steps|].calls[i];
            c.phase.reply == ReadFailed ||
            exists k | 0 <= k < |steps| :: Serves(steps[k], c, i) && c.phase.reply == Answer(steps[k].rep, steps[k].ok)
  {
    DemuxIsSafe(run, steps);
    var c := run[|steps|].calls[i];
    if c.phase.reply != ReadFailed {
      AnswerWasServed(run, steps, i);
      var k :| 0 <= k < |steps| && Serves(steps[k], c, i);
      assert c.phase.reply == Answer(steps[k].rep, steps[k].ok);
    }
  }

  // After the drain no step puts a call into the table.
  lemma DrainedStaysEmpty(run: seq<System>, steps: seq<Step>, step: Step)
    requires IsRun(run, steps) && ReusesNoTag(run, steps) && Enabled(run[|steps|], step)
    requires run[|steps|].reader == Drained
    ensures var t := Next(run[|steps|], step);
            t.reader == Drained && t.table == map[] && t.closed
  {
    RunKeepsInv(run, steps);
  }

  /** Tags that are reused. */

  // The call waits for a reply and is not registered.
  ghost predicate Lost(s: System, j: nat) {
    && j < |s.calls| && Awaiting(s.calls[j]) && s.calls[j].inbox == []
    && forall t | t in s.table :: s.table[t] != j
  }

  // No reply and no failure reaches it any more.
  lemma StepKeepsLost(s: System, step: Step, j: nat)
    requires Enabled(s, step) && Lost(s, j)
    ensures Lost(Next(s, step), j)
  {
    match step {
      case ServerRead => MessageKeepsLost(s, step, j);
      case ServerAnswer(_, _, _, _) => MessageKeepsLost(s, step, j);
      case ClientRead =>
        var m := s.replies[0];
        var t := SetStage(s.(replies := s.replies[1..]), m.call, Over);
        assert Lost(t, j);
        DeliveryKeepsLost(t, m.tag, Answer(m.data, m.ok), j);
      case FailNext => DeliveryKeepsLost(s, s.reader.left[0], ReadFailed, j);
      case _ => CallKeepsLost(s, step, j);
    }
  }

  lemma MessageKeepsLost(s: System, step: Step, j: nat)
    requires Enabled(s, step) && (step.ServerRead? || step.ServerAnswer?) && Lost(s, j)
    ensures Lost(Next(s, step), j)
  {
  }

  lemma DeliveryKeepsLost(s: System, tag: Tag, r: Reply, j: nat)
    requires Lost(s, j)
    ensures Lost(Deliver(s, tag, r), j)
  {
  }

  lemma CallKeepsLost(s: System, step: Step, j: nat)
    requires Enabled(s, step) && Lost(s, j)
    requires !step.ServerRead? && !step.ServerAnswer? && !step.ClientRead? && !step.FailNext?
    ensures Lost(Next(s, step), j)
  {
  }

  lemma {:induction false} LostForGood(run: seq<System>, steps: seq<Step>, k: nat, j: nat)
    requires IsRun(run, steps) && k <= |steps| && Lost(run[k], j)
    ensures Lost(run[|steps|], j)
    decreases |steps|
  {
    if k < |steps| {
      var n := |steps| - 1;
      LostForGood(run[..|steps|], steps[..n], k, j);
      StepKeepsLost(run[n], steps[n], j);
    }
  }

  /** The first call that registers under a registered tag takes the place of the older call, which then waits
      for ever: whatever follows, the end of the drain included, it is told nothing. */
  lemma OlderCallIsLost(run: seq<System>, steps: seq<Step>, k: nat)
    requires IsRun(run, steps) && k < |steps|
    requires ReusesNoTag(run[..k + 1], steps[..k]) && !TagIsFree(run[k], steps[k])
    ensures steps[k].Put? && steps[k].i < |run[k].calls|
    ensures var tag := TagOf(run[k].calls[steps[k].i].order);
            && tag in run[k].table && run[k].table[tag] != steps[k].i
            && tag in run[k + 1].table && run[k + 1].table[tag] == steps[k].i
            && Lost(run[|steps|], run[k].table[tag])
  {
    RunKeepsInv(run[..k + 1], steps[..k]);
    var j := run[k].table[TagOf(run[k].calls[steps[k].i].order)];
    assert CallOk(run[k].calls[j]);
    LostForGood(run, steps, k + 1, j);
  }

  /** Which reply a call returns. */

  // The step delivers r to call i: the reader takes the server's answer, or fails the call in the drain.
  ghost predicate Delivers(s: System, step: Step, i: nat, r: Reply)
    requires Enabled(s, step)
  {
    match step
    case ClientRead =>
      var m := s.replies[0];
      m.tag in s.table && s.table[m.tag] == i && r == Answer(m.data, m.ok)
    case FailNext => s.reader.left[0] in s.table && s.table[s.reader.left[0]] == i && r == ReadFailed
    case _ => false
  }

  ghost predicate Has(s: System, i: nat, r: Reply) {
    i < |s.calls| && (r in s.calls[i].inbox || s.calls[i].phase == Returned(r))
  }

  lemma DeliveryGives(s: System, tag: Tag, r: Reply, i: nat, x: Reply)
    requires Has(Deliver(s, tag, r), i, x) && !Has(s, i, x)
    ensures tag in s.table && s.table[tag] == i && x == r
  {
  }

  lemma StageGivesNothing(s: System, j: nat, stage: Stage, i: nat, x: Reply)
    ensures Has(SetStage(s, j, stage), i, x) <==> Has(s, i, x)
  {
  }

  // A call gets a reply only when one is delivered to it.
  lemma StepGives(s: System, step: Step, i: nat, r: Reply)
    requires Enabled(s, step) && Has(Next(s, step), i, r) && !Has(s, i, r)
    ensures Delivers(s, step, i, r)
  {
    match step {
      case ClientRead =>
        var m := s.replies[0];
        var t := s.(replies := s.replies[1..]);
        StageGivesNothing(t, m.call, Over, i, r);
        DeliveryGives(SetStage(t, m.call, Over), m.tag, Answer(m.data, m.ok), i, r);
      case FailNext => DeliveryGives(s, s.reader.left[0], ReadFailed, i, r);
      case ServerRead => ServerGivesNothing(s, step, i, r);
      case ServerAnswer(_, _, _, _) => ServerGivesNothing(s, step, i, r);
      case _ => CallerGivesNothing(s, step, i, r);
    }
  }

  lemma ServerGivesNothing(s: System, step: Step, i: nat, r: Reply)
    requires Enabled(s, step) && (step.ServerRead? || step.ServerAnswer?) && !Has(s, i, r)
    ensures !Has(Next(s, step), i, r)
  {
  }

  lemma CallerGivesNothing(s: System, step: Step, i: nat, r: Reply)
    requires Enabled(s, step) && !Has(s, i, r)
    requires !step.ServerRead? && !step.ServerAnswer? && !step.ClientRead? && !step.FailNext?
    ensures !Has(Next(s, step), i, r)
  {
  }

  lemma {:induction false} HadWasDelivered(run: seq<System>, steps: seq<Step>, i: nat, r: Reply)
    requires IsRun(run, steps) && Has(run[|steps|], i, r)
    ensures exists k | 0 <= k < |steps| :: Delivers(run[k], steps[k], i, r)
    decreases |steps|
  {
    var n := |steps| - 1;
    if n >= 0 && Has(run[n], i, r) {
      HadWasDelivered(run[..|steps|], steps[..n], i, r);
      var k :| 0 <= k < n && Delivers(run[..|steps|][k], steps[..n][k], i, r);
      assert Delivers(run[k], steps[k], i, r);
    } else {
      StepGives(run[n], steps[n], i, r);
    }
  }

  // The reader leaves its first loop only when the connection fails.
  lemma {:induction false} DrainMeansFailure(run: seq<System>, steps: seq<Step>)
    requires IsRun(run, steps) && run[|steps|].reader != Reading
    ensures ReadFails in steps
    decreases |steps|
  {
    var n := |steps| - 1;
    if run[n].reader != Reading {
      DrainMeansFailure(run[..|steps|], steps[..n]);
    } else {
      ReaderGoesOn(run[n], steps[n]);
    }
  }

  lemma ReaderGoesOn(s: System, step: Step)
    requires Enabled(s, step) && s.reader == Reading && Next(s, step).reader != Reading
    ensures step == ReadFails
  {
    if step.ClientRead? {
      DeliveryKeepsReader(s);
    }
  }

  lemma DeliveryKeepsReader(s: System)
    requires Enabled(s, ClientRead)
    ensures Next(s, ClientRead).reader == s.reader
  {
  }

  /** A call returns what was delivered to it: an answer that the reader took for it from the connection, or the
      connection error, and then the drain failed it after a read had failed. */
  lemma ReturnedWasDelivered(run: seq<System>, steps: seq<Step>, i: nat)
    requires IsRun(run, steps) && i < |run[|steps|].calls| && run[|steps|].calls[i].phase.Returned?
    ensures exists k | 0 <= k < |steps| ::
              && Delivers(run[k], steps[k], i, run[|steps|].calls[i].phase.reply)
              && (run[|steps|].calls[i].phase.reply == ReadFailed <==> steps[k] == FailNext)
              && (steps[k] == FailNext ==> ReadFails in steps[..k])
  {
    var r := run[|steps|].calls[i].phase.reply;
    HadWasDelivered(run, steps, i, r);
    var k :| 0 <= k < |steps| && Delivers(run[k], steps[k], i, r);
    if steps[k] == FailNext {
      DrainMeansFailure(run[..k + 1], steps[..k]);
    }
  }

  /** While no read fails every call that returns brings the server's answer to its own bytes. */
  lemma HealthyCallsGetAnswers(run: seq<System>, steps: seq<Step>, i: nat)
    requires IsRun(run, steps) && ReusesNoTag(run, steps) && ReadFails !in steps
    requires i < |run[|steps|].calls| && run[|steps|].calls[i].phase.Returned?
    ensures exists k | 0 <= k < |steps| ::
              Serves(steps[k], run[|steps|].calls[i], i) && run[|steps|].calls[i].phase.reply == Answer(steps[k].rep, steps[k].ok)
  {
    ReturnedWasDelivered(run, steps, i);
    ReturnedAnswerIsOwn(run, steps, i);
  }

  // The call has been told r and nothing else.
  ghost predicate Told(s: System, i: nat, r: Reply) {
    && i < |s.calls| && s.calls[i].told == 1
    && (((s.calls[i].phase == Registered || s.calls[i].phase == Listening) && s.calls[i].inbox == [r])
        || s.calls[i].phase == Returned(r))
  }

  lemma DeliveryKeepsTold(s: System, tag: Tag, x: Reply, i: nat, r: Reply)
    requires Told(s, i, r) && (forall t | t in s.table :: s.table[t] != i)
    ensures Told(Deliver(s, tag, x), i, r)
  {
  }

  lemma StepKeepsTold(s: System, step: Step, i: nat, r: Reply)
    requires Inv(s) && Enabled(s, step) && Told(s, i, r)
    ensures Told(Next(s, step), i, r)
  {
    assert forall t | t in s.table :: s.table[t] != i;
    assert CallOk(s.calls[i]);
    match step {
      case ClientRead =>
        var m := s.replies[0];
        var t := SetStage(s.(replies := s.replies[1..]), m.call, Over);
        DeliveryKeepsTold(t, m.tag, Answer(m.data, m.ok), i, r);
      case FailNext => DeliveryKeepsTold(s, s.reader.left[0], ReadFailed, i, r);
      case ServerRead => ServerKeepsTold(s, step, i, r);
      case ServerAnswer(_, _, _, _) => ServerKeepsTold(s, step, i, r);
      case _ => CallerKeepsTold(s, step, i, r);
    }
  }

  lemma ServerKeepsTold(s: System, step: Step, i: nat, r: Reply)
    requires Enabled(s, step) && (step.ServerRead? || step.ServerAnswer?) && Told(s, i, r)
    ensures Told(Next(s, step), i, r)
  {
  }

  lemma CallerKeepsTold(s: System, step: Step, i: nat, r: Reply)
    requires Enabled(s, step) && Told(s, i, r) && CallOk(s.calls[i])
    requires !step.ServerRead? && !step.ServerAnswer? && !step.ClientRead? && !step.FailNext?
    ensures Told(Next(s, step), i, r)
  {
  }

  lemma ReadTells(s: System)
    requires Inv(s) && Enabled(s, ClientRead)
    ensures Told(Next(s, ClientRead), s.replies[0].call, Answer(s.replies[0].data, s.replies[0].ok))
  {
    var m := s.replies[0];
    assert Carries(s, m, ToClient) && CallOk(s.calls[m.call]);
    assert Awaiting(s.calls[m.call]);
    assert s.table[m.tag] == m.call;
  }

  /** A reply that the reader takes from the connection is told to the call it answers, and that call returns exactly
      that, or has not returned yet. */
  lemma {:induction false} TakenReplyIsReturned(run: seq<System>, steps: seq<Step>, k: nat)
    requires IsRun(run, steps) && ReusesNoTag(run, steps) && k < |steps| && steps[k] == ClientRead
    ensures run[k].replies != [] && Told(run[|steps|], run[k].replies[0].call, Answer(run[k].replies[0].data, run[k].replies[0].ok))
    decreases |steps|
  {
    var n := |steps| - 1;
    RunKeepsInv(run[..|steps|], steps[..n]);
    if k == n {
      ReadTells(run[n]);
    } else {
      TakenReplyIsReturned(run[..|steps|], steps[..n], k);
      StepKeepsTold(run[n], steps[n], run[k].replies[0].call, Answer(run[k].replies[0].data, run[k].replies[0].ok));
    }
  }

  /** A call on a connection that works: from every state with an open table, a reader that reads and nothing on the
      way, its steps can be taken one after the other, and it returns what the server answers. */

  ghost predicate Leads(run: seq<System>, steps: seq<Step>) {
    |run| == |steps| + 1 && forall k | 0 <= k < |steps| :: Enabled(run[k], steps[k]) && run[k + 1] == Next(run[k], steps[k])
  }

  lemma QuietSend(s: System, bytes: Bytes) returns (run: seq<System>, steps: seq<Step>)
    requires !s.closed && s.reader == Reading && s.requests == [] && s.replies == []
    ensures Leads(run, steps) && |steps| == 4 && run[0] == s
    ensures var t := run[4];
            && t.reader == Reading && t.replies == []
            && t.requests == [Msg(TagOf(s.issued), bytes, true, |s.calls|)]
            && |t.calls| == |s.calls| + 1
            && t.calls[|s.calls|] == Call(bytes, Listening, s.issued, ToServer, [], None, 0)
            && TagOf(s.issued) in t.table && t.table[TagOf(s.issued)] == |s.calls|
  {
    var i := |s.calls|;
    var a := Next(s, Begin(bytes));
    var b := Next(a, TakeTag(i));
    var c := Next(b, Put(i));
    run, steps := [s, a, b, c, Next(c, Write(i, true))], [Begin(bytes), TakeTag(i), Put(i), Write(i, true)];
  }

  lemma QuietAnswer(s: System, i: nat, tag: Tag, bytes: Bytes, order: nat, rep: Bytes, ok: bool)
      returns (run: seq<System>, steps: seq<Step>)
    requires s.reader == Reading && s.requests == [Msg(tag, bytes, true, i)] && s.replies == []
    requires i < |s.calls| && s.calls[i] == Call(bytes, Listening, order, ToServer, [], None, 0)
    requires tag in s.table && s.table[tag] == i
    ensures Leads(run, steps) && |steps| == 4 && run[0] == s
    ensures i < |run[4].calls| && run[4].calls[i].phase == Returned(Answer(rep, ok))
  {
    var m := Msg(tag, bytes, true, i);
    var a := Next(s, ServerRead);
    var b := Next(a, ServerAnswer(m, rep, ok, true));
    var c := Next(b, ClientRead);
    run, steps := [s, a, b, c, Next(c, Receive(i))], [ServerRead, ServerAnswer(m, rep, ok, true), ClientRead, Receive(i)];
  }

  lemma QuietCallReturns(s: System, bytes: Bytes, rep: Bytes, ok: bool) returns (run: seq<System>, steps: seq<Step>)
    requires !s.closed && s.reader == Reading && s.requests == [] && s.replies == []
    ensures Leads(run, steps) && |steps| == 8 && run[0] == s
    ensures |s.calls| < |run[8].calls| && run[8].calls[|s.calls|].phase == Returned(Answer(rep, ok))
  {
    var head, before := QuietSend(s, bytes);
    var tail, after := QuietAnswer(head[4], |s.calls|, TagOf(s.issued), bytes, s.issued, rep, ok);
    run, steps := head + tail[1..], before + after;
    assert forall k | 4 <= k < 9 :: run[k] == tail[k - 4];
  }

  /** When a read fails the drain can be completed. */

  lemma LeadsOn(run: seq<System>, steps: seq<Step>, more: seq<System>, after: seq<Step>)
    requires Leads(run, steps) && Leads(more, after) && run[|steps|] == more[0]
    ensures Leads(run + more[1..], steps + after)
    ensures (run + more[1..])[0] == run[0] && (run + more[1..])[|steps + after|] == more[|after|]
  {
    var all, both := run + more[1..], steps + after;
    assert forall k | |steps| <= k < |both| + 1 :: all[k] == more[k - |steps|];
  }

  // What each call has been told stays, and each call that waited has been told the failure.
  ghost predicate AllFailed(s: System, t: System) {
    && (forall i: nat, r | Told(s, i, r) :: Told(t, i, r))
    && (forall i: nat | i < |s.calls| && Awaiting(s.calls[i]) :: Told(t, i, ReadFailed))
  }

  lemma FailNextTells(s: System) returns (t: System)
    requires Inv(s) && Enabled(s, FailNext)
    ensures t == Next(s, FailNext) && Inv(t) && (t.reader == Drained || (t.reader.Draining? && t.reader.left == s.reader.left[1..] != []))
    ensures forall i: nat, r | Told(s, i, r) :: Told(t, i, r)
    ensures forall i: nat | i < |s.calls| && Awaiting(s.calls[i]) ::
              Told(t, i, ReadFailed) || (i < |t.calls| && Awaiting(t.calls[i]))
  {
    t := Next(s, FailNext);
    FailNextKeepsInv(s);
    forall i: nat, r | Told(s, i, r) ensures Told(t, i, r) {
      StepKeepsTold(s, FailNext, i, r);
    }
    assert s.reader.left[0] in Elements(s.reader.left);
    var to := s.table[s.reader.left[0]];
    assert CallOk(s.calls[to]);
    FailingTellsOne(s, to);
  }

  lemma FailingTellsOne(s: System, to: nat)
    requires Enabled(s, FailNext) && s.reader.left[0] in s.table && s.table[s.reader.left[0]] == to
    requires to < |s.calls| && Awaiting(s.calls[to]) && s.calls[to].inbox == []
    ensures var t := Next(s, FailNext);
            Told(t, to, ReadFailed) && |t.calls| == |s.calls| && forall i | 0 <= i < |s.calls| && i != to :: t.calls[i] == s.calls[i]
  {
  }

  lemma NoneWaits(s: System)
    requires Inv(s) && s.reader == Drained
    ensures forall i: nat | i < |s.calls| :: !Awaiting(s.calls[i])
  {
  }

  lemma {:induction false} DrainFrom(s: System) returns (run: seq<System>, steps: seq<Step>)
    requires Inv(s) && s.reader.Draining? && s.reader.left != []
    ensures Leads(run, steps) && run[0] == s && run[|steps|].reader == Drained && AllFailed(s, run[|steps|])
    decreases |s.reader.left|
  {
    var t := FailNextTells(s);
    run, steps := [s, t], [FailNext];
    if t.reader == Drained {
      NoneWaits(t);
    } else {
      var more, after := DrainFrom(t);
      LeadsOn(run, steps, more, after);
      run, steps := run + more[1..], steps + after;
    }
  }

  lemma ReadFailureKeeps(s: System) returns (a: System, b: System, order: seq<Tag>)
    requires Inv(s) && s.reader == Reading
    ensures Enabled(s, ReadFails) && a == Next(s, ReadFails) && Enabled(a, ListOutstanding(order))
    ensures b == Next(a, ListOutstanding(order)) && Inv(b) && b.calls == s.calls
    ensures b.reader == Drained || (b.reader.Draining? && b.reader.left != [])
    ensures forall i: nat, r | Told(s, i, r) :: Told(b, i, r)
  {
    a := Next(s, ReadFails);
    order := ListOf(s.table.Keys);
    b := Next(a, ListOutstanding(order));
    StepKeepsInv(s, ReadFails);
    StepKeepsInv(a, ListOutstanding(order));
  }

  /** From the end of every run in which the reader still reads, a failed read can be carried through to the end of the
      drain, and then every call that waited has been told the error, and every other what it had been told. */
  lemma DrainCanFinish(run: seq<System>, steps: seq<Step>) returns (more: seq<System>, after: seq<Step>)
    requires IsRun(run, steps) && ReusesNoTag(run, steps) && run[|steps|].reader == Reading
    ensures Leads(more, after) && after != [] && after[0] == ReadFails && more[0] == run[|steps|]
    ensures more[|after|].reader == Drained && AllFailed(run[|steps|], more[|after|])
  {
    RunKeepsInv(run, steps);
    var s := run[|steps|];
    var a, b, order := ReadFailureKeeps(s);
    more, after := [s, a, b], [ReadFails, ListOutstanding(order)];
    if b.reader == Drained {
      NoneWaits(b);
    } else {
      var rest, last := DrainFrom(b);
      LeadsOn(more, after, rest, last);
      more, after := more + rest[1..], after + last;
    }
  }

  /** Once the table is closed, from outside or by the reader, a call that wants to register is refused. */
  lemma ClosedTableRefuses(s: System, i: nat)
    requires Enabled(s, Put(i))
    ensures var t := Next(s, Close);
            && t == s.(closed := true) && Enabled(t, Put(i))
            && Next(t, Put(i)) == t.(calls := t.calls[i := t.calls[i].(phase := Refused)])
  {
  }
}
