/** Log repair as a protocol: one leader in a fixed term, one follower, and a network that may lose,
    delay, duplicate and reorder requests and replies. The leader takes commands at any time, and each
    tick captures its last log index, then its next index, before the request is built. */
module RaftRepair {
  import opened RaftLog
  import opened Options

  // What isLeading reads before it starts the goroutine that sends.
  datatype Snapshot = Snapshot(last: int, next: int)

  // A request on the network, with the next index that the sender remembers for the reply.
  datatype Sent = Sent(next: int, args: AppendRequest)

  datatype Reply = Reply(sent: Sent, response: AppendResponse)

  datatype System = System(log: seq<Entry>, commitIndex: int, next: int, follower: Peer,
                           ticks: set<int>, snapshots: set<Snapshot>, requests: set<Sent>, replies: set<Reply>,
                           failed: bool, last: Option<Sent>)

  // The logs at the moment the leader was elected, and its term.
  datatype Setup = Setup(term: int, leaderLog: seq<Entry>, follower: Peer)

  // At the election both logs are sorted, match, and hold no entry of the new term.
  ghost predicate Sound(e: Setup) {
    && Sorted(e.leaderLog) && Sorted(e.follower.logs)
    && LogMatching(e.leaderLog, e.follower.logs) && TermsAligned(e.leaderLog, e.follower.logs)
    && e.follower.currentTerm <= e.term
    && (forall i | 0 <= i < |e.leaderLog| :: e.leaderLog[i].term < e.term)
    && (forall i | 0 <= i < |e.follower.logs| :: e.follower.logs[i].term < e.term)
  }

  ghost predicate Init(e: Setup, s: System) {
    && s.log == e.leaderLog && s.next == |e.leaderLog| && s.follower == e.follower
    && s.ticks == {} && s.snapshots == {} && s.requests == {} && s.replies == {} && !s.failed && s.last == None
  }

  datatype Step = Start(command: Command) | Commit(index: int) | Tick | Pick(last: int) | Send(snapshot: Snapshot)
                | Receive(sent: Sent) | Handle(reply: Reply)

  ghost predicate Enabled(s: System, step: Step) {
    match step
    case Start(_) => true
    case Commit(_) => true
    case Tick => true
    case Pick(last) => last in s.ticks
    case Send(snapshot) => snapshot in s.snapshots
    case Receive(sent) => sent in s.requests
    case Handle(reply) => reply in s.replies
  }

  ghost function Next(e: Setup, s: System, step: Step): System {
    match step
    case Start(command) => s.(log := s.log + [Entry(e.term, command)])
    case Commit(index) => s.(commitIndex := index)
    case Tick => s.(ticks := s.ticks + {|s.log| - 1})
    case Pick(last) => s.(snapshots := s.snapshots + {Snapshot(last, s.next)})
    case Send(snapshot) =>
      (match Build(s.log, e.term, s.commitIndex, snapshot.next, snapshot.last >= snapshot.next)
       case Request(args) => s.(requests := s.requests + {Sent(snapshot.next, args)})
       case OutOfRange => s.(failed := true))
    case Receive(sent) =>
      var (peer, response) := HandleAppend(s.follower, sent.args);
      s.(follower := peer, replies := s.replies + {Reply(sent, response)},
         last := if response.success then Some(sent) else s.last)
    case Handle(reply) =>
      s.(next := NextAfter(e.term, s.next, reply.sent.next, reply.sent.args.entries, reply.response))
  }

  ghost predicate IsRun(e: Setup, run: seq<System>, steps: seq<Step>) {
    && |run| == |steps| + 1 && Init(e, run[0])
    && forall i | 0 <= i < |steps| :: Enabled(run[i], steps[i]) && run[i + 1] == Next(e, run[i], steps[i])
  }

  /** The invariant. */

  // A request carries a stretch of the leader's log together with the entry before it.
  ghost predicate Faithful(e: Setup, log: seq<Entry>, sent: Sent) {
    && 1 <= sent.next <= sent.next + |sent.args.entries| <= |log|
    && sent.args.term == e.term
    && sent.args.prevLogIndex == sent.next - 1
    && sent.args.prevLogTerm == log[sent.next - 1].term
    && sent.args.entries == log[sent.next..sent.next + |sent.args.entries|]
  }

  // A reply that the leader will act on keeps its next index inside its log.
  ghost predicate Safe(e: Setup, log: seq<Entry>, reply: Reply) {
    && Faithful(e, log, reply.sent)
    && (reply.sent.args.entries != [] && !reply.response.success ==>
          0 <= reply.response.conflictIndex < reply.sent.next - 1)
  }

  // The leader's log extends the elected one with entries of its own term.
  ghost predicate Extends(e: Setup, log: seq<Entry>) {
    && e.leaderLog <= log
    && forall i | |e.leaderLog| <= i < |log| :: log[i].term == e.term
  }

  // Until it first accepts, the follower's log is the old one; from then on it is the leader's log as
  // it was when the last accepted request was sent.
  ghost predicate Copied(e: Setup, s: System) {
    match s.last
    case None => s.follower.logs == e.follower.logs
    case Some(sent) =>
      Faithful(e, s.log, sent) && s.follower.logs == s.log[..sent.next + |sent.args.entries|]
  }

  ghost predicate Inv(e: Setup, s: System) {
    && !s.failed
    && Extends(e, s.log)
    && Copied(e, s)
    && s.follower.currentTerm <= e.term
    && 1 <= s.next <= |s.log|
    && (forall last | last in s.ticks :: last < |s.log|)
    && (forall p | p in s.snapshots :: 1 <= p.next <= |s.log| && p.last < |s.log|)
    && (forall q | q in s.requests :: Faithful(e, s.log, q))
    && (forall r | r in s.replies :: Safe(e, s.log, r))
  }

  lemma ExtensionIsSorted(e: Setup, log: seq<Entry>)
    requires Sound(e) && Extends(e, log)
    ensures Sorted(log)
  {
    assert forall i | 0 <= i < |e.leaderLog| :: log[i] == e.leaderLog[i];
  }

  // The follower's log stays aligned with the leader's while both change.
  lemma StaysAligned(e: Setup, s: System)
    requires Sound(e) && Extends(e, s.log) && Copied(e, s)
    ensures Sorted(s.follower.logs) && TermsAligned(s.log, s.follower.logs) && LogMatching(s.log, s.follower.logs)
  {
    ExtensionIsSorted(e, s.log);
    assert forall i | 0 <= i < |e.leaderLog| :: s.log[i] == e.leaderLog[i];
    var f := s.follower.logs;
    match s.last {
      case None =>
        forall i | 0 <= i < |s.log| && i < |f| && s.log[i].term == f[i].term
          ensures SameUpTo(s.log, f, i)
        {
          assert SameUpTo(e.leaderLog, f, i);
          assert s.log[..i + 1] == e.leaderLog[..i + 1];
        }
      case Some(sent) =>
        assert forall i | 0 <= i < |f| :: f[i] == s.log[i];
    }
  }

  lemma AcceptKeepsCopied(e: Setup, s: System, sent: Sent)
    requires Sound(e) && Inv(e, s) && Faithful(e, s.log, sent)
    requires sent.args.entries != [] && Matches(s.follower.logs, sent.args.prevLogIndex, sent.args.prevLogTerm)
    ensures s.follower.logs[..sent.next] + sent.args.entries == s.log[..sent.next + |sent.args.entries|]
  {
    StaysAligned(e, s);
    assert SameUpTo(s.log, s.follower.logs, sent.next - 1);
  }

  lemma ReceiveKeepsCopied(e: Setup, s: System, sent: Sent)
    requires Sound(e) && Inv(e, s) && sent in s.requests
    ensures Copied(e, Next(e, s, Receive(sent)))
    ensures Next(e, s, Receive(sent)).follower.currentTerm == e.term
  {
    assert Faithful(e, s.log, sent);
    AppendMeaning(s.follower, sent.args);
    if HandleAppend(s.follower, sent.args).1.success {
      AcceptKeepsCopied(e, s, sent);
    }
    CopiedAfter(e, s, Next(e, s, Receive(sent)), sent, HandleAppend(s.follower, sent.args).1.success);
  }

  lemma CopiedAfter(e: Setup, s: System, t: System, sent: Sent, success: bool)
    requires Copied(e, s) && t.log == s.log && t.last == if success then Some(sent) else s.last
    requires success ==> Faithful(e, s.log, sent) && t.follower.logs == s.log[..sent.next + |sent.args.entries|]
    requires !success ==> t.follower.logs == s.follower.logs
    ensures Copied(e, t)
  {
  }

  lemma RepliesAreSafe(e: Setup, s: System, sent: Sent)
    requires Sound(e) && Inv(e, s) && sent in s.requests
    ensures Safe(e, s.log, Reply(sent, HandleAppend(s.follower, sent.args).1))
  {
    if sent.args.entries != [] && !Matches(s.follower.logs, sent.args.prevLogIndex, sent.args.prevLogTerm) {
      StaysAligned(e, s);
      ExtensionIsSorted(e, s.log);
      AlignedRejectionLowers(s.log, s.follower.logs, sent.args.prevLogIndex);
    }
  }

  lemma ReceiveKeepsInv(e: Setup, s: System, sent: Sent)
    requires Sound(e) && Inv(e, s) && sent in s.requests
    ensures Inv(e, Next(e, s, Receive(sent)))
  {
    ReceiveKeepsCopied(e, s, sent);
    RepliesAreSafe(e, s, sent);
  }

  lemma GrowthKeepsFaithful(e: Setup, log: seq<Entry>, x: Entry, sent: Sent)
    requires Faithful(e, log, sent)
    ensures Faithful(e, log + [x], sent)
  {
    var n := sent.next + |sent.args.entries|;
    assert (log + [x])[sent.next..n] == log[sent.next..n];
  }

  lemma StartKeepsInv(e: Setup, s: System, command: Command)
    requires Sound(e) && Inv(e, s)
    ensures Inv(e, Next(e, s, Start(command)))
  {
    var x := Entry(e.term, command);
    forall q | Faithful(e, s.log, q) ensures Faithful(e, s.log + [x], q) {
      GrowthKeepsFaithful(e, s.log, x, q);
    }
    if s.last.Some? {
      var n := s.last.value.next + |s.last.value.args.entries|;
      assert (s.log + [x])[..n] == s.log[..n];
    }
  }

  lemma SendKeepsInv(e: Setup, s: System, snapshot: Snapshot)
    requires Inv(e, s) && snapshot in s.snapshots
    ensures Inv(e, Next(e, s, Send(snapshot)))
  {
    assert s.log[snapshot.next..] == s.log[snapshot.next..|s.log|];
  }

  lemma HandleKeepsInv(e: Setup, s: System, reply: Reply)
    requires Inv(e, s) && reply in s.replies
    ensures Inv(e, Next(e, s, Handle(reply)))
  {
  }

  lemma StepKeepsInv(e: Setup, s: System, step: Step)
    requires Sound(e) && Inv(e, s) && Enabled(s, step)
    ensures Inv(e, Next(e, s, step))
  {
    match step {
      case Start(command) => StartKeepsInv(e, s, command);
      case Send(snapshot) => SendKeepsInv(e, s, snapshot);
      case Receive(sent) => ReceiveKeepsInv(e, s, sent);
      case Handle(reply) => HandleKeepsInv(e, s, reply);
      case _ =>
    }
  }

  lemma {:induction false} RunKeepsInv(e: Setup, run: seq<System>, steps: seq<Step>)
    requires Sound(e) && IsRun(e, run, steps)
    ensures Inv(e, run[|steps|])
    decreases |steps|
  {
    if steps != [] {
      var n := |steps| - 1;
      RunKeepsInv(e, run[..|steps|], steps[..n]);
      StepKeepsInv(e, run[n], steps[n]);
    }
  }

  /** In every run, whatever the network does: the leader never reads outside its log, its next index
      stays inside it, and once the follower has accepted anything its log is a prefix of the leader's,
      namely the log the leader sent its last accepted request from. */
  lemma RepairIsSafe(e: Setup, run: seq<System>, steps: seq<Step>)
    requires Sound(e) && IsRun(e, run, steps)
    ensures var s := run[|steps|];
            && !s.failed && 1 <= s.next <= |s.log|
            && (if s.last == None then s.follower.logs == e.follower.logs else s.follower.logs <= s.log)
            && (s.last.Some? ==> |s.follower.logs| == s.last.value.next + |s.last.value.args.entries|)
  {
    RunKeepsInv(e, run, steps);
  }

  /** Acting on a rejection, however late, never raises the index that was rejected: the next request goes
      out for a strictly earlier previous index. */
  lemma RejectionBacksOff(e: Setup, run: seq<System>, steps: seq<Step>, reply: Reply)
    requires Sound(e) && IsRun(e, run, steps) && reply in run[|steps|].replies
    requires reply.sent.args.entries != [] && !reply.response.success && reply.response.term == e.term
    ensures 1 <= Next(e, run[|steps|], Handle(reply)).next < reply.sent.next
  {
    RunKeepsInv(e, run, steps);
  }

  /** The repair can be completed. */

  ghost predicate Leads(e: Setup, run: seq<System>, steps: seq<Step>) {
    |run| == |steps| + 1 && forall k | 0 <= k < |steps| :: Enabled(run[k], steps[k]) && run[k + 1] == Next(e, run[k], steps[k])
  }

  lemma LeadsOn(e: Setup, run: seq<System>, steps: seq<Step>, more: seq<System>, after: seq<Step>)
    requires Leads(e, run, steps) && Leads(e, more, after) && run[|steps|] == more[0]
    ensures Leads(e, run + more[1..], steps + after)
    ensures (run + more[1..])[0] == run[0] && (run + more[1..])[|steps + after|] == more[|after|]
  {
    var all, both := run + more[1..], steps + after;
    assert forall k | |steps| <= k < |both| + 1 :: all[k] == more[k - |steps|];
  }

  // What the leader sends now.
  ghost function Message(e: Setup, s: System): Built {
    Build(s.log, e.term, s.commitIndex, s.next, true)
  }

  lemma QuietSend(e: Setup, s: System) returns (run: seq<System>, steps: seq<Step>)
    requires Sound(e) && Inv(e, s) && s.next < |s.log|
    ensures Leads(e, run, steps) && |steps| == 3 && run[0] == s
    ensures var t := run[3];
            && Inv(e, t) && t.log == s.log && t.follower == s.follower && t.next == s.next && t.commitIndex == s.commitIndex
            && Message(e, t).Request? && Sent(t.next, Message(e, t).args) in t.requests
  {
    var last := |s.log| - 1;
    var snapshot := Snapshot(last, s.next);
    var a := Next(e, s, Tick);
    var b := Next(e, a, Pick(last));
    StepKeepsInv(e, s, Tick);
    StepKeepsInv(e, a, Pick(last));
    StepKeepsInv(e, b, Send(snapshot));
    run, steps := [s, a, b, Next(e, b, Send(snapshot))], [Tick, Pick(last), Send(snapshot)];
  }

  lemma QuietReceive(e: Setup, s: System) returns (t: System, reply: Reply)
    requires Sound(e) && Inv(e, s) && s.next < |s.log|
    requires Message(e, s).Request? && Sent(s.next, Message(e, s).args) in s.requests
    ensures t == Next(e, s, Receive(Sent(s.next, Message(e, s).args))) && Inv(e, t)
    ensures reply == Reply(Sent(s.next, Message(e, s).args), HandleAppend(s.follower, Message(e, s).args).1) && reply in t.replies
    ensures t.log == s.log && t.next == s.next && t.follower.currentTerm == e.term
    ensures var next := NextAfter(e.term, s.next, s.next, Message(e, s).args.entries, reply.response);
            if s.follower.currentTerm == e.term then next < s.next || (next == |s.log| && t.follower.logs == s.log)
            else next == s.next
  {
    var sent := Sent(s.next, Message(e, s).args);
    StaysAligned(e, s);
    ExtensionIsSorted(e, s.log);
    RepairRound(s.log, s.follower, e.term, s.commitIndex, s.next);
    AppendMeaning(s.follower, sent.args);
    StepKeepsInv(e, s, Receive(sent));
    t := Next(e, s, Receive(sent));
    reply := Reply(sent, HandleAppend(s.follower, sent.args).1);
  }

  lemma QuietAnswer(e: Setup, s: System) returns (run: seq<System>, steps: seq<Step>)
    requires Sound(e) && Inv(e, s) && s.next < |s.log|
    requires Message(e, s).Request? && Sent(s.next, Message(e, s).args) in s.requests
    ensures Leads(e, run, steps) && |steps| == 2 && run[0] == s
    ensures var t := run[2];
            && Inv(e, t) && t.log == s.log && t.follower.currentTerm == e.term
            && (s.follower.currentTerm < e.term ==> t.next == s.next)
            && (s.follower.currentTerm == e.term ==> t.next < s.next || (t.next == |t.log| && t.follower.logs == t.log))
  {
    var sent := Sent(s.next, Message(e, s).args);
    var d, reply := QuietReceive(e, s);
    HandleKeepsInv(e, d, reply);
    run, steps := [s, d, Next(e, d, Handle(reply))], [Receive(sent), Handle(reply)];
  }

  // A tick whose messages arrive at once.
  lemma QuietRound(e: Setup, s: System) returns (run: seq<System>, steps: seq<Step>)
    requires Sound(e) && Inv(e, s) && s.next < |s.log|
    ensures Leads(e, run, steps) && |steps| == 5 && run[0] == s
    ensures var t := run[5];
            && Inv(e, t) && t.log == s.log && t.follower.currentTerm == e.term
            && (s.follower.currentTerm < e.term ==> t.next == s.next)
            && (s.follower.currentTerm == e.term ==> t.next < s.next || (t.next == |t.log| && t.follower.logs == t.log))
  {
    var head, before := QuietSend(e, s);
    var tail, after := QuietAnswer(e, head[3]);
    LeadsOn(e, head, before, tail, after);
    run, steps := head + tail[1..], before + after;
  }

  lemma {:induction false} RepairFrom(e: Setup, s: System) returns (run: seq<System>, steps: seq<Step>)
    requires Sound(e) && Inv(e, s) && s.next < |s.log|
    ensures Leads(e, run, steps) && run[0] == s
    ensures var t := run[|steps|];
            t.log == s.log && t.follower.logs == s.log && t.next == |s.log|
    decreases s.next + if s.follower.currentTerm < e.term then 1 else 0
  {
    run, steps := QuietRound(e, s);
    if run[5].next < |s.log| {
      var more, after := RepairFrom(e, run[5]);
      LeadsOn(e, run, steps, more, after);
      run, steps := run + more[1..], steps + after;
    }
  }

  /** From the end of every run, whatever is still on the network, the repair can be completed if the leader has
      something to send: the follower's log becomes the leader's, and the next index its end. */
  lemma RepairCanFinish(e: Setup, run: seq<System>, steps: seq<Step>) returns (more: seq<System>, after: seq<Step>)
    requires Sound(e) && IsRun(e, run, steps) && run[|steps|].next < |run[|steps|].log|
    ensures Leads(e, more, after) && more[0] == run[|steps|]
    ensures var t := more[|after|];
            t.log == run[|steps|].log && t.follower.logs == t.log && t.next == |t.log|
  {
    RunKeepsInv(e, run, steps);
    more, after := RepairFrom(e, run[|steps|]);
  }

  /** The network forgets nothing: every request and every reply may arrive at any later time, any number of times, and
      the leader may act on every tick and every snapshot later. */
  lemma NetworkForgetsNothing(e: Setup, s: System, step: Step)
    requires Enabled(s, step)
    ensures var t := Next(e, s, step);
            && s.ticks <= t.ticks && s.snapshots <= t.snapshots && s.requests <= t.requests && s.replies <= t.replies
            && (forall last | last in s.ticks :: Enabled(t, Pick(last)))
            && (forall snapshot | snapshot in s.snapshots :: Enabled(t, Send(snapshot)))
            && (forall sent | sent in s.requests :: Enabled(t, Receive(sent)))
            && (forall reply | reply in s.replies :: Enabled(t, Handle(reply)))
            && (forall command :: Enabled(t, Start(command)) && Next(e, t, Start(command)).log == t.log + [Entry(e.term, command)])
            && Enabled(t, Tick)
  {
  }
}
