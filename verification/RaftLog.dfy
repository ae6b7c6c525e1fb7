/** Log replication from a leader to one follower: the follower's append handler, the leader's
    back-off, and the two together in the form the source gives them. */
module RaftLog {
  import opened Choice

  type Command = string

  datatype Entry = Entry(term: int, command: Command)

  datatype Mode = Leader | Candidate | Follower

  datatype AppendRequest = AppendRequest(term: int, prevLogIndex: int, prevLogTerm: int,
                                         entries: seq<Entry>, leaderCommit: int)

  datatype AppendResponse = AppendResponse(term: int, success: bool, conflictIndex: int)

  // The fields of a peer that the append handler reads and writes.
  datatype Peer = Peer(mode: Mode, currentTerm: int, votedFor: int, logs: seq<Entry>, commitIndex: int)

  // The last index whose entry has the term, and 0 when there is none.
  function LastOfTerm(logs: seq<Entry>, term: int): (c: int)
    ensures 0 <= c && (c == 0 || c < |logs|)
    ensures (exists i :: 0 <= i < |logs| && logs[i].term == term) ==>
              c < |logs| && logs[c].term == term && forall i | c < i < |logs| :: logs[i].term != term
    ensures !(exists i :: 0 <= i < |logs| && logs[i].term == term) ==> c == 0
  {
    if logs == [] then 0
    else if logs[|logs| - 1].term == term then |logs| - 1
    else
      var c := LastOfTerm(logs[..|logs| - 1], term);
      assert forall i | 0 <= i < |logs| - 1 :: logs[..|logs| - 1][i] == logs[i];
      c
  }

  // Does the follower hold an entry of the leader's previous term at the leader's previous index?
  predicate Matches(logs: seq<Entry>, prevLogIndex: int, prevLogTerm: int) {
    0 <= prevLogIndex < |logs| && logs[prevLogIndex].term == prevLogTerm
  }

  function HandleAppend(p: Peer, args: AppendRequest): (Peer, AppendResponse) {
    if args.term < p.currentTerm then (p, AppendResponse(p.currentTerm, false, 0))
    else
      var q := p.(mode := Follower, currentTerm := args.term, votedFor := -1);
      if args.entries == [] then
        if Matches(p.logs, args.prevLogIndex, args.prevLogTerm) && args.leaderCommit > p.commitIndex then
          (q.(commitIndex := if args.leaderCommit < |p.logs| then args.leaderCommit else |p.logs| - 1),
           AppendResponse(p.currentTerm, false, 0))
        else (q, AppendResponse(p.currentTerm, false, 0))
      else if Matches(p.logs, args.prevLogIndex, args.prevLogTerm) then
        (q.(logs := p.logs[..args.prevLogIndex + 1] + args.entries), AppendResponse(p.currentTerm, true, 0))
      else (q, AppendResponse(p.currentTerm, false, LastOfTerm(p.logs, args.prevLogTerm)))
  }

  // What the leader sends for a next index, or that it fails because the index is outside its log.
  datatype Built = Request(args: AppendRequest) | OutOfRange

  function Build(logs: seq<Entry>, currentTerm: int, commitIndex: int, next: int, withEntries: bool): Built {
    if withEntries && !(0 <= next <= |logs|) then OutOfRange
    else if !(0 <= next - 1 < |logs|) then OutOfRange
    else Request(AppendRequest(currentTerm, next - 1, logs[next - 1].term,
                               if withEntries then logs[next..] else [], commitIndex))
  }

  // The leader's next index after a reply to a request that carried entries.
  function NextAfter(currentTerm: int, next: int, sentNext: int, sent: seq<Entry>, reply: AppendResponse): int {
    if sent == [] || reply.term != currentTerm then next
    else if reply.success then sentNext + |sent|
    else reply.conflictIndex + 1
  }

  // The peers below n, other than me, whose match index is the last index.
  function MatchCount(pMatchIndex: seq<int>, me: nat, last: int, n: nat): nat
    requires n <= |pMatchIndex|
  {
    if n == 0 then 0
    else MatchCount(pMatchIndex, me, last, n - 1) + if n - 1 != me && pMatchIndex[n - 1] == last then 1 else 0
  }

  // The count is compared with a majority by equality: a further match does not commit again.
  predicate IsQuorum(pMatchIndex: seq<int>, me: nat, last: int) {
    1 + MatchCount(pMatchIndex, me, last, |pMatchIndex|) == |pMatchIndex| / 2 + 1
  }

  ghost function Max(a: int, b: int): int {
    if a < b then b else a
  }

  ghost function Min(a: int, b: int): int {
    if a < b then a else b
  }

  // The handler without its commit index. A request of an older term changes nothing; any other makes a follower of
  // its term with no vote, and is answered with the term from before. The log changes exactly on a success.
  lemma AppendMeaning(p: Peer, args: AppendRequest)
    ensures var (q, reply) := HandleAppend(p, args);
            var matches := 0 <= args.prevLogIndex < |p.logs| && p.logs[args.prevLogIndex].term == args.prevLogTerm;
            && reply.term == p.currentTerm
            && (args.term < p.currentTerm ==> q == p && !reply.success && reply.conflictIndex == 0)
            && (args.term >= p.currentTerm ==> q.mode == Follower && q.currentTerm == args.term && q.votedFor == -1)
            && (reply.success <==> args.term >= p.currentTerm && args.entries != [] && matches)
            && q.logs == (if reply.success then p.logs[..args.prevLogIndex + 1] + args.entries else p.logs)
            && (args.term >= p.currentTerm && args.entries != [] && !matches ==>
                  reply.conflictIndex == LastOfTerm(p.logs, args.prevLogTerm))
            && (args.entries == [] ==> reply.conflictIndex == 0)
  {
  }

  /** The commit index of a follower. A heartbeat, which is a request without entries, of a term that is not older and
      that matches, raises it to the leader's commit index or to the end of the log, whichever is less; any other
      request keeps it. It never passes both its old value and the leader's. Inside the log it never falls, and it
      stays inside unless an accepted request ends the log at or before it. Outside the log a heartbeat with a greater
      commit index puts it back to the end. */
  lemma CommitMeaning(p: Peer, args: AppendRequest)
    ensures var (q, reply) := HandleAppend(p, args);
            var matches := 0 <= args.prevLogIndex < |p.logs| && p.logs[args.prevLogIndex].term == args.prevLogTerm;
            var beats := args.term >= p.currentTerm && args.entries == [] && matches;
            var inside := p.commitIndex < |p.logs|;
            && (!beats ==> q.commitIndex == p.commitIndex)
            && (beats && inside ==> q.commitIndex == Max(p.commitIndex, Min(args.leaderCommit, |p.logs| - 1)))
            && (beats && !inside ==> q.commitIndex == if args.leaderCommit > p.commitIndex then |p.logs| - 1 else p.commitIndex)
            && q.commitIndex <= Max(p.commitIndex, args.leaderCommit)
            && (inside ==> p.commitIndex <= q.commitIndex)
            && (inside ==> (q.commitIndex < |q.logs| <==>
                            !(reply.success && args.prevLogIndex + 1 + |args.entries| <= p.commitIndex)))
  {
  }

  // An accepted request can end the log before the commit index, and the next heartbeat then lowers it.
  lemma CommitCanFall()
    ensures var zero, a, b := Entry(0, ""), Entry(1, "a"), Entry(1, "b");
            var p := Peer(Follower, 1, -1, [zero, a, b], 2);
            var (q, reply) := HandleAppend(p, AppendRequest(1, 0, 0, [a], 2));
            var (r, _) := HandleAppend(q, AppendRequest(1, 1, 1, [], 3));
            reply.success && q.logs == [zero, a] && q.commitIndex == 2 && r.commitIndex == 1
  {
  }

  class Raft {
    var mode: Mode
    var currentTerm: int
    var votedFor: int
    var logs: seq<Entry>
    var commitIndex: int
    var me: nat
    var pNextIndex: seq<int>
    var pMatchIndex: seq<int>
    var electionInProgress: bool

    ghost function View(): Peer
      reads this
    {
      Peer(mode, currentTerm, votedFor, logs, commitIndex)
    }

    constructor (me: nat)
      ensures View() == Peer(Follower, 0, -1, [Entry(0, "")], 0) && this.me == me && !electionInProgress
    {
      mode, currentTerm, votedFor, logs, commitIndex := Follower, 0, -1, [Entry(0, "")], 0;
      this.me, pNextIndex, pMatchIndex, electionInProgress := me, [], [], false;
    }

    method SetToFollower(term: int)
      modifies this`mode, this`currentTerm, this`votedFor
      ensures View() == old(View()).(mode := Follower, currentTerm := term, votedFor := -1)
    {
      mode, currentTerm, votedFor := Follower, term, -1;
    }

    method SetToLeader(peers: nat)
      modifies this`mode, this`pNextIndex, this`pMatchIndex, this`electionInProgress
      ensures View() == old(View()).(mode := Leader) && !electionInProgress
      ensures |pNextIndex| == peers && forall i | 0 <= i < peers :: pNextIndex[i] == |logs|
      ensures |pMatchIndex| == peers && forall i | 0 <= i < peers :: pMatchIndex[i] == 0
    {
      mode := Leader;
      electionInProgress := false;
      pNextIndex, pMatchIndex := [], [];
      for i := 0 to peers
        invariant View() == old(View()).(mode := Leader) && !electionInProgress
        invariant |pNextIndex| == i && forall j | 0 <= j < i :: pNextIndex[j] == |logs|
        invariant |pMatchIndex| == i && forall j | 0 <= j < i :: pMatchIndex[j] == 0
      {
        pNextIndex := pNextIndex + [|logs|];
        pMatchIndex := pMatchIndex + [0];
      }
    }

    method IsQuorumReached() returns (reached: bool)
      ensures reached == IsQuorum(pMatchIndex, me, |logs| - 1)
    {
      var matchCount := 1;
      for p := 0 to |pMatchIndex|
        invariant matchCount == 1 + MatchCount(pMatchIndex, me, |logs| - 1, p)
      {
        if p != me && pMatchIndex[p] == |logs| - 1 {
          matchCount := matchCount + 1;
        }
      }
      reached := matchCount == |pMatchIndex| / 2 + 1;
    }

    method ResolveIndexConflict(prevLogTerm: int) returns (resolveIndex: int)
      ensures resolveIndex == LastOfTerm(logs, prevLogTerm)
    {
      resolveIndex := 0;
      var i := |logs| - 1;
      while -1 < i
        invariant -1 <= i < |logs|
        invariant forall j | i < j < |logs| :: logs[j].term != prevLogTerm
      {
        if logs[i].term == prevLogTerm {
          return i;
        }
        i := i - 1;
      }
    }

    method AppendLogEntry(args: AppendRequest) returns (reply: AppendResponse)
      modifies this`mode, this`currentTerm, this`votedFor, this`logs, this`commitIndex
      ensures (View(), reply) == HandleAppend(old(View()), args)
    {
      var replyTerm := currentTerm;
      if args.term >= currentTerm {
        SetToFollower(args.term);
      } else {
        return AppendResponse(replyTerm, false, 0);
      }
      var isMatchingTerms := false;
      var maxLogIndex := |logs| - 1;
      if -1 < args.prevLogIndex <= maxLogIndex {
        isMatchingTerms := logs[args.prevLogIndex].term == args.prevLogTerm;
      }
      reply := AppendResponse(replyTerm, false, 0);
      if |args.entries| > 0 {
        if args.prevLogIndex > maxLogIndex {
          var c := ResolveIndexConflict(args.prevLogTerm);
          return AppendResponse(replyTerm, false, c);
        }
        if !isMatchingTerms {
          var c := ResolveIndexConflict(args.prevLogTerm);
          return AppendResponse(replyTerm, false, c);
        }
        logs := logs[..args.prevLogIndex + 1] + args.entries;
        reply := AppendResponse(replyTerm, true, 0);
      } else if isMatchingTerms && args.leaderCommit > commitIndex {
        commitIndex := if args.leaderCommit < maxLogIndex then args.leaderCommit else maxLogIndex;
      }
    }

    method BuildAppendLogArgs(pIndex: int, entries: seq<Entry>) returns (built: Built)
      ensures built == if 0 < pIndex <= |logs|
                       then Request(AppendRequest(currentTerm, pIndex - 1, logs[pIndex - 1].term, entries, commitIndex))
                       else OutOfRange
    {
      var prevLogIndex := pIndex - 1;
      if !(0 <= prevLogIndex < |logs|) {
        return OutOfRange;
      }
      return Request(AppendRequest(currentTerm, prevLogIndex, logs[prevLogIndex].term, entries, commitIndex));
    }

    // The request of isLeading for one peer. The last log index was read earlier than the log is.
    method BuildRequest(lastLogIndex: int, pNext: int) returns (built: Built)
      ensures built == Build(logs, currentTerm, commitIndex, pNext, lastLogIndex >= pNext)
    {
      var entries := [];
      if lastLogIndex >= pNext {
        if !(0 <= pNext <= |logs|) {
          return OutOfRange;
        }
        entries := logs[pNext..];
      }
      built := BuildAppendLogArgs(pNext, entries);
    }

    // The reply handling of isLeading for peer i. A success also records the length of the log at that
    // moment as the match index, and commits the whole log when that makes a quorum.
    method HandleReply(i: nat, sentNext: int, sent: seq<Entry>, sentTerm: int, ok: bool, reply: AppendResponse)
      requires i < |pNextIndex| == |pMatchIndex|
      modifies this`mode, this`currentTerm, this`votedFor, this`commitIndex, this`pNextIndex, this`pMatchIndex
      ensures reply.term > sentTerm ==>
                View() == old(View()).(mode := Follower, currentTerm := reply.term, votedFor := -1)
                && pNextIndex == old(pNextIndex) && pMatchIndex == old(pMatchIndex)
      ensures reply.term <= sentTerm ==>
                var acts := ok && mode == Leader && sent != [] && sentTerm == reply.term;
                && pNextIndex == old(pNextIndex)[i := if ok && mode == Leader
                                                      then NextAfter(sentTerm, old(pNextIndex)[i], sentNext, sent, reply)
                                                      else old(pNextIndex)[i]]
                && pMatchIndex == (if acts && reply.success then old(pMatchIndex)[i := |logs| - 1] else old(pMatchIndex))
                && View() == old(View()).(commitIndex := if acts && reply.success && IsQuorum(pMatchIndex, me, |logs| - 1)
                                                         then |logs| - 1 else old(commitIndex))
    {
      if reply.term > sentTerm {
        SetToFollower(reply.term);
        return;
      }
      if ok && |sent| > 0 && sentTerm == reply.term && mode == Leader {
        if reply.success {
          pNextIndex := pNextIndex[i := sentNext + |sent|];
          pMatchIndex := pMatchIndex[i := |logs| - 1];
          var reached := IsQuorumReached();
          if reached {
            commitIndex := |logs| - 1;
          }
        } else {
          pNextIndex := pNextIndex[i := reply.conflictIndex + 1];
        }
      }
    }
  }

  /** Hypotheses on a pair of logs. */
  ghost predicate Sorted(logs: seq<Entry>) {
    && logs != [] && logs[0] == Entry(0, "")
    && forall i, j | 0 <= i < j < |logs| :: logs[i].term <= logs[j].term
  }

  ghost predicate SameUpTo(a: seq<Entry>, b: seq<Entry>, i: int) {
    0 <= i < |a| && i < |b| && a[..i + 1] == b[..i + 1]
  }

  // Equal terms at an index mean equal logs up to it.
  ghost predicate LogMatching(a: seq<Entry>, b: seq<Entry>) {
    forall i {:trigger SameUpTo(a, b, i)} | 0 <= i < |a| && i < |b| && a[i].term == b[i].term :: SameUpTo(a, b, i)
  }

  // Where the follower holds a term of the leader at a later index, it holds it at the leader's index too.
  ghost predicate TermsAligned(l: seq<Entry>, f: seq<Entry>) {
    forall i, j | 0 <= i < |l| && i < j < |f| && l[i].term == f[j].term :: f[i].term == l[i].term
  }

  // Every stretch of the log that ends in a term is the beginning of the one leader's log of that term.
  ghost predicate FromLeaders(leaders: map<int, seq<Entry>>, logs: seq<Entry>) {
    forall i | 0 <= i < |logs| :: logs[i].term in leaders && logs[..i + 1] <= leaders[logs[i].term]
  }

  // The longer of the two stretches that end in the term.
  ghost function LeaderLog(l: seq<Entry>, f: seq<Entry>, term: int): seq<Entry> {
    var i, j := LastOfTerm(l, term), LastOfTerm(f, term);
    if j < |f| && f[j].term == term && (i < j || i >= |l| || l[i].term != term) then f[..j + 1]
    else if i < |l| then l[..i + 1] else []
  }

  lemma FromLeadersAt(leaders: map<int, seq<Entry>>, l: seq<Entry>, f: seq<Entry>, i: int, j: int)
    requires FromLeaders(leaders, l) && FromLeaders(leaders, f)
    requires 0 <= i < |l| && i <= j < |f| && l[i].term == f[j].term
    ensures SameUpTo(l, f, i)
  {
    var log := leaders[l[i].term];
    assert l[..i + 1] <= log && f[..j + 1] <= log;
    assert l[..i + 1] == log[..i + 1] == f[..j + 1][..i + 1] == f[..i + 1];
  }

  lemma InLeaderLog(l: seq<Entry>, f: seq<Entry>, i: int)
    requires LogMatching(l, f) && TermsAligned(l, f) && 0 <= i < |l|
    ensures l[..i + 1] <= LeaderLog(l, f, l[i].term)
  {
    var m, n := LastOfTerm(l, l[i].term), LastOfTerm(f, l[i].term);
    assert l[..m + 1][..i + 1] == l[..i + 1];
    if n < |f| && f[n].term == l[i].term && m < n {
      assert f[m].term == l[m].term;
      assert SameUpTo(l, f, m);
      assert f[..n + 1][..i + 1] == f[..m + 1][..i + 1] == l[..m + 1][..i + 1];
    }
  }

  // The two logs may change places.
  lemma LeaderLogSwaps(l: seq<Entry>, f: seq<Entry>, term: int)
    requires LogMatching(l, f) && TermsAligned(l, f) && TermsAligned(f, l)
    requires (exists i :: 0 <= i < |l| && l[i].term == term) || exists j :: 0 <= j < |f| && f[j].term == term
    ensures LeaderLog(l, f, term) == LeaderLog(f, l, term)
  {
    var i, j := LastOfTerm(l, term), LastOfTerm(f, term);
    if i == j && i < |l| && j < |f| && l[i].term == term && f[j].term == term {
      assert SameUpTo(l, f, i);
    }
  }

  /** Where the conditions come from: two logs match and are aligned, each with the other, exactly when each
      term has one leader's log with which both agree up to every entry of that term. */
  lemma OneLeaderPerTerm(l: seq<Entry>, f: seq<Entry>)
    ensures (exists leaders :: FromLeaders(leaders, l) && FromLeaders(leaders, f))
            <==> LogMatching(l, f) && TermsAligned(l, f) && TermsAligned(f, l)
  {
    forall leaders | FromLeaders(leaders, l) && FromLeaders(leaders, f)
      ensures LogMatching(l, f) && TermsAligned(l, f) && TermsAligned(f, l)
    {
      LeadersAlign(leaders, l, f);
      LeadersAlign(leaders, f, l);
    }
    if LogMatching(l, f) && TermsAligned(l, f) && TermsAligned(f, l) {
      var leaders := map t | t in Terms(l) + Terms(f) :: LeaderLog(l, f, t);
      forall i | 0 <= i < |l| ensures l[i].term in leaders && l[..i + 1] <= leaders[l[i].term] {
        assert l[i].term in Terms(l);
        InLeaderLog(l, f, i);
      }
      MatchingSwaps(l, f);
      forall j | 0 <= j < |f| ensures f[j].term in leaders && f[..j + 1] <= leaders[f[j].term] {
        assert f[j].term in Terms(f);
        InLeaderLog(f, l, j);
        LeaderLogSwaps(l, f, f[j].term);
      }
      assert FromLeaders(leaders, l) && FromLeaders(leaders, f);
    }
  }

  lemma MatchingSwaps(l: seq<Entry>, f: seq<Entry>)
    requires LogMatching(l, f)
    ensures LogMatching(f, l)
  {
    forall i | 0 <= i < |f| && i < |l| && f[i].term == l[i].term ensures SameUpTo(f, l, i) {
      assert SameUpTo(l, f, i);
    }
  }

  lemma LeadersAlign(leaders: map<int, seq<Entry>>, l: seq<Entry>, f: seq<Entry>)
    requires FromLeaders(leaders, l) && FromLeaders(leaders, f)
    ensures LogMatching(l, f) && TermsAligned(l, f)
  {
    forall i, j | 0 <= i < |l| && i <= j < |f| && l[i].term == f[j].term ensures SameUpTo(l, f, i) && f[i] == l[i] {
      FromLeadersAt(leaders, l, f, i, j);
      assert l[..i + 1][i] == f[..i + 1][i];
    }
  }

  ghost predicate Rejected(f: seq<Entry>, l: seq<Entry>, prev: int)
    requires 0 <= prev < |l|
  {
    !Matches(f, prev, l[prev].term)
  }

  // A rejection moves the leader's previous index strictly down exactly when the follower has no entry of
  // the rejected term beyond that index.
  lemma {:induction false} RejectionLowers(l: seq<Entry>, f: seq<Entry>, prev: int)
    requires 0 < prev < |l| && Rejected(f, l, prev)
    ensures LastOfTerm(f, l[prev].term) < prev
            <==> forall j | prev < j < |f| :: f[j].term != l[prev].term
  {
  }

  // A rejection at a previous index makes the leader go back strictly, within its log.
  ghost predicate GoesBack(l: seq<Entry>, f: seq<Entry>, prev: int)
    requires 0 <= prev < |l|
  {
    Rejected(f, l, prev) ==> 0 <= LastOfTerm(f, l[prev].term) < prev
  }

  /** Every rejection, at whatever previous index, moves the leader strictly back exactly when the terms
      of the two logs are aligned. */
  lemma BackOffIsExact(l: seq<Entry>, f: seq<Entry>)
    requires Sorted(l) && Sorted(f)
    ensures (forall prev | 0 <= prev < |l| :: GoesBack(l, f, prev)) <==> TermsAligned(l, f)
  {
    if TermsAligned(l, f) {
      forall prev | 0 <= prev < |l| ensures GoesBack(l, f, prev) {
        if Rejected(f, l, prev) {
          AlignedRejectionLowers(l, f, prev);
        }
      }
    } else {
      var i, j :| 0 <= i < |l| && i < j < |f| && l[i].term == f[j].term && f[i].term != l[i].term;
      assert Rejected(f, l, i) && LastOfTerm(f, l[i].term) >= j;
      assert !GoesBack(l, f, i);
    }
  }

  // A shorter follower that lacks a term in the middle is aligned: the leader goes back to where it fits.
  lemma MissingTermIsAligned()
    ensures var l := [Entry(0, ""), Entry(1, "a"), Entry(2, "b")];
            var f := [Entry(0, ""), Entry(2, "y")];
            Sorted(l) && Sorted(f) && LogMatching(l, f) && TermsAligned(l, f)
            && Rejected(f, l, 2) && LastOfTerm(f, l[2].term) == 1 && Rejected(f, l, 1) && LastOfTerm(f, l[1].term) == 0
  {
    var l := [Entry(0, ""), Entry(1, "a"), Entry(2, "b")];
    var f := [Entry(0, ""), Entry(2, "y")];
    assert f[1].term == 2 && l[..1] == f[..1];
  }

  /** Log matching on equal indexes does not give that condition: with these logs the rejection at 2
      sends the leader to index 4, outside its own log. */
  lemma LogMatchingIsNotEnough()
    ensures var l := [Entry(0, ""), Entry(1, "a"), Entry(2, "b")];
            var f := [Entry(0, ""), Entry(1, "a"), Entry(1, "x"), Entry(2, "y")];
            && Sorted(l) && Sorted(f) && LogMatching(l, f) && Rejected(f, l, 2)
            && LastOfTerm(f, l[2].term) == 3
            && Build(l, 3, 0, LastOfTerm(f, l[2].term) + 1, false) == OutOfRange
  {
    var l := [Entry(0, ""), Entry(1, "a"), Entry(2, "b")];
    var f := [Entry(0, ""), Entry(1, "a"), Entry(1, "x"), Entry(2, "y")];
    assert f[3].term == 2;
    assert l[..1] == f[..1];
    assert l[..2] == f[..2];
  }

  lemma AlignedRejectionLowers(l: seq<Entry>, f: seq<Entry>, prev: int)
    requires Sorted(l) && Sorted(f) && TermsAligned(l, f)
    requires 0 <= prev < |l| && Rejected(f, l, prev)
    ensures 0 < prev && 0 <= LastOfTerm(f, l[prev].term) < prev
  {
    assert prev > 0;
    RejectionLowers(l, f, prev);
  }

  // A second rejection in a row is always for a smaller term of the leader.
  lemma NextRejectionHasSmallerTerm(l: seq<Entry>, f: seq<Entry>, prev: int)
    requires Sorted(l) && Sorted(f) && TermsAligned(l, f)
    requires 0 <= prev < |l| && Rejected(f, l, prev)
    ensures var c := LastOfTerm(f, l[prev].term);
            c < prev && (Rejected(f, l, c) ==> l[c].term < l[prev].term)
  {
    AlignedRejectionLowers(l, f, prev);
  }

  lemma AcceptanceCopies(l: seq<Entry>, f: seq<Entry>, prev: int)
    requires LogMatching(l, f) && 0 <= prev < |l| && !Rejected(f, l, prev)
    ensures f[..prev + 1] + l[prev + 1..] == l
  {
    assert SameUpTo(l, f, prev);
  }

  lemma RejectedRound(l: seq<Entry>, p: Peer, term: int, commitIndex: int, next: int)
    requires Sorted(l) && Sorted(p.logs) && TermsAligned(l, p.logs)
    requires p.currentTerm <= term && 1 <= next < |l| && Rejected(p.logs, l, next - 1)
    ensures Build(l, term, commitIndex, next, true).Request?
    ensures var args := Build(l, term, commitIndex, next, true).args;
            var (q, reply) := HandleAppend(p, args);
            !reply.success && q.logs == p.logs &&
            (p.currentTerm == term ==> 1 <= NextAfter(term, next, next, args.entries, reply) < next)
  {
    AlignedRejectionLowers(l, p.logs, next - 1);
  }

  lemma AcceptedRound(l: seq<Entry>, p: Peer, term: int, commitIndex: int, next: int)
    requires LogMatching(l, p.logs) && p.currentTerm <= term && 1 <= next < |l| && !Rejected(p.logs, l, next - 1)
    ensures Build(l, term, commitIndex, next, true).Request?
    ensures var args := Build(l, term, commitIndex, next, true).args;
            var (q, reply) := HandleAppend(p, args);
            reply.success && q.logs == l &&
            (p.currentTerm == term ==> NextAfter(term, next, next, args.entries, reply) == |l|)
  {
    AcceptanceCopies(l, p.logs, next - 1);
  }

  /** A heartbeat and its answer: the follower keeps its log, the leader keeps its next index, and what the follower
      commits beyond what it had committed is the leader's log if and only if both logs have the same term at its new
      commit index, in particular when the leader has committed no more than the index it sent. */
  lemma HeartbeatRound(l: seq<Entry>, p: Peer, term: int, commitIndex: int, next: int)
    requires LogMatching(l, p.logs) && p.currentTerm <= term && 1 <= next <= |l| && 0 <= p.commitIndex < |p.logs|
    ensures Build(l, term, commitIndex, next, false).Request?
    ensures var args := Build(l, term, commitIndex, next, false).args;
            var (q, reply) := HandleAppend(p, args);
            && q.logs == p.logs && !reply.success && NextAfter(term, next, next, args.entries, reply) == next
            && q.commitIndex == if Rejected(p.logs, l, next - 1) then p.commitIndex
                                else Max(p.commitIndex, Min(commitIndex, |p.logs| - 1))
    ensures var c := HandleAppend(p, Build(l, term, commitIndex, next, false).args).0.commitIndex;
            && 0 <= c < |p.logs|
            && (SameUpTo(l, p.logs, c) <==> c < |l| && l[c].term == p.logs[c].term)
            && (c > p.commitIndex && commitIndex <= next - 1 ==> SameUpTo(l, p.logs, c))
  {
    var args := Build(l, term, commitIndex, next, false).args;
    CommitMeaning(p, args);
    var c := HandleAppend(p, args).0.commitIndex;
    if SameUpTo(l, p.logs, c) {
      assert l[..c + 1][c] == p.logs[..c + 1][c];
    }
    if c > p.commitIndex && commitIndex <= next - 1 {
      assert SameUpTo(l, p.logs, next - 1);
      assert l[..c + 1] == l[..next][..c + 1] && p.logs[..c + 1] == p.logs[..next][..c + 1];
    }
  }

  // When the leader has committed more than the index it sent, the follower can commit an entry that is not its.
  lemma HeartbeatCanCommitOthers()
    ensures var l := [Entry(0, ""), Entry(1, "a"), Entry(3, "c")];
            var f := [Entry(0, ""), Entry(1, "a"), Entry(2, "x")];
            var p := Peer(Follower, 3, -1, f, 0);
            && Sorted(l) && Sorted(f) && LogMatching(l, f) && TermsAligned(l, f)
            && Build(l, 3, 2, 2, false).Request?
            && HandleAppend(p, Build(l, 3, 2, 2, false).args).0.commitIndex == 2 && f[2] != l[2]
  {
    var l := [Entry(0, ""), Entry(1, "a"), Entry(3, "c")];
    var f := [Entry(0, ""), Entry(1, "a"), Entry(2, "x")];
    assert l[..1] == f[..1] && l[..2] == f[..2];
    assert f[2].term == 2;
  }

  // The peers that hold the leader's last entry, as far as the leader knows.
  ghost function Holders(pMatchIndex: seq<int>, me: nat, last: int, n: nat): set<nat>
    requires n <= |pMatchIndex|
  {
    set p: nat | p < n && (p == me || pMatchIndex[p] == last)
  }

  lemma {:induction false} MatchCountIsHolders(pMatchIndex: seq<int>, me: nat, last: int, n: nat)
    requires n <= |pMatchIndex|
    ensures |Holders(pMatchIndex, me, last, n)| == MatchCount(pMatchIndex, me, last, n) + if me < n then 1 else 0
    decreases n
  {
    if n > 0 {
      MatchCountIsHolders(pMatchIndex, me, last, n - 1);
      var before := Holders(pMatchIndex, me, last, n - 1);
      if n - 1 == me || pMatchIndex[n - 1] == last {
        assert Holders(pMatchIndex, me, last, n) == before + {n - 1};
      } else {
        assert Holders(pMatchIndex, me, last, n) == before;
      }
    }
  }

  /** What the leader takes for a quorum: the smallest majority of the peers holds the last entry, itself included.
      One holder more is not taken for one again. */
  lemma QuorumIsMajority(pMatchIndex: seq<int>, me: nat, last: int)
    requires me < |pMatchIndex|
    ensures var n := |pMatchIndex|;
            var holders := |Holders(pMatchIndex, me, last, n)|;
            && (IsQuorum(pMatchIndex, me, last) <==> holders == n / 2 + 1)
            && (IsQuorum(pMatchIndex, me, last) ==> 2 * holders > n && 2 * (holders - 1) <= n)
  {
    MatchCountIsHolders(pMatchIndex, me, last, |pMatchIndex|);
  }

  /** One round of the repair: the leader sends the entries after the previous index, and the follower either
      takes over the whole log or keeps its own and answers the index from which the leader sends next. */
  lemma RepairRound(l: seq<Entry>, p: Peer, term: int, commitIndex: int, next: int)
    requires Sorted(l) && Sorted(p.logs) && TermsAligned(l, p.logs) && LogMatching(l, p.logs)
    requires p.currentTerm <= term && 1 <= next < |l|
    ensures Build(l, term, commitIndex, next, true).Request?
    ensures var args := Build(l, term, commitIndex, next, true).args;
            var (q, reply) := HandleAppend(p, args);
            if Rejected(p.logs, l, next - 1) then
              !reply.success && q.logs == p.logs &&
              (p.currentTerm == term ==> 1 <= NextAfter(term, next, next, args.entries, reply) < next)
            else
              reply.success && q.logs == l &&
              (p.currentTerm == term ==> NextAfter(term, next, next, args.entries, reply) == |l|)
  {
    if Rejected(p.logs, l, next - 1) {
      RejectedRound(l, p, term, commitIndex, next);
    } else {
      AcceptedRound(l, p, term, commitIndex, next);
    }
  }

  ghost function Terms(l: seq<Entry>): set<int> {
    set i | 0 <= i < |l| :: l[i].term
  }

  // The previous indexes at which the follower rejects, in the order the leader tries them.
  ghost function Rejections(l: seq<Entry>, f: seq<Entry>, prev: int): seq<int>
    requires Sorted(l) && Sorted(f) && TermsAligned(l, f) && 0 <= prev < |l|
    decreases prev
  {
    if Rejected(f, l, prev) then
      AlignedRejectionLowers(l, f, prev);
      [prev] + Rejections(l, f, LastOfTerm(f, l[prev].term))
    else []
  }

  // The first previous index at which the follower accepts.
  ghost function AcceptedAt(l: seq<Entry>, f: seq<Entry>, prev: int): (p: int)
    requires Sorted(l) && Sorted(f) && TermsAligned(l, f) && 0 <= prev < |l|
    ensures 0 <= p <= prev && !Rejected(f, l, p)
    decreases prev
  {
    if Rejected(f, l, prev) then
      AlignedRejectionLowers(l, f, prev);
      AcceptedAt(l, f, LastOfTerm(f, l[prev].term))
    else prev
  }

  // Strictly decreasing, and inside the log up to the first index.
  ghost predicate Decreasing(r: seq<int>, first: int) {
    && (forall i | 0 <= i < |r| :: 0 < r[i] <= first)
    && (forall i, j | 0 <= i < j < |r| :: r[j] < r[i])
  }

  lemma DecreasingCons(first: int, rest: seq<int>, next: int)
    requires 0 < first && next < first && Decreasing(rest, next)
    ensures Decreasing([first] + rest, first)
  {
    var r := [first] + rest;
    assert forall i | 0 < i < |r| :: r[i] == rest[i - 1];
  }

  lemma {:induction false} RejectionsDecrease(l: seq<Entry>, f: seq<Entry>, prev: int)
    requires Sorted(l) && Sorted(f) && TermsAligned(l, f) && 0 <= prev < |l|
    ensures Decreasing(Rejections(l, f, prev), prev)
    decreases prev
  {
    if Rejected(f, l, prev) {
      AlignedRejectionLowers(l, f, prev);
      var c := LastOfTerm(f, l[prev].term);
      RejectionsDecrease(l, f, c);
      DecreasingCons(prev, Rejections(l, f, c), c);
    }
  }

  lemma {:induction false} RejectionsAtMostTerms(l: seq<Entry>, f: seq<Entry>, prev: int)
    requires Sorted(l) && Sorted(f) && TermsAligned(l, f) && 0 <= prev < |l|
    ensures |Rejections(l, f, prev)| <= |Terms(l[..prev + 1])|
    decreases prev
  {
    TermCounts(l, 0, prev);
    if Rejected(f, l, prev) {
      NextRejectionHasSmallerTerm(l, f, prev);
      AlignedRejectionLowers(l, f, prev);
      var c := LastOfTerm(f, l[prev].term);
      RejectionsAtMostTerms(l, f, c);
      assert Rejections(l, f, prev) == [prev] + Rejections(l, f, c);
      if Rejected(f, l, c) {
        TermCounts(l, c, prev);
      } else {
        assert Rejections(l, f, c) == [];
      }
    }
  }

  lemma RejectionsAreFew(l: seq<Entry>, f: seq<Entry>, prev: int)
    requires Sorted(l) && Sorted(f) && TermsAligned(l, f) && 0 <= prev < |l|
    ensures Decreasing(Rejections(l, f, prev), prev) && |Rejections(l, f, prev)| <= |Terms(l[..prev + 1])|
  {
    RejectionsDecrease(l, f, prev);
    RejectionsAtMostTerms(l, f, prev);
  }

  lemma FirstAcceptanceCopies(l: seq<Entry>, f: seq<Entry>, prev: int)
    requires Sorted(l) && Sorted(f) && TermsAligned(l, f) && LogMatching(l, f) && 0 <= prev < |l|
    ensures var p := AcceptedAt(l, f, prev);
            f[..p + 1] + l[p + 1..] == l
  {
    AcceptanceCopies(l, f, AcceptedAt(l, f, prev));
  }

  /** Repair converges: the rejected indexes strictly decrease and stay inside the leader's log, there are
      at most as many of them as distinct terms in that log up to the first index tried, and the first accepted
      request makes the follower's log equal to the leader's. */
  lemma RepairConverges(l: seq<Entry>, f: seq<Entry>, prev: int)
    requires Sorted(l) && Sorted(f) && TermsAligned(l, f) && LogMatching(l, f) && 0 <= prev < |l|
    ensures var r := Rejections(l, f, prev);
            Decreasing(r, prev) && |r| <= |Terms(l[..prev + 1])|
    ensures var p := AcceptedAt(l, f, prev);
            f[..p + 1] + l[p + 1..] == l
  {
    RejectionsAreFew(l, f, prev);
    FirstAcceptanceCopies(l, f, prev);
  }

  lemma TermCounts(l: seq<Entry>, c: int, prev: int)
    requires Sorted(l) && 0 <= c <= prev < |l|
    ensures |Terms(l[..prev + 1])| >= 1
    ensures l[c].term < l[prev].term ==> |Terms(l[..c + 1])| < |Terms(l[..prev + 1])|
  {
    var low, lower := l[..prev + 1], l[..c + 1];
    var t := low[prev].term;
    assert t in Terms(low);
    SubsetCount({t}, Terms(low));
    if l[c].term < t {
      forall x | x in Terms(lower) ensures x in Terms(low) && x != t {
        var i :| 0 <= i < |lower| && lower[i].term == x;
        assert low[i].term == x;
      }
      SubsetCount(Terms(lower) + {t}, Terms(low));
    }
  }
}
