/** The two loops of ShardConfig.Rebalance as functions on assignments, and what they achieve:
    a balanced assignment reached with the fewest possible moves, each of them between groups
    that were already at least two shards apart. */
module Rebalance {
  import opened Choice
  import opened ShardLoads

  /** What both loops keep, relative to the starting assignment: a0 is where Rebalance started and a
      is where it is now. A group that is above its starting load has received shards, one below it
      has donated some. */
  ghost predicate Fair(a0: seq<Gid>, a: seq<Gid>, groups: set<Gid>) {
    && |a| == |a0|
    && FairShards(a0, a, groups)
    && FairLoads(a0, a, groups)
  }

  // A shard that changed owner went to a receiver, from a donor or from outside the groups.
  ghost predicate FairShards(a0: seq<Gid>, a: seq<Gid>, groups: set<Gid>)
    requires |a| == |a0|
  {
    forall s | 0 <= s < |a| && a[s] != a0[s] ::
      && a[s] in groups && Received(a0, a, a[s])
      && (a0[s] in groups ==> Donated(a0, a, a0[s]))
  }

  ghost predicate Received(a0: seq<Gid>, a: seq<Gid>, g: Gid) {
    Load(a, g) > Load(a0, g)
  }

  ghost predicate Donated(a0: seq<Gid>, a: seq<Gid>, g: Gid) {
    Load(a, g) < Load(a0, g)
  }

  ghost predicate FairLoads(a0: seq<Gid>, a: seq<Gid>, groups: set<Gid>) {
    // A receiver is at most one above every group.
    && (forall g, h | g in groups && h in groups && Received(a0, a, g) :: Load(a, g) <= Load(a, h) + 1)
    // A donor is at most one below every group.
    && (forall g, h | g in groups && h in groups && Donated(a0, a, g) :: Load(a, h) <= Load(a, g) + 1)
    // No receiver is above a donor.
    && (forall g, h | g in groups && h in groups && Received(a0, a, g) && Donated(a0, a, h) ::
          Load(a, g) <= Load(a, h))
  }

  ghost predicate NoDonors(a0: seq<Gid>, a: seq<Gid>, groups: set<Gid>) {
    forall g | g in groups :: !Donated(a0, a, g)
  }

  lemma FairStart(a: seq<Gid>, groups: set<Gid>)
    ensures Fair(a, a, groups) && NoDonors(a, a, groups)
  {
  }

  // First loop, shards s and up: a shard whose owner is not a group goes to the least loaded group.
  ghost function AssignOrphans(a: seq<Gid>, groups: set<Gid>, s: nat): (r: seq<Gid>)
    requires groups != {} && s <= |a|
    ensures |r| == |a|
    decreases |a| - s
  {
    if s == |a| then a
    else AssignOrphans(AssignOne(a, groups, s), groups, s + 1)
  }

  lemma AssignKeepsFair(a0: seq<Gid>, a: seq<Gid>, groups: set<Gid>, s: nat)
    requires groups != {} && s < |a|
    requires Fair(a0, a, groups) && NoDonors(a0, a, groups)
    requires a[s] !in groups
    ensures var b := a[s := Least(a, groups)];
            Fair(a0, b, groups) && NoDonors(a0, b, groups) && a[s] == a0[s]
  {
    var lg := Least(a, groups);
    LoadAfterMove(a, s, lg);
  }

  ghost function AssignOne(a: seq<Gid>, groups: set<Gid>, s: nat): (b: seq<Gid>)
    requires groups != {} && s < |a|
    ensures |b| == |a|
  {
    if a[s] in groups then a else a[s := Least(a, groups)]
  }

  // The state of the first loop once it has passed the shards below s.
  ghost predicate Assigned(a0: seq<Gid>, a: seq<Gid>, groups: set<Gid>, s: nat) {
    Fair(a0, a, groups) && NoDonors(a0, a, groups) && s <= |a| && forall i | 0 <= i < s :: a[i] in groups
  }

  lemma AssignOneKeeps(a0: seq<Gid>, a: seq<Gid>, groups: set<Gid>, s: nat)
    requires groups != {} && s < |a| && Assigned(a0, a, groups, s)
    ensures Assigned(a0, AssignOne(a, groups, s), groups, s + 1)
  {
    if a[s] !in groups {
      AssignKeepsFair(a0, a, groups, s);
    }
  }

  lemma {:induction false} OrphansAssigned(a0: seq<Gid>, a: seq<Gid>, groups: set<Gid>, s: nat)
    requires groups != {} && s <= |a| && Assigned(a0, a, groups, s)
    ensures Assigned(a0, AssignOrphans(a, groups, s), groups, |a|)
    decreases |a| - s
  {
    if s < |a| {
      AssignOneKeeps(a0, a, groups, s);
      OrphansAssigned(a0, AssignOne(a, groups, s), groups, s + 1);
    }
  }

  // One step of the second loop: the lowest shard of the most loaded group goes to the least loaded one.
  datatype Move = Move(shard: nat, from: Gid, to: Gid)

  ghost predicate Uneven(a: seq<Gid>, groups: set<Gid>)
    requires groups != {}
  {
    Load(a, Most(a, groups)) >= Load(a, Least(a, groups)) + 2
  }

  ghost function NextMove(a: seq<Gid>, groups: set<Gid>): (m: Move)
    requires groups != {} && Uneven(a, groups)
    ensures m.shard < |a| && a[m.shard] == m.from
  {
    LoadPositive(a, Most(a, groups));
    Move(FirstShard(a, Most(a, groups)), Most(a, groups), Least(a, groups))
  }

  // A balancing move takes a shard that has not moved before from a group that has not received,
  // gives it to a group that has not donated, and keeps the invariant.
  lemma MoveKeepsFair(a0: seq<Gid>, a: seq<Gid>, groups: set<Gid>)
    requires groups != {} && Uneven(a, groups) && Fair(a0, a, groups) && Valid(a, groups)
    ensures var m := NextMove(a, groups);
            var b := a[m.shard := m.to];
            && a[m.shard] == a0[m.shard] && b[m.shard] != a0[m.shard]
            && Donated(a0, b, m.from) && Received(a0, b, m.to)
            && Fair(a0, b, groups) && Valid(b, groups)
            && (forall g | g in groups && Donated(a0, a, g) :: Donated(a0, b, g))
            && (forall g | g in groups && Received(a0, a, g) :: Received(a0, b, g))
  {
    var m := NextMove(a, groups);
    LoadAfterMove(a, m.shard, m.to);
    MoveKeepsRoles(a0, a, a[m.shard := m.to], groups, m.from, m.to);
    MoveKeepsFairLoads(a0, a, a[m.shard := m.to], groups, m.from, m.to);
    MoveKeepsFairShards(a0, a, groups, m.shard, m.to);
  }

  // One shard goes from the most loaded group to the least loaded one.
  ghost predicate MovesOneShard(a: seq<Gid>, b: seq<Gid>, groups: set<Gid>, mg: Gid, lg: Gid) {
    && IsMost(a, groups, mg) && IsLeast(a, groups, lg) && Load(a, mg) >= Load(a, lg) + 2
    && Load(b, mg) == Load(a, mg) - 1 && Load(b, lg) == Load(a, lg) + 1
    && forall h | h != mg && h != lg :: Load(b, h) == Load(a, h)
  }

  lemma MoveKeepsRoles(a0: seq<Gid>, a: seq<Gid>, b: seq<Gid>, groups: set<Gid>, mg: Gid, lg: Gid)
    requires MovesOneShard(a, b, groups, mg, lg) && FairLoads(a0, a, groups)
    ensures !Received(a0, a, mg) && !Donated(a0, a, lg) && Donated(a0, b, mg) && Received(a0, b, lg)
    ensures forall g | g in groups && Donated(a0, a, g) :: Donated(a0, b, g)
    ensures forall g | g in groups && Received(a0, a, g) :: Received(a0, b, g)
    ensures forall g | g in groups && g != mg && Donated(a0, b, g) :: Donated(a0, a, g)
    ensures forall g | g in groups && g != lg && Received(a0, b, g) :: Received(a0, a, g)
  {
  }

  lemma MoveKeepsReceivers(a0: seq<Gid>, a: seq<Gid>, b: seq<Gid>, groups: set<Gid>, mg: Gid, lg: Gid)
    requires MovesOneShard(a, b, groups, mg, lg) && FairLoads(a0, a, groups)
    ensures forall g, h | g in groups && h in groups && Received(a0, b, g) :: Load(b, g) <= Load(b, h) + 1
  {
    MoveKeepsRoles(a0, a, b, groups, mg, lg);
  }

  lemma MoveKeepsDonors(a0: seq<Gid>, a: seq<Gid>, b: seq<Gid>, groups: set<Gid>, mg: Gid, lg: Gid)
    requires MovesOneShard(a, b, groups, mg, lg) && FairLoads(a0, a, groups)
    ensures forall g, h | g in groups && h in groups && Donated(a0, b, g) :: Load(b, h) <= Load(b, g) + 1
  {
    MoveKeepsRoles(a0, a, b, groups, mg, lg);
  }

  lemma MoveKeepsOrder(a0: seq<Gid>, a: seq<Gid>, b: seq<Gid>, groups: set<Gid>, mg: Gid, lg: Gid)
    requires MovesOneShard(a, b, groups, mg, lg) && FairLoads(a0, a, groups)
    ensures forall g, h | g in groups && h in groups && Received(a0, b, g) && Donated(a0, b, h) :: Load(b, g) <= Load(b, h)
  {
    MoveKeepsRoles(a0, a, b, groups, mg, lg);
  }

  lemma MoveKeepsFairLoads(a0: seq<Gid>, a: seq<Gid>, b: seq<Gid>, groups: set<Gid>, mg: Gid, lg: Gid)
    requires MovesOneShard(a, b, groups, mg, lg) && FairLoads(a0, a, groups)
    ensures FairLoads(a0, b, groups)
  {
    MoveKeepsReceivers(a0, a, b, groups, mg, lg);
    MoveKeepsDonors(a0, a, b, groups, mg, lg);
    MoveKeepsOrder(a0, a, b, groups, mg, lg);
  }

  lemma MoveKeepsFairShards(a0: seq<Gid>, a: seq<Gid>, groups: set<Gid>, s: nat, lg: Gid)
    requires |a| == |a0| && s < |a| && Valid(a, groups) && FairShards(a0, a, groups)
    requires lg in groups && lg != a[s] && !Received(a0, a, a[s])
    requires var b := a[s := lg];
             && Donated(a0, b, a[s]) && Received(a0, b, lg)
             && (forall g | g in groups && Donated(a0, a, g) :: Donated(a0, b, g))
             && (forall g | g in groups && Received(a0, a, g) :: Received(a0, b, g))
    ensures a[s] == a0[s] && FairShards(a0, a[s := lg], groups) && Valid(a[s := lg], groups)
  {
  }

  // How far the second loop can still go: the shards that are still with their first owner.
  ghost function Unmoved(a0: seq<Gid>, a: seq<Gid>): set<nat>
    requires |a0| == |a|
  {
    set s: nat | s < |a| && a[s] == a0[s]
  }

  lemma MoveLeavesFewerUnmoved(a0: seq<Gid>, a: seq<Gid>, groups: set<Gid>)
    requires groups != {} && Uneven(a, groups) && Fair(a0, a, groups) && Valid(a, groups)
    ensures var m := NextMove(a, groups);
            Unmoved(a0, a) == Unmoved(a0, a[m.shard := m.to]) + {m.shard}
    ensures NextMove(a, groups).shard !in Unmoved(a0, a[NextMove(a, groups).shard := NextMove(a, groups).to])
  {
    MoveKeepsFair(a0, a, groups);
  }

  // Second loop: the moves it makes, in order.
  ghost function BalancingMoves(a0: seq<Gid>, a: seq<Gid>, groups: set<Gid>): seq<Move>
    requires groups != {} && Fair(a0, a, groups) && Valid(a, groups)
    decreases Unmoved(a0, a)
  {
    if Uneven(a, groups) then
      var m := NextMove(a, groups);
      MoveKeepsFair(a0, a, groups);
      MoveLeavesFewerUnmoved(a0, a, groups);
      [m] + BalancingMoves(a0, a[m.shard := m.to], groups)
    else []
  }

  ghost function Apply(a: seq<Gid>, moves: seq<Move>): (r: seq<Gid>)
    requires forall m | m in moves :: m.shard < |a|
    ensures |r| == |a|
    decreases |moves|
  {
    if moves == [] then a else Apply(a[moves[0].shard := moves[0].to], moves[1..])
  }

  lemma {:induction false} BalancingMovesInRange(a0: seq<Gid>, a: seq<Gid>, groups: set<Gid>)
    requires groups != {} && Fair(a0, a, groups) && Valid(a, groups)
    ensures forall m | m in BalancingMoves(a0, a, groups) :: m.shard < |a|
    decreases Unmoved(a0, a)
  {
    if Uneven(a, groups) {
      var m := NextMove(a, groups);
      MoveKeepsFair(a0, a, groups);
      MoveLeavesFewerUnmoved(a0, a, groups);
      BalancingMovesInRange(a0, a[m.shard := m.to], groups);
    }
  }

  ghost function Level(a0: seq<Gid>, a: seq<Gid>, groups: set<Gid>): (r: seq<Gid>)
    requires groups != {} && Fair(a0, a, groups) && Valid(a, groups)
  {
    BalancingMovesInRange(a0, a, groups);
    Apply(a, BalancingMoves(a0, a, groups))
  }

  // Unfolds one iteration of the second loop.
  lemma LevelStep(a0: seq<Gid>, a: seq<Gid>, groups: set<Gid>)
    requires groups != {} && Fair(a0, a, groups) && Valid(a, groups)
    ensures !Uneven(a, groups) ==> Level(a0, a, groups) == a
    ensures Uneven(a, groups) ==>
              var m := NextMove(a, groups);
              var b := a[m.shard := m.to];
              Fair(a0, b, groups) && Valid(b, groups) && Level(a0, a, groups) == Level(a0, b, groups)
  {
    BalancingMovesInRange(a0, a, groups);
    if Uneven(a, groups) {
      var m := NextMove(a, groups);
      MoveKeepsFair(a0, a, groups);
      MoveLeavesFewerUnmoved(a0, a, groups);
      var rest := BalancingMoves(a0, a[m.shard := m.to], groups);
      assert BalancingMoves(a0, a, groups) == [m] + rest;
      assert ([m] + rest)[1..] == rest;
    }
  }

  ghost function Rebalanced(a: seq<Gid>, groups: set<Gid>): (r: seq<Gid>)
    ensures |r| == |a|
  {
    if groups == {} then seq(|a|, s => 0)
    else
      FairStart(a, groups);
      OrphansAssigned(a, a, groups, 0);
      Level(a, AssignOrphans(a, groups, 0), groups)
  }

  lemma {:induction false} LevelCorrect(a0: seq<Gid>, a: seq<Gid>, groups: set<Gid>)
    requires groups != {} && Fair(a0, a, groups) && Valid(a, groups)
    ensures var r := Level(a0, a, groups);
            Fair(a0, r, groups) && Valid(r, groups) && Balanced(r, groups)
    ensures var r := Level(a0, a, groups);
            forall g | g in groups ::
              (Donated(a0, a, g) ==> Donated(a0, r, g)) && (Received(a0, a, g) ==> Received(a0, r, g))
    decreases Unmoved(a0, a)
  {
    LevelStep(a0, a, groups);
    if Uneven(a, groups) {
      var m := NextMove(a, groups);
      MoveKeepsFair(a0, a, groups);
      MoveLeavesFewerUnmoved(a0, a, groups);
      LevelCorrect(a0, a[m.shard := m.to], groups);
    } else {
      assert forall g, h | g in groups && h in groups ::
          Load(a, g) <= Load(a, Most(a, groups)) && Load(a, Least(a, groups)) <= Load(a, h);
    }
  }

  lemma RebalanceCorrect(a: seq<Gid>, groups: set<Gid>)
    requires groups != {}
    ensures var r := Rebalanced(a, groups);
            Valid(r, groups) && Balanced(r, groups) && Fair(a, r, groups)
  {
    FairStart(a, groups);
    OrphansAssigned(a, a, groups, 0);
    LevelCorrect(a, AssignOrphans(a, groups, 0), groups);
  }

  /** Within one Rebalance no shard is written twice, counting both loops; no group both donates and
      receives in the second loop; and the second loop makes at most as many moves as there are shards. */
  lemma MovesOnce(a: seq<Gid>, groups: set<Gid>)
    requires groups != {}
    ensures var b := AssignOrphans(a, groups, 0);
            && Fair(a, b, groups) && Valid(b, groups)
            && var moves := BalancingMoves(a, b, groups);
            && |moves| <= |a|
            && (forall i | 0 <= i < |moves| :: moves[i].shard < |a| && a[moves[i].shard] in groups && b[moves[i].shard] == a[moves[i].shard])
            && (forall i, j | 0 <= i < j < |moves| :: moves[i].shard != moves[j].shard)
            && (forall i, j | 0 <= i < |moves| && 0 <= j < |moves| :: moves[i].from != moves[j].to)
  {
    FairStart(a, groups);
    OrphansAssigned(a, a, groups, 0);
    var b := AssignOrphans(a, groups, 0);
    MovesOnceFrom(a, b, groups);
    var moves := BalancingMoves(a, b, groups);
    forall i | 0 <= i < |moves|
      ensures moves[i].shard < |a| && a[moves[i].shard] in groups && b[moves[i].shard] == a[moves[i].shard]
    {
      assert moves[i].shard in Unmoved(a, b);
    }
    UnmovedBound(a, b);
  }

  lemma UnmovedBound(a0: seq<Gid>, a: seq<Gid>)
    requires |a0| == |a|
    ensures |Unmoved(a0, a)| <= |a|
  {
    var owners := set s | 0 <= s < |a| :: a[s];
    ServedAll(a, owners);
    SubsetCount(Unmoved(a0, a), Served(a, owners));
  }

  // The moves touch different shards, all among those given, and go from groups that have donated in the end
  // to groups that have received.
  ghost predicate GoodMoves(a0: seq<Gid>, r: seq<Gid>, groups: set<Gid>, shards: set<nat>, moves: seq<Move>)
    requires |a0| == |r|
  {
    && (forall i | 0 <= i < |moves| :: moves[i].shard in shards)
    && (forall i, j | 0 <= i < j < |moves| :: moves[i].shard != moves[j].shard)
    && (forall i | 0 <= i < |moves| ::
          && moves[i].from in groups && Donated(a0, r, moves[i].from)
          && moves[i].to in groups && Received(a0, r, moves[i].to))
  }

  lemma OneMoreGoodMove(a0: seq<Gid>, r: seq<Gid>, groups: set<Gid>, shards: set<nat>, m: Move, rest: seq<Move>)
    requires |a0| == |r| && GoodMoves(a0, r, groups, shards, rest) && m.shard !in shards
    requires m.from in groups && Donated(a0, r, m.from) && m.to in groups && Received(a0, r, m.to)
    ensures GoodMoves(a0, r, groups, shards + {m.shard}, [m] + rest)
  {
    var moves := [m] + rest;
    assert forall i | 1 <= i < |moves| :: moves[i] == rest[i - 1];
  }

  lemma {:induction false} MovesOnceFrom(a0: seq<Gid>, a: seq<Gid>, groups: set<Gid>)
    requires groups != {} && Fair(a0, a, groups) && Valid(a, groups)
    ensures var moves := BalancingMoves(a0, a, groups);
            var r := Level(a0, a, groups);
            |moves| + |Unmoved(a0, r)| == |Unmoved(a0, a)| && GoodMoves(a0, r, groups, Unmoved(a0, a), moves)
    decreases Unmoved(a0, a)
  {
    LevelStep(a0, a, groups);
    if Uneven(a, groups) {
      var m := NextMove(a, groups);
      var b := a[m.shard := m.to];
      MoveKeepsFair(a0, a, groups);
      MoveLeavesFewerUnmoved(a0, a, groups);
      MovesOnceFrom(a0, b, groups);
      LevelCorrect(a0, b, groups);
      OneMoreGoodMove(a0, Level(a0, b, groups), groups, Unmoved(a0, b), m, BalancingMoves(a0, b, groups));
    }
  }

  // Shards kept by any assignment are limited by the lower of the two loads; Rebalance reaches the limit.
  ghost function KeptLimit(a: seq<Gid>, groups: set<Gid>, q: nat): nat
    decreases groups
  {
    if groups == {} then 0
    else
      var g := Pick(groups);
      KeptLimit(a, groups - {g}, q) + if Load(a, g) <= q then Load(a, g) else q
  }

  lemma KeptOfOneGroup(a: seq<Gid>, b: seq<Gid>, g: Gid)
    requires |a| == |b|
    ensures |Kept(a, b, {g})| <= Load(a, g) && |Kept(a, b, {g})| <= Load(b, g)
  {
    OwnedCount(a, g);
    OwnedCount(b, g);
    SubsetCount(Kept(a, b, {g}), Owned(a, g));
    SubsetCount(Kept(a, b, {g}), Owned(b, g));
  }

  lemma KeptSplit(a: seq<Gid>, b: seq<Gid>, groups: set<Gid>, g: Gid)
    requires |a| == |b| && g in groups
    ensures |Kept(a, b, groups)| == |Kept(a, b, groups - {g})| + |Kept(a, b, {g})|
  {
    assert Kept(a, b, groups) == Kept(a, b, groups - {g}) + Kept(a, b, {g});
    assert Kept(a, b, groups - {g}) !! Kept(a, b, {g});
  }

  // The groups above level q in b that could fill that place with shards they had in a.
  ghost function Filled(a: seq<Gid>, b: seq<Gid>, groups: set<Gid>, q: nat): set<Gid> {
    Above(a, groups, q) * Above(b, groups, q)
  }

  lemma MeetSplit(u: set<Gid>, v: set<Gid>, g: Gid, p: bool, q: bool)
    requires g !in u && g !in v
    ensures |(u + if p then {g} else {}) * (v + if q then {g} else {})| == |u * v| + if p && q then 1 else 0
  {
    assert (u + if p then {g} else {}) * (v + if q then {g} else {}) == u * v + if p && q then {g} else {};
  }

  lemma {:induction false} FilledSplit(a: seq<Gid>, b: seq<Gid>, groups: set<Gid>, g: Gid, q: nat)
    requires g in groups
    ensures |Filled(a, b, groups, q)| == |Filled(a, b, groups - {g}, q)| +
                                         if Load(a, g) > q && Load(b, g) > q then 1 else 0
  {
    AboveSplit(a, groups, g, q);
    AboveSplit(b, groups, g, q);
    MeetSplit(Above(a, groups - {g}, q), Above(b, groups - {g}, q), g, Load(a, g) > q, Load(b, g) > q);
  }

  lemma {:induction false} KeptAtMost(a: seq<Gid>, b: seq<Gid>, groups: set<Gid>, q: nat)
    requires |a| == |b| && LoadsAt(b, groups, q)
    ensures |Kept(a, b, groups)| <= KeptLimit(a, groups, q) + |Filled(a, b, groups, q)|
    decreases groups
  {
    if groups == {} {
      assert Kept(a, b, groups) == {};
    } else {
      var g := Pick(groups);
      KeptAtMost(a, b, groups - {g}, q);
      KeptSplit(a, b, groups, g);
      KeptOfOneGroup(a, b, g);
      FilledSplit(a, b, groups, g, q);
    }
  }

  // In a fair assignment a group that has not donated keeps all its shards, one that has keeps all it holds.
  lemma {:induction false} FairKeepsOneGroup(a: seq<Gid>, r: seq<Gid>, all: set<Gid>, g: Gid)
    requires Fair(a, r, all) && g in all
    ensures |Kept(a, r, {g})| == if Load(r, g) < Load(a, g) then Load(r, g) else Load(a, g)
  {
    OwnedCount(a, g);
    OwnedCount(r, g);
    if Load(r, g) < Load(a, g) {
      assert Kept(a, r, {g}) == Owned(r, g);
    } else {
      assert Kept(a, r, {g}) == Owned(a, g);
    }
  }

  lemma {:induction false} KeptExactly(a: seq<Gid>, r: seq<Gid>, all: set<Gid>, groups: set<Gid>, q: nat)
    requires Fair(a, r, all) && groups <= all && LoadsAt(r, groups, q)
    ensures |Kept(a, r, groups)| == KeptLimit(a, groups, q) + |Filled(a, r, groups, q)|
    decreases groups
  {
    if groups == {} {
      assert Kept(a, r, groups) == {};
    } else {
      var g := Pick(groups);
      KeptExactly(a, r, all, groups - {g}, q);
      KeptSplit(a, r, groups, g);
      FairKeepsOneGroup(a, r, all, g);
      FilledSplit(a, r, groups, g, q);
    }
  }

  // Because no receiver ends above a donor, the places above the level go first to groups that had the shards.
  lemma FairFillsMost(a: seq<Gid>, r: seq<Gid>, b: seq<Gid>, groups: set<Gid>, q: nat)
    requires Fair(a, r, groups) && LoadsAt(r, groups, q)
    requires |Above(b, groups, q)| == |Above(r, groups, q)|
    ensures |Filled(a, b, groups, q)| <= |Filled(a, r, groups, q)|
  {
    var rich := Above(a, groups, q);
    SubsetCount(Filled(a, b, groups, q), rich);
    SubsetCount(Filled(a, b, groups, q), Above(b, groups, q));
    if rich <= Above(r, groups, q) {
      assert Filled(a, r, groups, q) == rich;
    } else {
      var d :| d in rich && d !in Above(r, groups, q);
      assert Above(r, groups, q) <= rich by {
        forall g | g in Above(r, groups, q) ensures g in rich {
          assert Donated(a, r, d) && Load(r, g) > Load(r, d);
          assert !Received(a, r, g);
        }
      }
      assert Filled(a, r, groups, q) == Above(r, groups, q);
    }
  }

  lemma MovedAndKept(a: seq<Gid>, b: seq<Gid>, groups: set<Gid>)
    requires |a| == |b| && Valid(b, groups)
    ensures |Moved(a, b)| + |Kept(a, b, groups)| == |a|
  {
    ServedAll(b, groups);
    assert Served(b, groups) == Moved(a, b) + Kept(a, b, groups);
    assert Moved(a, b) !! Kept(a, b, groups);
  }

  /** Minimal movement: whatever the starting assignment, every valid balanced assignment differs from
      it in at least as many shards as the result of Rebalance does. */
  lemma MinimalMovement(a: seq<Gid>, groups: set<Gid>, b: seq<Gid>)
    requires groups != {} && |b| == |a| && Valid(b, groups) && Balanced(b, groups)
    ensures |Moved(a, Rebalanced(a, groups))| <= |Moved(a, b)|
  {
    var r := Rebalanced(a, groups);
    RebalanceCorrect(a, groups);
    var q := SameLevel(r, b, groups);
    KeptAtMost(a, b, groups, q);
    KeptExactly(a, r, groups, groups, q);
    FairFillsMost(a, r, b, groups, q);
    MovedAndKept(a, r, groups);
    MovedAndKept(a, b, groups);
  }

  // A shard that moves from one live group to another had an owner at least two shards ahead.
  lemma {:induction false} MovesGoDownhill(a: seq<Gid>, groups: set<Gid>, s: nat)
    requires groups != {} && s < |a|
    requires a[s] in groups && Rebalanced(a, groups)[s] != a[s]
    ensures Rebalanced(a, groups)[s] in groups
    ensures Load(a, a[s]) >= Load(a, Rebalanced(a, groups)[s]) + 2
  {
    RebalanceCorrect(a, groups);
  }

  /** Locality of a join: from a balanced assignment every shard that moves goes from an old group to
      a new one. */
  lemma JoinLocality(a: seq<Gid>, staying: set<Gid>, joining: set<Gid>, s: nat)
    requires staying != {} && staying !! joining && Valid(a, staying) && Balanced(a, staying)
    requires s < |a| && Rebalanced(a, staying + joining)[s] != a[s]
    ensures a[s] in staying && Rebalanced(a, staying + joining)[s] in joining
  {
    MovesGoDownhill(a, staying + joining, s);
  }

  /** Locality of a leave: from a balanced assignment only the shards of the leaving groups move. */
  lemma LeaveLocality(a: seq<Gid>, groups: set<Gid>, leaving: set<Gid>, s: nat)
    requires groups - leaving != {} && Valid(a, groups) && Balanced(a, groups) && s < |a|
    ensures Rebalanced(a, groups - leaving)[s] != a[s] <==> a[s] in leaving
  {
    RebalanceCorrect(a, groups - leaving);
    if a[s] !in leaving && Rebalanced(a, groups - leaving)[s] != a[s] {
      MovesGoDownhill(a, groups - leaving, s);
    }
  }
}
