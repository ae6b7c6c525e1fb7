/** The shard configuration object: analysis, rebalancing, joins and leaves, and what every sequence of
    successful joins and leaves keeps. */
module ShardConfig {
  import opened Choice
  import opened ShardLoads
  import opened Rebalance

  type Server = string

  // What a call to Join or Leave does: change the configuration, refuse, or stop the process.
  datatype Outcome = Changed | Refused | Fatal

  ghost predicate Shares(xs: seq<Server>, ys: seq<Server>) {
    exists x :: x in xs && x in ys
  }

  lemma SharesSymmetric(xs: seq<Server>, ys: seq<Server>)
    ensures Shares(xs, ys) ==> Shares(ys, xs)
  {
  }

  // Different groups have no server in common.
  ghost predicate ServersDisjoint(groups: map<Gid, seq<Server>>) {
    forall g, h | g in groups && h in groups && g != h :: !Shares(groups[g], groups[h])
  }

  // The joins that succeed: some groups, all new, no server used twice.
  ghost predicate Joinable(groups: map<Gid, seq<Server>>, joining: map<Gid, seq<Server>>) {
    && joining != map[]
    && groups.Keys !! joining.Keys
    && (forall g, h | g in joining && h in groups :: !Shares(groups[h], joining[g]))
    && ServersDisjoint(joining)
  }

  // The leaves that succeed: some groups, all present, none named twice.
  ghost predicate Leavable(groups: map<Gid, seq<Server>>, gids: seq<Gid>) {
    && gids != []
    && (forall g | g in gids :: g in groups)
    && (forall i, j | 0 <= i < j < |gids| :: gids[i] != gids[j])
  }

  // A join that fails has added some of the groups, in any order, all of them new.
  ghost predicate PartlyJoined(groups: map<Gid, seq<Server>>, joining: map<Gid, seq<Server>>, after: map<Gid, seq<Server>>) {
    exists left: set<Gid> :: left <= joining.Keys && groups.Keys !! joining.Keys - left && after == groups + (joining - left)
  }

  // The groups of a join under way, which has not yet looked at some of those that join.
  ghost predicate JoinedSoFar(groups: map<Gid, seq<Server>>, joining: map<Gid, seq<Server>>, left: set<Gid>, now: map<Gid, seq<Server>>) {
    var done := joining - left;
    && left <= joining.Keys
    && groups.Keys !! done.Keys
    && now == groups + done
    && (forall g, h | g in done && h in groups :: !Shares(groups[h], done[g]))
    && ServersDisjoint(done)
  }

  lemma NoneIsJoined(groups: map<Gid, seq<Server>>, joining: map<Gid, seq<Server>>)
    ensures JoinedSoFar(groups, joining, joining.Keys, groups)
  {
    assert joining - joining.Keys == map[];
  }

  lemma OneMoreIsJoined(groups: map<Gid, seq<Server>>, joining: map<Gid, seq<Server>>, left: set<Gid>, now: map<Gid, seq<Server>>, gid: Gid)
    requires JoinedSoFar(groups, joining, left, now) && gid in left && gid !in now
    requires !exists h :: h in now && Shares(now[h], joining[gid])
    ensures JoinedSoFar(groups, joining, left - {gid}, now[gid := joining[gid]])
  {
    var done := joining - left;
    assert joining - (left - {gid}) == done[gid := joining[gid]];
    forall h | h in done ensures !Shares(done[h], joining[gid]) && !Shares(joining[gid], done[h]) {
      assert now[h] == done[h];
      SharesSymmetric(joining[gid], done[h]);
    }
    forall h | h in groups ensures !Shares(groups[h], joining[gid]) {
      assert now[h] == groups[h];
    }
  }

  lemma AllAreJoined(groups: map<Gid, seq<Server>>, joining: map<Gid, seq<Server>>, now: map<Gid, seq<Server>>)
    requires JoinedSoFar(groups, joining, {}, now) && joining != map[]
    ensures Joinable(groups, joining) && now == groups + joining
  {
    assert joining - {} == joining;
  }

  lemma NotAllAreJoined(groups: map<Gid, seq<Server>>, joining: map<Gid, seq<Server>>, left: set<Gid>, now: map<Gid, seq<Server>>)
    requires left <= joining.Keys && groups.Keys !! joining.Keys - left && now == groups + (joining - left)
    ensures PartlyJoined(groups, joining, now)
  {
  }

  lemma PresentGroup(groups: map<Gid, seq<Server>>, joining: map<Gid, seq<Server>>, left: set<Gid>, now: map<Gid, seq<Server>>, gid: Gid)
    requires JoinedSoFar(groups, joining, left, now) && gid in left && gid in now
    ensures gid in groups && !Joinable(groups, joining)
  {
    assert gid !in joining - left;
  }

  lemma SharedServer(groups: map<Gid, seq<Server>>, joining: map<Gid, seq<Server>>, left: set<Gid>, now: map<Gid, seq<Server>>, gid: Gid)
    requires JoinedSoFar(groups, joining, left, now) && gid in left && gid !in now
    requires exists h :: h in now && Shares(now[h], joining[gid])
    ensures !Joinable(groups, joining)
  {
    var h :| h in now && Shares(now[h], joining[gid]);
    if h !in groups {
      assert h in joining && h != gid && now[h] == joining[h];
    }
  }

  // A leave that fails has removed the groups before the first one that is missing.
  ghost predicate PartlyLeft(groups: map<Gid, seq<Server>>, gids: seq<Gid>, after: map<Gid, seq<Server>>) {
    if gids == [] then after == groups
    else exists i: nat :: i < |gids| && after == groups - Gone(gids, i) && gids[i] !in after
                          && forall k | 0 <= k < i :: gids[k] in groups
  }

  ghost function Gone(gids: seq<Gid>, i: nat): set<Gid>
    requires i <= |gids|
  {
    set k | 0 <= k < i :: gids[k]
  }

  /** The abstract value of a configuration. */
  datatype Config = Config(num: nat, shards: seq<Gid>, groups: map<Gid, seq<Server>>)

  ghost function Balance(c: Config): Config {
    c.(shards := Rebalanced(c.shards, c.groups.Keys))
  }

  ghost function Joined(c: Config, joining: map<Gid, seq<Server>>): Config {
    c.(num := c.num + 1, groups := c.groups + joining)
  }

  ghost function Left(c: Config, gids: seq<Gid>): Config {
    c.(num := c.num + 1, groups := c.groups - set g | g in gids)
  }

  class ShardConfig {
    var Num: nat
    const Shards: array<Gid>
    var Groups: map<Gid, seq<Server>>

    // The analysis starts its minimum at 257, so fewer shards than that keep the minimum meaningful.
    ghost predicate WellFormed() {
      0 < Shards.Length < 257
    }

    ghost function View(): Config
      reads this, Shards
    {
      Config(Num, Shards[..], Groups)
    }

    constructor (shardCount: nat)
      requires 0 < shardCount < 257
      ensures WellFormed() && Shards.Length == shardCount && fresh(Shards) && View() == Config(0, seq(shardCount, s => 0), map[])
    {
      Num := 0;
      Shards := new Gid[shardCount](s => 0);
      Groups := map[];
      new;
      assert Shards[..] == seq(shardCount, s => 0);
    }

    method Copy() returns (c: ShardConfig)
      requires WellFormed()
      ensures c.WellFormed() && fresh(c) && fresh(c.Shards) && c.View() == View()
    {
      c := new ShardConfig(Shards.Length);
      c.Num := Num;
      forall s | 0 <= s < Shards.Length {
        c.Shards[s] := Shards[s];
      }
      c.Groups := Groups;
      assert c.Shards[..] == Shards[..];
    }

    // How many shards each owner holds, groups or not.
    method Count() returns (counts: map<Gid, nat>)
      ensures forall g :: Tally(counts, g) == Load(Shards[..], g)
    {
      counts := map[];
      for i := 0 to Shards.Length
        invariant forall g :: Tally(counts, g) == Load(Shards[..i], g)
      {
        var g := Shards[i];
        counts := counts[g := Tally(counts, g) + 1];
        assert Shards[..i + 1][..i] == Shards[..i];
      }
      assert Shards[..] == Shards[..Shards.Length];
    }

    // The group ids in increasing order, though the map enumerates them in any order.
    method SortedGroups() returns (groups: seq<Gid>)
      ensures Increasing(groups) && Elements(groups) == Groups.Keys
    {
      groups := [];
      var keys := Groups.Keys;
      while keys != {}
        invariant Increasing(groups)
        invariant Elements(groups) + keys == Groups.Keys
        invariant Elements(groups) !! keys
        decreases keys
      {
        var k := TakeAny(keys);
        keys := keys - {k};
        groups := Insert(groups, k);
      }
    }

    // Whatever order the map is enumerated in, the most and least loaded groups found are the unique
    // ones with the smallest id among equals.
    method Analyze() returns (mg: Gid, mn: int, lg: Gid, ln: int)
      requires WellFormed()
      ensures Groups == map[] ==> (mg, mn, lg, ln) == (-1, -1, -1, 257)
      ensures Groups != map[] ==> Groups.Keys != {} && mg == Most(Shards[..], Groups.Keys) && mn == Load(Shards[..], mg)
      ensures Groups != map[] ==> Groups.Keys != {} && lg == Least(Shards[..], Groups.Keys) && ln == Load(Shards[..], lg)
    {
      var counts := Count();
      mn, mg, ln, lg := -1, -1, 257, -1;
      var groups := SortedGroups();
      ghost var a := Shards[..];
      for i := 0 to |groups|
        invariant i == 0 ==> (mg, mn, lg, ln) == (-1, -1, -1, 257)
        invariant i > 0 ==> mn == Load(a, mg) && ln == Load(a, lg)
        invariant i > 0 ==> IsMost(a, Elements(groups[..i]), mg)
        invariant i > 0 ==> IsLeast(a, Elements(groups[..i]), lg)
      {
        var g := groups[i];
        ghost var seen := Elements(groups[..i]);
        LoadBound(a, g);
        if i > 0 {
          MostStep(a, seen, mg, g);
          LeastStep(a, seen, lg, g);
        }
        SeenGrows(groups, i);
        if Tally(counts, g) < ln {
          ln := Tally(counts, g);
          lg := g;
        }
        if Tally(counts, g) > mn {
          mn := Tally(counts, g);
          mg := g;
        }
      }
      assert groups[..|groups|] == groups;
      if Groups != map[] {
        GroupsNonEmpty(Groups);
        assert Pick(Groups.Keys) in Elements(groups);
      }
    }

    method LeastGroup() returns (lg: Gid)
      requires WellFormed()
      ensures lg == if Groups == map[] then -1 else Least(Shards[..], Groups.Keys)
    {
      var _, _, g, _ := Analyze();
      lg := g;
    }

    // The first loop of Rebalance.
    method AssignUnassigned()
      requires WellFormed() && Groups != map[]
      modifies Shards
      ensures Groups.Keys != {} && Shards[..] == AssignOrphans(old(Shards[..]), Groups.Keys, 0)
    {
      ghost var a0 := Shards[..];
      ghost var groups := Groups.Keys;
      GroupsNonEmpty(Groups);
      for s := 0 to Shards.Length
        invariant AssignOrphans(a0, groups, 0) == AssignOrphans(Shards[..], groups, s)
      {
        ghost var a := Shards[..];
        if Shards[s] !in Groups {
          var lg := LeastGroup();
          Shards[s] := lg;
          assert Shards[..] == a[s := lg];
        }
        assert Shards[..] == AssignOne(a, groups, s);
      }
    }

    // The inner loop of Rebalance: the lowest shard of a group goes to another group.
    method MoveFirst(mg: Gid, lg: Gid)
      requires mg in Shards[..]
      modifies Shards
      ensures Shards[..] == old(Shards[..])[FirstShard(old(Shards[..]), mg) := lg]
    {
      ghost var a := Shards[..];
      var s := 0;
      while Shards[s] != mg
        invariant s < Shards.Length && mg !in Shards[..s] && Shards[..] == a
        decreases Shards.Length - s
      {
        assert Shards[..s + 1] == Shards[..s] + [Shards[s]];
        assert a == Shards[..s + 1] + Shards[s + 1..];
        s := s + 1;
      }
      assert FirstShard(a, mg) == s;
      Shards[s] := lg;
    }

    method Rebalance()
      requires WellFormed()
      modifies Shards
      ensures Shards[..] == Rebalanced(old(Shards[..]), Groups.Keys)
    {
      ghost var a0 := Shards[..];
      if Groups == map[] {
        for s := 0 to Shards.Length
          invariant forall i | 0 <= i < s :: Shards[i] == 0
        {
          Shards[s] := 0;
        }
        assert Groups.Keys == {};
        return;
      }
      AssignUnassigned();
      FairStart(a0, Groups.Keys);
      OrphansAssigned(a0, a0, Groups.Keys, 0);
      LevelLoads(a0);
    }

    // The second loop of Rebalance.
    method LevelLoads(ghost a0: seq<Gid>)
      requires WellFormed() && Groups.Keys != {}
      requires Fair(a0, Shards[..], Groups.Keys) && Valid(Shards[..], Groups.Keys)
      modifies Shards
      ensures Shards[..] == Level(a0, old(Shards[..]), Groups.Keys)
    {
      ghost var groups := Groups.Keys;
      assert Groups != map[] by { assert Pick(groups) in Groups; }
      ghost var goal := Level(a0, Shards[..], groups);
      while true
        invariant Leveling(a0, Shards[..], groups, goal)
        decreases Unmoved(a0, Shards[..])
      {
        var mg, mn, lg, ln := Analyze();
        ghost var a := Shards[..];
        if mn < ln + 2 {
          LevelStep(a0, a, groups);
          break;
        }
        LoadPositive(a, mg);
        LevelingStep(a0, a, groups, goal);
        MoveFirst(mg, lg);
      }
    }

    // Does any server of a list belong to another group?
    method Overlaps(servers: seq<Server>) returns (found: bool)
      ensures found <==> exists h :: h in Groups && Shares(Groups[h], servers)
    {
      found := false;
      var keys := Groups.Keys;
      while keys != {}
        invariant found <==> exists h :: h in Groups && h !in keys && Shares(Groups[h], servers)
        decreases keys
      {
        var h := TakeAny(keys);
        keys := keys - {h};
        var xs := Groups[h];
        var here := false;
        for i := 0 to |xs|
          invariant here <==> Shares(xs[..i], servers)
        {
          var same := xs[i] in servers;
          assert xs[..i + 1] == xs[..i] + [xs[i]];
          here := here || same;
        }
        assert xs[..|xs|] == xs;
        found := found || here;
      }
    }

    method Join(servers: map<Gid, seq<Server>>) returns (res: Outcome)
      modifies this`Num, this`Groups
      ensures res == Changed <==> Joinable(old(Groups), servers)
      ensures res == Changed ==> View() == Joined(old(View()), servers)
      ensures res == Refused ==> exists g :: g in servers && g in old(Groups)
      ensures res != Changed ==> Num == old(Num) && PartlyJoined(old(Groups), servers, Groups)
    {
      if servers == map[] {
        NotAllAreJoined(Groups, servers, {}, Groups);
        return Fatal;
      }
      var keys := servers.Keys;
      NoneIsJoined(Groups, servers);
      while keys != {}
        invariant JoinedSoFar(old(Groups), servers, keys, Groups) && Num == old(Num)
        decreases keys
      {
        var gid := TakeAny(keys);
        if gid in Groups {
          NotAllAreJoined(old(Groups), servers, keys, Groups);
          PresentGroup(old(Groups), servers, keys, Groups, gid);
          return Refused;
        }
        var overlap := Overlaps(servers[gid]);
        if overlap {
          NotAllAreJoined(old(Groups), servers, keys, Groups);
          SharedServer(old(Groups), servers, keys, Groups, gid);
          return Fatal;
        }
        OneMoreIsJoined(old(Groups), servers, keys, Groups, gid);
        Groups := Groups[gid := servers[gid]];
        keys := keys - {gid};
      }
      AllAreJoined(old(Groups), servers, Groups);
      Num := Num + 1;
      res := Changed;
    }

    method Leave(gids: seq<Gid>) returns (res: Outcome)
      modifies this`Num, this`Groups
      ensures res == Changed <==> Leavable(old(Groups), gids)
      ensures res == Changed ==> View() == Left(old(View()), gids)
      ensures res == Fatal <==> gids == []
      ensures res != Changed ==> Num == old(Num) && PartlyLeft(old(Groups), gids, Groups)
    {
      if gids == [] {
        return Fatal;
      }
      for i := 0 to |gids|
        invariant Groups == old(Groups) - (set k | 0 <= k < i :: gids[k]) && Num == old(Num)
        invariant forall k | 0 <= k < i :: gids[k] in old(Groups)
        invariant forall j, k | 0 <= j < k < i :: gids[j] != gids[k]
      {
        var gid := gids[i];
        if gid !in Groups {
          return Refused;
        }
        Groups := Groups - {gid};
        assert (set k | 0 <= k < i + 1 :: gids[k]) == (set k | 0 <= k < i :: gids[k]) + {gid};
      }
      assert (set k | 0 <= k < |gids| :: gids[k]) == set g | g in gids;
      Num := Num + 1;
      res := Changed;
    }

    method JoinBalance(servers: map<Gid, seq<Server>>) returns (res: Outcome)
      requires WellFormed()
      modifies this`Num, this`Groups, Shards
      ensures res == Changed <==> Joinable(old(Groups), servers)
      ensures res == Changed ==> View() == Balance(Joined(old(View()), servers))
      ensures res == Refused ==> exists g :: g in servers && g in old(Groups)
      ensures res != Changed ==> Shards[..] == old(Shards[..]) && Num == old(Num) && PartlyJoined(old(Groups), servers, Groups)
    {
      res := Join(servers);
      if res == Changed {
        Rebalance();
      }
    }

    method LeaveBalance(gids: seq<Gid>) returns (res: Outcome)
      requires WellFormed()
      modifies this`Num, this`Groups, Shards
      ensures res == Changed <==> Leavable(old(Groups), gids)
      ensures res == Changed ==> View() == Balance(Left(old(View()), gids))
      ensures res == Fatal <==> gids == []
      ensures res != Changed ==> Shards[..] == old(Shards[..]) && Num == old(Num) && PartlyLeft(old(Groups), gids, Groups)
    {
      res := Leave(gids);
      if res == Changed {
        Rebalance();
      }
    }

    method IsMember(gid: Gid) returns (member: bool)
      ensures member <==> Load(Shards[..], gid) > 0
    {
      LoadPositive(Shards[..], gid);
      for s := 0 to Shards.Length
        invariant gid !in Shards[..s]
      {
        if Shards[s] == gid {
          return true;
        }
        assert Shards[..s + 1] == Shards[..s] + [Shards[s]];
      }
      assert Shards[..] == Shards[..Shards.Length];
      return false;
    }

    // The checker the tests run after every join and leave.
    method CheckConfig(groups: seq<Gid>) returns (ok: bool)
      requires WellFormed()
      ensures ok <==> Accepts(View(), groups)
    {
      if |Groups| != |groups| {
        return false;
      }
      for i := 0 to |groups|
        invariant forall k | 0 <= k < i :: groups[k] in Groups
      {
        if groups[i] !in Groups {
          return false;
        }
      }
      if |groups| > 0 {
        for s := 0 to Shards.Length
          invariant forall i | 0 <= i < s :: Shards[i] in Groups
        {
          if Shards[s] !in Groups {
            return false;
          }
        }
      }
      var counts := Count();
      var min, max := 257, 0;
      var keys := Groups.Keys;
      ghost var a := Shards[..];
      while keys != {}
        invariant keys <= Groups.Keys
        invariant forall g | g in Groups && g !in keys :: min <= Load(a, g) <= max
        invariant min == 257 || exists g :: g in Groups && Load(a, g) == min
        invariant max == 0 || exists g :: g in Groups && Load(a, g) == max
        invariant min == 257 ==> max == 0 && keys == Groups.Keys
        decreases keys
      {
        var g := TakeAny(keys);
        LoadBound(a, g);
        keys := keys - {g};
        if Tally(counts, g) > max {
          max := Tally(counts, g);
        }
        if Tally(counts, g) < min {
          min := Tally(counts, g);
        }
      }
      ok := max <= min + 1;
      assert ok <==> Balanced(a, Groups.Keys);
    }
  }

  lemma GroupsNonEmpty(groups: map<Gid, seq<Server>>)
    requires groups != map[]
    ensures groups.Keys != {}
  {
    assert groups.Keys == {} ==> groups == map[];
  }

  lemma SeenGrows(groups: seq<Gid>, i: nat)
    requires i < |groups|
    ensures Elements(groups[..i + 1]) == Elements(groups[..i]) + {groups[i]}
  {
    assert groups[..i + 1] == groups[..i] + [groups[i]];
    ElementsConcat(groups[..i], [groups[i]]);
  }

  // A later id replaces the group found so far only if its load is strictly greater, or strictly smaller.
  lemma MostStep(a: seq<Gid>, seen: set<Gid>, mg: Gid, g: Gid)
    requires IsMost(a, seen, mg) && forall h | h in seen :: h < g
    ensures IsMost(a, seen + {g}, if Load(a, g) > Load(a, mg) then g else mg)
  {
  }

  lemma LeastStep(a: seq<Gid>, seen: set<Gid>, lg: Gid, g: Gid)
    requires IsLeast(a, seen, lg) && forall h | h in seen :: h < g
    ensures IsLeast(a, seen + {g}, if Load(a, g) < Load(a, lg) then g else lg)
  {
  }

  predicate Increasing(groups: seq<Gid>) {
    forall i, j | 0 <= i < j < |groups| :: groups[i] < groups[j]
  }

  method Insert(groups: seq<Gid>, k: Gid) returns (r: seq<Gid>)
    requires Increasing(groups) && k !in groups
    ensures Increasing(r) && Elements(r) == Elements(groups) + {k}
  {
    var at := 0;
    while at < |groups| && groups[at] < k
      invariant at <= |groups|
      invariant forall i | 0 <= i < at :: groups[i] < k
    {
      at := at + 1;
    }
    Inserted(groups[..at], k, groups[at..]);
    assert groups == groups[..at] + groups[at..];
    r := groups[..at] + [k] + groups[at..];
  }

  lemma Inserted(lo: seq<Gid>, k: Gid, hi: seq<Gid>)
    requires Increasing(lo + hi) && (forall i | 0 <= i < |lo| :: lo[i] < k) && (hi != [] ==> k < hi[0])
    ensures Increasing(lo + [k] + hi) && Elements(lo + [k] + hi) == Elements(lo + hi) + {k}
  {
    IncreasingHalves(lo, hi);
    forall i | 0 <= i < |hi| ensures k < hi[i] {
      assert i > 0 ==> hi[0] < hi[i];
    }
    ElementsConcat(lo, hi);
    ElementsConcat(lo, [k]);
    ElementsConcat(lo + [k], hi);
  }

  lemma IncreasingHalves(lo: seq<Gid>, hi: seq<Gid>)
    requires Increasing(lo + hi)
    ensures Increasing(lo) && Increasing(hi)
    ensures forall i, j | 0 <= i < |lo| && 0 <= j < |hi| :: lo[i] < hi[j]
  {
    var all := lo + hi;
    assert forall i | 0 <= i < |lo| :: lo[i] == all[i];
    assert forall j | 0 <= j < |hi| :: hi[j] == all[|lo| + j];
  }

  // The state of the second loop on its way to a goal.
  ghost predicate Leveling(a0: seq<Gid>, a: seq<Gid>, groups: set<Gid>, goal: seq<Gid>)
    requires groups != {}
  {
    Fair(a0, a, groups) && Valid(a, groups) && Level(a0, a, groups) == goal
  }

  lemma LevelingStep(a0: seq<Gid>, a: seq<Gid>, groups: set<Gid>, goal: seq<Gid>)
    requires groups != {} && Leveling(a0, a, groups, goal) && Uneven(a, groups)
    ensures Most(a, groups) in a
    ensures var b := a[FirstShard(a, Most(a, groups)) := Least(a, groups)];
            Leveling(a0, b, groups, goal) && Unmoved(a0, b) < Unmoved(a0, a)
  {
    LoadPositive(a, Most(a, groups));
    LevelStep(a0, a, groups);
    MoveLeavesFewerUnmoved(a0, a, groups);
  }

  function Tally(counts: map<Gid, nat>, g: Gid): nat {
    if g in counts then counts[g] else 0
  }

  lemma {:induction false} LoadBound(a: seq<Gid>, g: Gid)
    ensures Load(a, g) <= |a|
    decreases |a|
  {
    if a != [] {
      LoadBound(a[..|a| - 1], g);
    }
  }

  // What CheckConfig demands of a configuration for an expected list of groups.
  ghost predicate Accepts(c: Config, groups: seq<Gid>) {
    && |c.groups| == |groups|
    && (forall i | 0 <= i < |groups| :: groups[i] in c.groups)
    && (groups != [] ==> Valid(c.shards, c.groups.Keys))
    && Balanced(c.shards, c.groups.Keys)
  }

  /** Runs of successful operations. */
  datatype Op = JoinOp(servers: map<Gid, seq<Server>>) | LeaveOp(gids: seq<Gid>)

  ghost predicate Allowed(c: Config, op: Op) {
    match op
    case JoinOp(servers) => Joinable(c.groups, servers)
    case LeaveOp(gids) => Leavable(c.groups, gids)
  }

  ghost function Perform(c: Config, op: Op): Config {
    match op
    case JoinOp(servers) => Balance(Joined(c, servers))
    case LeaveOp(gids) => Balance(Left(c, gids))
  }

  ghost function Initial(shardCount: nat): Config {
    Config(0, seq(shardCount, s => 0), map[])
  }

  ghost predicate IsRun(run: seq<Config>, ops: seq<Op>, shardCount: nat) {
    && |run| == |ops| + 1
    && run[0] == Initial(shardCount)
    && forall i | 0 <= i < |ops| :: Allowed(run[i], ops[i]) && run[i + 1] == Perform(run[i], ops[i])
  }

  ghost predicate Good(c: Config) {
    && (if c.groups == map[] then forall s | 0 <= s < |c.shards| :: c.shards[s] == 0
        else Valid(c.shards, c.groups.Keys))
    && Balanced(c.shards, c.groups.Keys)
    && ServersDisjoint(c.groups)
  }

  lemma BalanceIsGood(c: Config)
    requires ServersDisjoint(c.groups)
    ensures Good(Balance(c))
  {
    if c.groups != map[] {
      assert c.groups.Keys != {};
      RebalanceCorrect(c.shards, c.groups.Keys);
    }
  }

  /** After any sequence of successful joins and leaves every shard belongs to a current group (or to 0
      when there are none), loads differ by at most one, no server is in two groups, and the
      configuration number is the number of operations. */
  lemma {:induction false} RunIsGood(run: seq<Config>, ops: seq<Op>, shardCount: nat)
    requires IsRun(run, ops, shardCount)
    ensures Good(run[|ops|]) && run[|ops|].num == |ops| && |run[|ops|].shards| == shardCount
    decreases |ops|
  {
    if |ops| > 0 {
      var n := |ops| - 1;
      RunIsGood(run[..|ops|], ops[..n], shardCount);
      var c := run[n];
      match ops[n] {
        case JoinOp(servers) =>
          forall g, h | g in c.groups && h in servers ensures !Shares(servers[h], c.groups[g]) {
            SharesSymmetric(servers[h], c.groups[g]);
          }
          BalanceIsGood(Joined(c, servers));
        case LeaveOp(gids) =>
          BalanceIsGood(Left(c, gids));
      }
    }
  }

  // The tests' checker accepts every reachable configuration when it is given the current groups.
  lemma RunPassesCheck(run: seq<Config>, ops: seq<Op>, shardCount: nat, groups: seq<Gid>)
    requires IsRun(run, ops, shardCount)
    requires forall g :: g in groups <==> g in run[|ops|].groups
    requires forall i, j | 0 <= i < j < |groups| :: groups[i] != groups[j]
    ensures Accepts(run[|ops|], groups)
  {
    RunIsGood(run, ops, shardCount);
    DistinctCount(groups);
    assert (set g | g in groups) == run[|ops|].groups.Keys;
    if groups != [] {
      assert groups[0] in run[|ops|].groups;
    }
  }

  lemma {:induction false} DistinctCount(groups: seq<Gid>)
    requires forall i, j | 0 <= i < j < |groups| :: groups[i] != groups[j]
    ensures |set g | g in groups| == |groups|
    decreases |groups|
  {
    if groups == [] {
      assert (set g | g in groups) == {};
    } else {
      var n := |groups| - 1;
      DistinctCount(groups[..n]);
      assert groups == groups[..n] + [groups[n]];
      assert (set g | g in groups) == (set g | g in groups[..n]) + {groups[n]};
    }
  }

  /** Joining some groups and then removing the same groups leaves every shard they did not hold in
      between where it was. */
  lemma JoinThenLeave(c: Config, servers: map<Gid, seq<Server>>, gids: seq<Gid>, s: nat)
    requires Good(c) && c.groups != map[] && Joinable(c.groups, servers)
    requires (set g | g in gids) == servers.Keys
    requires s < |c.shards|
    ensures var mid := Balance(Joined(c, servers));
            var end := Balance(Left(mid, gids));
            end.groups == c.groups && (mid.shards[s] !in servers ==> end.shards[s] == c.shards[s])
  {
    var mid := Balance(Joined(c, servers));
    var all := c.groups.Keys + servers.Keys;
    assert mid.groups.Keys == all;
    RebalanceCorrect(c.shards, all);
    assert Balance(Left(mid, gids)).groups == c.groups;
    assert all - servers.Keys == c.groups.Keys;
    assert c.groups.Keys != {};
    LeaveLocality(mid.shards, all, servers.Keys, s);
    if mid.shards[s] != c.shards[s] {
      JoinLocality(c.shards, c.groups.Keys, servers.Keys, s);
    }
  }
}
