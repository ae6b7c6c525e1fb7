/** Group loads of a shard assignment: how many shards each group serves, which group is least and
    which is most loaded, and the counting arguments the minimality theorem rests on. */
module ShardLoads {
  import opened Choice

  type Gid = int

  // The number of shards that assignment a gives to group g.
  ghost function Load(a: seq<Gid>, g: Gid): nat {
    if a == [] then 0 else Load(a[..|a| - 1], g) + if a[|a| - 1] == g then 1 else 0
  }

  // Every shard is served by a group of the set.
  ghost predicate Valid(a: seq<Gid>, groups: set<Gid>) {
    forall s | 0 <= s < |a| :: a[s] in groups
  }

  // Loads of any two groups differ by at most one.
  ghost predicate Balanced(a: seq<Gid>, groups: set<Gid>) {
    forall g, h | g in groups && h in groups :: Load(a, g) <= Load(a, h) + 1
  }

  // The smallest group id among the least loaded groups.
  ghost predicate IsLeast(a: seq<Gid>, groups: set<Gid>, g: Gid) {
    && g in groups
    && forall h | h in groups :: Load(a, g) < Load(a, h) || (Load(a, g) == Load(a, h) && g <= h)
  }

  // The smallest group id among the most loaded groups.
  ghost predicate IsMost(a: seq<Gid>, groups: set<Gid>, g: Gid) {
    && g in groups
    && forall h | h in groups :: Load(a, h) < Load(a, g) || (Load(a, g) == Load(a, h) && g <= h)
  }

  lemma {:induction false} LeastExists(a: seq<Gid>, groups: set<Gid>)
    requires groups != {}
    ensures exists g :: IsLeast(a, groups, g)
    decreases groups
  {
    var x := Pick(groups);
    var rest := groups - {x};
    if rest == {} {
      assert groups == {x};
      assert IsLeast(a, groups, x);
    } else {
      LeastExists(a, rest);
      var g :| IsLeast(a, rest, g);
      var least := if Load(a, x) < Load(a, g) || (Load(a, x) == Load(a, g) && x <= g) then x else g;
      assert forall h | h in groups :: h == x || h in rest;
      assert IsLeast(a, groups, least);
    }
  }

  lemma {:induction false} MostExists(a: seq<Gid>, groups: set<Gid>)
    requires groups != {}
    ensures exists g :: IsMost(a, groups, g)
    decreases groups
  {
    var x := Pick(groups);
    var rest := groups - {x};
    if rest == {} {
      assert groups == {x};
      assert IsMost(a, groups, x);
    } else {
      MostExists(a, rest);
      var g :| IsMost(a, rest, g);
      var most := if Load(a, g) < Load(a, x) || (Load(a, x) == Load(a, g) && x <= g) then x else g;
      assert forall h | h in groups :: h == x || h in rest;
      assert IsMost(a, groups, most);
    }
  }

  // The source calls this group lg; the tie rule makes it unique.
  ghost function Least(a: seq<Gid>, groups: set<Gid>): (g: Gid)
    requires groups != {}
    ensures IsLeast(a, groups, g)
  {
    LeastExists(a, groups);
    var g :| IsLeast(a, groups, g);
    g
  }

  // The source calls this group mg; the tie rule makes it unique.
  ghost function Most(a: seq<Gid>, groups: set<Gid>): (g: Gid)
    requires groups != {}
    ensures IsMost(a, groups, g)
  {
    MostExists(a, groups);
    var g :| IsMost(a, groups, g);
    g
  }

  // The lowest shard that group g serves.
  ghost function FirstShard(a: seq<Gid>, g: Gid): (s: nat)
    requires g in a
    ensures s < |a| && a[s] == g && g !in a[..s]
  {
    if a[0] == g then 0 else FirstShard(a[1..], g) + 1
  }

  lemma {:induction false} LoadOfUpdate(a: seq<Gid>, s: nat, g: Gid, h: Gid)
    requires s < |a|
    ensures Load(a[s := g], h) + (if a[s] == h then 1 else 0) == Load(a, h) + (if g == h then 1 else 0)
    decreases |a|
  {
    var n := |a| - 1;
    if s == n {
      assert a[s := g][..n] == a[..n];
    } else {
      LoadOfUpdate(a[..n], s, g, h);
      assert a[s := g][..n] == a[..n][s := g];
    }
  }

  // Moving one shard changes exactly two loads.
  lemma LoadAfterMove(a: seq<Gid>, s: nat, g: Gid)
    requires s < |a| && a[s] != g
    ensures Load(a[s := g], g) == Load(a, g) + 1
    ensures Load(a[s := g], a[s]) == Load(a, a[s]) - 1
    ensures forall h | h != g && h != a[s] :: Load(a[s := g], h) == Load(a, h)
  {
    forall h
      ensures Load(a[s := g], h) + (if a[s] == h then 1 else 0) == Load(a, h) + (if g == h then 1 else 0)
    {
      LoadOfUpdate(a, s, g, h);
    }
  }

  lemma {:induction false} LoadPositive(a: seq<Gid>, g: Gid)
    ensures g in a <==> Load(a, g) > 0
    decreases |a|
  {
    if a != [] {
      var n := |a| - 1;
      LoadPositive(a[..n], g);
      assert a == a[..n] + [a[n]];
    }
  }

  // The shards on which two assignments agree, restricted to the owners in a set of groups.
  ghost function Kept(a: seq<Gid>, b: seq<Gid>, groups: set<Gid>): set<nat>
    requires |a| == |b|
  {
    set s: nat | s < |a| && a[s] == b[s] && a[s] in groups
  }

  // The shards on which two assignments differ.
  ghost function Moved(a: seq<Gid>, b: seq<Gid>): set<nat>
    requires |a| == |b|
  {
    set s: nat | s < |a| && a[s] != b[s]
  }

  // The shards that assignment a gives to group g, counted one by one.
  ghost function Owned(a: seq<Gid>, g: Gid): set<nat> {
    set s: nat | s < |a| && a[s] == g
  }

  lemma {:induction false} OwnedCount(a: seq<Gid>, g: Gid)
    ensures |Owned(a, g)| == Load(a, g)
    decreases |a|
  {
    if a == [] {
      assert Owned(a, g) == {};
    } else {
      var n := |a| - 1;
      var front := a[..n];
      OwnedCount(front, g);
      assert a == front + [a[n]];
      assert Owned(a, g) == Owned(front, g) + if a[n] == g then {n} else {};
    }
  }

  // The groups of a set that serve more than q shards.
  ghost function Above(a: seq<Gid>, groups: set<Gid>, q: nat): set<Gid> {
    set g | g in groups && Load(a, g) > q
  }

  // The shards that assignment a gives to the groups of a set.
  ghost function Served(a: seq<Gid>, groups: set<Gid>): set<nat> {
    set s: nat | s < |a| && a[s] in groups
  }

  ghost predicate LoadsAt(a: seq<Gid>, groups: set<Gid>, q: nat) {
    forall g | g in groups :: Load(a, g) == q || Load(a, g) == q + 1
  }

  lemma ServedSplit(a: seq<Gid>, groups: set<Gid>, g: Gid)
    requires g in groups
    ensures |Served(a, groups)| == |Served(a, groups - {g})| + Load(a, g)
  {
    OwnedCount(a, g);
    assert Served(a, groups) == Served(a, groups - {g}) + Owned(a, g);
    assert Served(a, groups - {g}) !! Owned(a, g);
  }

  lemma AboveSplit(a: seq<Gid>, groups: set<Gid>, g: Gid, q: nat)
    requires g in groups
    ensures Above(a, groups, q) == Above(a, groups - {g}, q) + if Load(a, g) > q then {g} else {}
    ensures g !in Above(a, groups - {g}, q)
  {
  }

  lemma AboveCount(a: seq<Gid>, groups: set<Gid>, g: Gid, q: nat)
    requires g in groups
    ensures |Above(a, groups, q)| == |Above(a, groups - {g}, q)| + if Load(a, g) > q then 1 else 0
  {
    AboveSplit(a, groups, g, q);
  }

  lemma {:induction false} ServedCount(a: seq<Gid>, groups: set<Gid>, q: nat)
    requires LoadsAt(a, groups, q)
    ensures |Served(a, groups)| == q * |groups| + |Above(a, groups, q)|
    decreases groups
  {
    if groups == {} {
      assert Served(a, groups) == {} && Above(a, groups, q) == {};
    } else {
      var g := Pick(groups);
      var rest := groups - {g};
      ServedCount(a, rest, q);
      ServedSplit(a, groups, g);
      AboveCount(a, groups, g, q);
      assert |groups| == |rest| + 1;
      assert q * (|rest| + 1) == q * |rest| + q;
      assert Load(a, g) == q || Load(a, g) == q + 1;
    }
  }

  lemma {:induction false} ServedAll(a: seq<Gid>, groups: set<Gid>)
    requires Valid(a, groups)
    ensures |Served(a, groups)| == |a|
    decreases |a|
  {
    if a == [] {
      assert Served(a, groups) == {};
    } else {
      var n := |a| - 1;
      ServedAll(a[..n], groups);
      assert Served(a, groups) == Served(a[..n], groups) + {n};
    }
  }

  lemma QuotientOrder(n: nat, q1: nat, r1: nat, q2: nat)
    requires r1 < n && q1 < q2
    ensures q1 * n + r1 < q2 * n
  {
    var d := q2 - q1;
    assert q2 * n == (q1 + d) * n == q1 * n + d * n;
    assert d * n == (d - 1) * n + n;
    assert (d - 1) * n >= 0;
  }

  lemma QuotientUnique(n: nat, q1: nat, r1: nat, q2: nat, r2: nat)
    requires q1 * n + r1 == q2 * n + r2 && r1 < n && r2 < n
    ensures q1 == q2
  {
    if q1 < q2 {
      QuotientOrder(n, q1, r1, q2);
    } else if q2 < q1 {
      QuotientOrder(n, q2, r2, q1);
    }
  }

  // A valid balanced assignment has all loads at q and q + 1, with at least one at q.
  lemma BalancedLevel(a: seq<Gid>, groups: set<Gid>) returns (q: nat)
    requires groups != {} && Valid(a, groups) && Balanced(a, groups)
    ensures LoadsAt(a, groups, q)
    ensures |Above(a, groups, q)| < |groups|
    ensures |a| == q * |groups| + |Above(a, groups, q)|
  {
    var g := Least(a, groups);
    q := Load(a, g);
    ServedCount(a, groups, q);
    ServedAll(a, groups);
    assert g !in Above(a, groups, q);
    SubsetCount(Above(a, groups, q), groups - {g});
  }

  // The level, and the number of groups above it, are the same for all balanced assignments.
  lemma SameLevel(a: seq<Gid>, b: seq<Gid>, groups: set<Gid>) returns (q: nat)
    requires |a| == |b| && groups != {}
    requires Valid(a, groups) && Balanced(a, groups)
    requires Valid(b, groups) && Balanced(b, groups)
    ensures LoadsAt(a, groups, q) && LoadsAt(b, groups, q)
    ensures |Above(a, groups, q)| == |Above(b, groups, q)|
  {
    q := BalancedLevel(a, groups);
    var p := BalancedLevel(b, groups);
    QuotientUnique(|groups|, q, |Above(a, groups, q)|, p, |Above(b, groups, p)|);
  }
}
