/** Key/value pairs, the order the sorts use, and grouping: one reduce call for each distinct key, with
    exactly that key's values. */
module KeyValues {

  import opened Choice
  import opened Texts

  datatype KeyValue = KeyValue(key: Text, value: Text)

  ghost predicate Sorted(s: seq<KeyValue>) {
    forall i, j | 0 <= i < j < |s| :: !Less(s[j].key, s[i].key)
  }

  // Any sorted rearrangement: the sort is not stable, and nothing below assumes it is.
  ghost predicate SortOf(r: seq<KeyValue>, s: seq<KeyValue>) {
    Sorted(r) && multiset(r) == multiset(s)
  }

  lemma InsertKeepsSorted(s: seq<KeyValue>, at: nat, kv: KeyValue)
    requires Sorted(s) && at <= |s|
    requires forall i | 0 <= i < at :: !Less(kv.key, s[i].key)
    requires at < |s| ==> Less(kv.key, s[at].key)
    ensures Sorted(s[..at] + [kv] + s[at..])
  {
    var r := s[..at] + [kv] + s[at..];
    forall i, j | 0 <= i < j < |r| ensures !Less(r[j].key, r[i].key) {
      if j == at {
        assert r[i] == s[i];
      } else if i == at {
        LessIsTotal(s[at].key, s[at].key);
        LessOrEqual(kv.key, s[at].key, s[j - 1].key);
      } else {
        assert r[i] == s[if i < at then i else i - 1] && r[j] == s[if j < at then j else j - 1];
      }
    }
  }

  lemma LessOrEqual(a: Text, b: Text, c: Text)
    requires Less(a, b) && !Less(c, b)
    ensures !Less(c, a)
  {
    LessIsTotal(b, c);
    LessIsTotal(a, c);
    if Less(b, c) {
      LessIsTransitive(a, b, c);
    }
  }

  lemma InsertKeepsSortOf(r: seq<KeyValue>, s: seq<KeyValue>, at: nat, kv: KeyValue)
    requires SortOf(r, s) && at <= |r|
    requires forall i | 0 <= i < at :: !Less(kv.key, r[i].key)
    requires at < |r| ==> Less(kv.key, r[at].key)
    ensures SortOf(r[..at] + [kv] + r[at..], s + [kv])
  {
    InsertKeepsSorted(r, at, kv);
    assert r == r[..at] + r[at..];
    assert multiset(r[..at] + [kv] + r[at..]) == multiset(r) + multiset{kv};
  }

  // Callers know only that the result is a sorted rearrangement.
  method Sort(s: seq<KeyValue>) returns (r: seq<KeyValue>)
    ensures SortOf(r, s)
  {
    r := [];
    for i := 0 to |s|
      invariant SortOf(r, s[..i])
    {
      var at := 0;
      while at < |r| && !Less(s[i].key, r[at].key)
        invariant at <= |r| && forall k | 0 <= k < at :: !Less(s[i].key, r[k].key)
      {
        at := at + 1;
      }
      InsertKeepsSortOf(r, s[..i], at, s[i]);
      r := r[..at] + [s[i]] + r[at..];
      assert s[..i + 1] == s[..i] + [s[i]];
    }
    assert s[..|s|] == s;
  }

  /** Grouping. */

  datatype Line = Line(key: Text, output: Text)

  type Reducer = (Text, seq<Text>) -> Text

  // The result does not depend on the order of the values.
  ghost predicate OrderInsensitive(reducef: Reducer) {
    forall k, vs, ws | multiset(vs) == multiset(ws) :: reducef(k, vs) == reducef(k, ws)
  }

  // The values of a key, in the order in which they occur.
  ghost function ValuesOf(s: seq<KeyValue>, k: Text): seq<Text> {
    if s == [] then []
    else ValuesOf(s[..|s| - 1], k) + if s[|s| - 1].key == k then [s[|s| - 1].value] else []
  }

  ghost function Keys(s: seq<KeyValue>): set<Text> {
    set kv | kv in s :: kv.key
  }

  // One line for each key, in increasing order of keys, each from one call of reducef on the key's values.
  ghost predicate Reduction(lines: seq<Line>, s: seq<KeyValue>, reducef: Reducer) {
    && (forall i, j | 0 <= i < j < |lines| :: Less(lines[i].key, lines[j].key))
    && (forall i | 0 <= i < |lines| :: lines[i].key in Keys(s) && lines[i].output == reducef(lines[i].key, ValuesOf(s, lines[i].key)))
    && (forall k | k in Keys(s) :: exists i :: 0 <= i < |lines| && lines[i].key == k)
  }

  lemma {:induction false} ValuesOfConcat(a: seq<KeyValue>, b: seq<KeyValue>, k: Text)
    ensures ValuesOf(a + b, k) == ValuesOf(a, k) + ValuesOf(b, k)
    decreases |b|
  {
    if b == [] {
      assert a + b == a;
    } else {
      ValuesOfConcat(a, b[..|b| - 1], k);
      assert (a + b)[..|a + b| - 1] == a + b[..|b| - 1];
    }
  }

  lemma {:induction false} NoValues(s: seq<KeyValue>, k: Text)
    ensures k in Keys(s) <==> ValuesOf(s, k) != []
    decreases |s|
  {
    if s != [] {
      var n := |s| - 1;
      NoValues(s[..n], k);
      assert s == s[..n] + [s[n]];
    }
  }

  // The values of one group, collected by the inner loop.
  lemma {:induction false} ValuesOfGroup(s: seq<KeyValue>, k: Text)
    requires forall i | 0 <= i < |s| :: s[i].key == k
    ensures |ValuesOf(s, k)| == |s| && forall i | 0 <= i < |s| :: ValuesOf(s, k)[i] == s[i].value
    ensures forall h | h != k :: ValuesOf(s, h) == []
    decreases |s|
  {
    if s != [] {
      ValuesOfGroup(s[..|s| - 1], k);
    }
  }

  lemma KeysConcat(a: seq<KeyValue>, b: seq<KeyValue>)
    ensures Keys(a + b) == Keys(a) + Keys(b)
  {
    forall k | k in Keys(a) + Keys(b) ensures k in Keys(a + b) {
      if k in Keys(a) {
        var kv :| kv in a && kv.key == k;
        assert kv in a + b;
      } else {
        var kv :| kv in b && kv.key == k;
        assert kv in a + b;
      }
    }
  }

  // The next group has a key of its own, and takes no values from the others.
  lemma GroupValues(front: seq<KeyValue>, group: seq<KeyValue>, k: Text, h: Text)
    requires k !in Keys(front) && forall i | 0 <= i < |group| :: group[i].key == k
    ensures ValuesOf(front + group, h) == if h == k then ValuesOf(group, k) else ValuesOf(front, h)
  {
    ValuesOfGroup(group, k);
    ValuesOfConcat(front, group, h);
    NoValues(front, k);
  }

  lemma GroupKeys(front: seq<KeyValue>, group: seq<KeyValue>, k: Text)
    requires group != [] && forall i | 0 <= i < |group| :: group[i].key == k
    ensures Keys(front + group) == Keys(front) + {k}
  {
    KeysConcat(front, group);
    assert group[0] in group;
  }

  // Adding the next group adds one line.
  lemma {:induction false} GroupAdds(lines: seq<Line>, front: seq<KeyValue>, group: seq<KeyValue>, k: Text, reducef: Reducer)
    requires Reduction(lines, front, reducef) && group != []
    requires forall i | 0 <= i < |group| :: group[i].key == k
    requires forall h | h in Keys(front) :: Less(h, k)
    ensures Reduction(lines + [Line(k, reducef(k, ValuesOf(group, k)))], front + group, reducef)
  {
    var more := lines + [Line(k, reducef(k, ValuesOf(group, k)))];
    GroupKeys(front, group, k);
    LessIsTotal(k, k);
    forall i | 0 <= i < |more|
      ensures more[i].key in Keys(front + group) && more[i].output == reducef(more[i].key, ValuesOf(front + group, more[i].key))
    {
      GroupValues(front, group, k, more[i].key);
    }
    forall h | h in Keys(front + group) ensures exists i :: 0 <= i < |more| && more[i].key == h {
      if h == k {
        assert more[|lines|].key == k;
      } else {
        var i :| 0 <= i < |lines| && lines[i].key == h;
        assert more[i].key == h;
      }
    }
  }

  // The lines cover the first i pairs, and the next pair begins a new group.
  ghost predicate Grouped(lines: seq<Line>, s: seq<KeyValue>, i: nat, reducef: Reducer)
    requires i <= |s|
  {
    Reduction(lines, s[..i], reducef) && (i < |s| ==> forall h | h in Keys(s[..i]) :: Less(h, s[i].key))
  }

  lemma GroupStep(lines: seq<Line>, s: seq<KeyValue>, i: nat, j: nat, reducef: Reducer)
    requires Sorted(s) && i < j <= |s| && Grouped(lines, s, i, reducef)
    requires forall k | i <= k < j :: s[k].key == s[i].key
    requires j < |s| ==> s[i].key != s[j].key
    ensures Grouped(lines + [Line(s[i].key, reducef(s[i].key, ValuesOf(s[i..j], s[i].key)))], s, j, reducef)
  {
    GroupAdds(lines, s[..i], s[i..j], s[i].key, reducef);
    assert s[..i] + s[i..j] == s[..j];
    if j < |s| {
      NextGroupIsLater(s, i, j);
    }
  }

  lemma OneMoreValue(s: seq<KeyValue>, i: nat, k: nat)
    requires i <= k < |s|
    ensures ValuesOf(s[i..k + 1], s[k].key) == ValuesOf(s[i..k], s[k].key) + [s[k].value]
  {
    assert s[i..k + 1][..k - i] == s[i..k];
  }

  // The loop over groups, which the sequential program and the reduce tasks share.
  method GroupAndReduce(s: seq<KeyValue>, reducef: Reducer) returns (lines: seq<Line>)
    requires Sorted(s)
    ensures Reduction(lines, s, reducef)
  {
    lines := [];
    var i := 0;
    assert s[..0] == [] && Keys([]) == {};
    while i < |s|
      invariant i <= |s| && Grouped(lines, s, i, reducef)
    {
      var key := s[i].key;
      var j := i + 1;
      while j < |s| && s[i].key == s[j].key
        invariant i < j <= |s| && forall k | i <= k < j :: s[k].key == key
      {
        j := j + 1;
      }
      var values := [];
      for k := i to j
        invariant values == ValuesOf(s[i..k], key)
      {
        OneMoreValue(s, i, k);
        values := values + [s[k].value];
      }
      GroupStep(lines, s, i, j, reducef);
      lines := lines + [Line(key, reducef(key, values))];
      i := j;
    }
    assert s[..i] == s;
  }

  lemma NextGroupIsLater(s: seq<KeyValue>, i: nat, j: nat)
    requires Sorted(s) && i < j < |s| && s[i].key != s[j].key
    requires forall k | i <= k < j :: s[k].key == s[i].key
    requires forall h | h in Keys(s[..i]) :: Less(h, s[i].key)
    ensures forall h | h in Keys(s[..j]) :: Less(h, s[j].key)
  {
    LessIsTotal(s[i].key, s[j].key);
    forall h | h in Keys(s[..j]) ensures Less(h, s[j].key) {
      var kv :| kv in s[..j] && kv.key == h;
      var k :| 0 <= k < j && s[k] == kv;
      if k < i {
        assert s[..i][k] == kv;
        LessIsTransitive(h, s[i].key, s[j].key);
      }
    }
  }

  /** Rearrangements. */

  lemma {:induction false} ValuesCount(s: seq<KeyValue>, k: Text, v: Text)
    ensures multiset(ValuesOf(s, k))[v] == multiset(s)[KeyValue(k, v)]
    decreases |s|
  {
    if s != [] {
      var n := |s| - 1;
      ValuesCount(s[..n], k, v);
      assert s == s[..n] + [s[n]];
      CountLast(s[..n], s[n], KeyValue(k, v));
      CountLast(ValuesOf(s[..n], k), s[n].value, v);
    }
  }

  // A rearrangement has the same keys, each with the same values in some order.
  lemma SameGroups(s: seq<KeyValue>, t: seq<KeyValue>, k: Text)
    requires multiset(s) == multiset(t)
    ensures multiset(ValuesOf(s, k)) == multiset(ValuesOf(t, k))
    ensures k in Keys(s) <==> k in Keys(t)
  {
    forall v ensures multiset(ValuesOf(s, k))[v] == multiset(ValuesOf(t, k))[v] {
      ValuesCount(s, k, v);
      ValuesCount(t, k, v);
    }
    NoValues(s, k);
    NoValues(t, k);
    assert multiset(ValuesOf(s, k)) == multiset(ValuesOf(t, k));
    assert |multiset(ValuesOf(s, k))| == |ValuesOf(s, k)| && |multiset(ValuesOf(t, k))| == |ValuesOf(t, k)|;
  }

  lemma ReductionOfRearrangement(lines: seq<Line>, s: seq<KeyValue>, t: seq<KeyValue>, reducef: Reducer)
    requires Reduction(lines, s, reducef) && multiset(s) == multiset(t) && OrderInsensitive(reducef)
    ensures Reduction(lines, t, reducef)
  {
    forall k ensures (k in Keys(s) <==> k in Keys(t)) && reducef(k, ValuesOf(s, k)) == reducef(k, ValuesOf(t, k)) {
      SameGroups(s, t, k);
    }
  }

  // How often a line occurs in a reduction: once if it is its key's line, and otherwise not at all.
  lemma LineCount(lines: seq<Line>, s: seq<KeyValue>, reducef: Reducer, x: Line)
    requires Reduction(lines, s, reducef)
    ensures multiset(lines)[x] == if x.key in Keys(s) && x.output == reducef(x.key, ValuesOf(s, x.key)) then 1 else 0
  {
    OccursOnce(lines, x);
    if x.key in Keys(s) && x.output == reducef(x.key, ValuesOf(s, x.key)) {
      var i :| 0 <= i < |lines| && lines[i].key == x.key;
      assert lines[i] == x;
    } else {
      assert x !in lines;
    }
  }

  lemma {:induction false} OccursOnce(lines: seq<Line>, x: Line)
    requires forall i, j | 0 <= i < j < |lines| :: Less(lines[i].key, lines[j].key)
    ensures multiset(lines)[x] == if x in lines then 1 else 0
    decreases |lines|
  {
    if lines != [] {
      var n := |lines| - 1;
      OccursOnce(lines[..n], x);
      assert lines == lines[..n] + [lines[n]];
      assert multiset(lines) == multiset(lines[..n]) + multiset{lines[n]};
      if lines[n] == x {
        LessIsTotal(x.key, x.key);
        assert x !in lines[..n];
      }
    }
  }
}
