/** Checking a history key by key: the partition of a history, and why accepting every part means that the
    server is linearizable. */
module KvPartition {
  import opened Choice
  import opened KvModel
  import opened KvServer
  import opened Linearizability
  import opened Texts

  datatype Operation = Operation(input: Input, output: Output)

  // The operations on one key, in order.
  function OnKey(history: seq<Operation>, key: Key): seq<Operation> {
    if history == [] then []
    else
      var last := history[|history| - 1];
      OnKey(history[..|history| - 1], key) + if last.input.key == key then [last] else []
  }

  ghost predicate Ascending(keys: seq<Key>) {
    forall i, j | 0 <= i < j < |keys| :: Less(keys[i], keys[j])
  }

  method InsertKey(keys: seq<Key>, key: Key) returns (r: seq<Key>)
    requires Ascending(keys) && key !in Elements(keys)
    ensures Ascending(r) && Elements(r) == Elements(keys) + {key}
  {
    var at := 0;
    while at < |keys| && Less(keys[at], key)
      invariant at <= |keys| && forall i | 0 <= i < at :: Less(keys[i], key)
    {
      at := at + 1;
    }
    if at < |keys| {
      assert keys[at] in Elements(keys);
      LessIsTotal(key, keys[at]);
    }
    assert keys == keys[..at] + keys[at..];
    KeyInserted(keys[..at], key, keys[at..]);
    r := keys[..at] + [key] + keys[at..];
  }

  lemma KeyInserted(lo: seq<Key>, key: Key, hi: seq<Key>)
    requires Ascending(lo + hi) && (forall i | 0 <= i < |lo| :: Less(lo[i], key)) && (hi != [] ==> Less(key, hi[0]))
    ensures Ascending(lo + [key] + hi) && Elements(lo + [key] + hi) == Elements(lo + hi) + {key}
  {
    AscendingHalves(lo, hi);
    forall i | 0 <= i < |hi| ensures Less(key, hi[i]) {
      if i > 0 {
        LessIsTransitive(key, hi[0], hi[i]);
      }
    }
    ElementsConcat(lo, hi);
    ElementsConcat(lo, [key]);
    ElementsConcat(lo + [key], hi);
  }

  lemma AscendingHalves(lo: seq<Key>, hi: seq<Key>)
    requires Ascending(lo + hi)
    ensures Ascending(lo) && Ascending(hi)
    ensures forall i, j | 0 <= i < |lo| && 0 <= j < |hi| :: Less(lo[i], hi[j])
  {
    var all := lo + hi;
    assert forall i | 0 <= i < |lo| :: lo[i] == all[i];
    assert forall j | 0 <= j < |hi| :: hi[j] == all[|lo| + j];
  }

  ghost predicate IsGrouping(m: map<Key, seq<Operation>>, history: seq<Operation>) {
    && (forall key | key in m :: m[key] == OnKey(history, key) && m[key] != [])
    && (forall i | 0 <= i < |history| :: history[i].input.key in m)
  }

  method GroupByKey(history: seq<Operation>) returns (m: map<Key, seq<Operation>>)
    ensures IsGrouping(m, history)
  {
    m := map[];
    for i := 0 to |history|
      invariant IsGrouping(m, history[..i])
    {
      var v := history[i];
      GroupingGrows(m, history[..i], v);
      m := m[v.input.key := (if v.input.key in m then m[v.input.key] else []) + [v]];
      assert history[..i + 1] == history[..i] + [v];
    }
    assert history[..|history|] == history;
  }

  method SortKeys(all: set<Key>) returns (keys: seq<Key>)
    ensures Ascending(keys) && Elements(keys) == all
  {
    keys := [];
    var rest := all;
    while rest != {}
      invariant Elements(keys) + rest == all && Elements(keys) !! rest && Ascending(keys)
      decreases rest
    {
      var k := TakeAny(rest);
      rest := rest - {k};
      keys := InsertKey(keys, k);
    }
  }

  ghost predicate InSomePart(op: Operation, parts: seq<seq<Operation>>) {
    exists i :: 0 <= i < |parts| && op in parts[i]
  }

  // A part is all operations on the key of its first, in their order. Each operation is in a part, and the
  // parts ascend by their keys.
  method Partition(history: seq<Operation>) returns (parts: seq<seq<Operation>>)
    ensures forall i | 0 <= i < |parts| :: parts[i] != [] && parts[i] == OnKey(history, parts[i][0].input.key)
    ensures forall i, j | 0 <= i < j < |parts| :: Less(parts[i][0].input.key, parts[j][0].input.key)
    ensures forall k | 0 <= k < |history| :: InSomePart(history[k], parts)
  {
    var m := GroupByKey(history);
    var keys := SortKeys(m.Keys);
    parts := [];
    assert forall i | 0 <= i < |keys| :: keys[i] in Elements(keys);
    for i := 0 to |keys|
      invariant |parts| == i && forall j | 0 <= j < i :: parts[j] == m[keys[j]]
    {
      parts := parts + [m[keys[i]]];
    }
    PartsBegin(history, keys, parts);
    PartsCover(history, keys, parts);
  }

  lemma PartsBegin(history: seq<Operation>, keys: seq<Key>, parts: seq<seq<Operation>>)
    requires |parts| == |keys| && forall i | 0 <= i < |keys| :: parts[i] == OnKey(history, keys[i]) && parts[i] != []
    ensures forall i | 0 <= i < |parts| :: parts[i][0].input.key == keys[i]
  {
    forall i | 0 <= i < |parts| ensures parts[i][0].input.key == keys[i] {
      OnlyThatKey(history, keys[i]);
    }
  }

  lemma {:induction false} PartsCover(history: seq<Operation>, keys: seq<Key>, parts: seq<seq<Operation>>)
    requires |parts| == |keys| && forall i | 0 <= i < |keys| :: parts[i] == OnKey(history, keys[i])
    requires forall k | 0 <= k < |history| :: history[k].input.key in Elements(keys)
    ensures forall k | 0 <= k < |history| :: InSomePart(history[k], parts)
  {
    forall k | 0 <= k < |history| ensures InSomePart(history[k], parts) {
      var i :| 0 <= i < |keys| && keys[i] == history[k].input.key;
      IsOnItsKey(history, k);
      assert history[k] in parts[i];
    }
  }

  lemma {:induction false} OnlyThatKey(history: seq<Operation>, key: Key)
    ensures forall i | 0 <= i < |OnKey(history, key)| :: OnKey(history, key)[i].input.key == key
    decreases |history|
  {
    if history != [] {
      OnlyThatKey(history[..|history| - 1], key);
    }
  }

  lemma {:induction false} IsOnItsKey(history: seq<Operation>, k: nat)
    requires k < |history|
    ensures history[k] in OnKey(history, history[k].input.key)
    decreases |history|
  {
    var n := |history| - 1;
    if k < n {
      IsOnItsKey(history[..n], k);
    }
  }

  lemma GroupingGrows(m: map<Key, seq<Operation>>, history: seq<Operation>, v: Operation)
    requires IsGrouping(m, history)
    ensures IsGrouping(m[v.input.key := (if v.input.key in m then m[v.input.key] else []) + [v]], history + [v])
  {
    assert (history + [v])[..|history|] == history;
    if v.input.key !in m {
      NoOperations(history, v.input.key);
    }
  }

  lemma {:induction false} NoOperations(history: seq<Operation>, key: Key)
    requires forall i | 0 <= i < |history| :: history[i].input.key != key
    ensures OnKey(history, key) == []
    decreases |history|
  {
    if history != [] {
      NoOperations(history[..|history| - 1], key);
    }
  }

  /** The parts and linearizability. */

  // The model, with the versions of gets checked, run over one part.
  ghost function RunModel(ops: seq<Operation>): (bool, State) {
    if ops == [] then (true, INIT)
    else
      var last := ops[|ops| - 1];
      var (ok, st) := RunModel(ops[..|ops| - 1]);
      var (fits, after) := StrictStep(st, last.input, last.output);
      (ok && fits, after)
  }

  // The operations of a run, in the order of the linearization.
  ghost function Operations(s: System, order: seq<nat>): seq<Operation>
    requires InRange(s, order)
  {
    seq(|order|, a requires 0 <= a < |order| => Operation(s.calls[order[a]].input, Reported(s.calls[order[a]])))
  }

  lemma RunModelLast(ops: seq<Operation>, last: Operation)
    ensures var (ok, st) := RunModel(ops);
            var (fits, after) := StrictStep(st, last.input, last.output);
            RunModel(ops + [last]) == (ok && fits, after)
  {
    assert (ops + [last])[..|ops|] == ops;
  }

  lemma OnKeyLast(history: seq<Operation>, last: Operation, key: Key)
    ensures OnKey(history + [last], key) ==
            if last.input.key == key then OnKey(history, key) + [last] else OnKey(history, key)
  {
    assert (history + [last])[..|history|] == history;
  }

  lemma {:induction false} ReplayIsModelRun(s: System, key: Key, order: seq<nat>)
    requires InRange(s, order)
    ensures RunModel(OnKey(Operations(s, order), key)) == Replay(s, key, order)
    decreases |order|
  {
    if order != [] {
      var front, i := order[..|order| - 1], order[|order| - 1];
      var op := Operation(s.calls[i].input, Reported(s.calls[i]));
      ReplayIsModelRun(s, key, front);
      assert order == front + [i];
      assert Operations(s, order) == Operations(s, front) + [op];
      ReplayLast(s, key, front, i);
      OnKeyLast(Operations(s, front), op, key);
      RunModelLast(OnKey(Operations(s, front), key), op);
    }
  }

  /** The partitioned check succeeds on every run: with the calls in the order of their points, the model
      accepts the part of a key exactly when no put to that key, while it was missing, returned ErrNoKey,
      and it ends in the state of the store. */
  lemma PartsAreAccepted(run: seq<System>, steps: seq<Step>, key: Key)
    requires IsRun(run, steps)
    ensures var s := run[|steps|];
            InRange(s, Linearization(s)) &&
            var (ok, st) := RunModel(OnKey(Operations(s, Linearization(s)), key));
            && st == KeyState(s.store, key)
            && (ok <==> forall i | 0 <= i < |s.calls| && s.calls[i].input.key == key :: !PutToMissing(s.calls[i]))
  {
    HistoryIsLinearizable(run, steps);
    ReplayIsModelRun(run[|steps|], key, Linearization(run[|steps|]));
  }
}
