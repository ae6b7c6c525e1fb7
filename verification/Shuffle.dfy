/** The shuffle: pairs are partitioned by the hash of their key, and reducing the partitions one by one
    gives the lines of reducing everything at once. */
module Shuffle {
  import opened Choice
  import opened KeyValues
  import opened Options
  import opened OutputFile
  import opened PartitionFile
  import opened Texts

  // Bitwise exclusive or.
  function Xor(a: nat, b: nat): nat {
    if a == 0 then b
    else if b == 0 then a
    else (if a % 2 == b % 2 then 0 else 1) + 2 * Xor(a / 2, b / 2)
  }

  const FNV_OFFSET := 2166136261
  const FNV_PRIME := 16777619

  function Bit(a: nat, i: nat): nat {
    if i == 0 then a % 2 else Bit(a / 2, i - 1)
  }

  lemma {:induction false} NoBits(i: nat)
    ensures Bit(0, i) == 0
    decreases i
  {
    if i > 0 {
      NoBits(i - 1);
    }
  }

  // A bit of the result is set exactly when one of the two bits is.
  lemma {:induction false} XorIsBitwise(a: nat, b: nat, i: nat)
    ensures Bit(Xor(a, b), i) == if Bit(a, i) == Bit(b, i) then 0 else 1
    decreases i
  {
    NoBits(i);
    BitIsBinary(a, i);
    BitIsBinary(b, i);
    if a != 0 && b != 0 {
      XorUnfolds(a, b);
      if i > 0 {
        XorIsBitwise(a / 2, b / 2, i - 1);
      }
    }
  }

  lemma XorUnfolds(a: nat, b: nat)
    requires a != 0 && b != 0
    ensures Xor(a, b) % 2 == (if a % 2 == b % 2 then 0 else 1) && Xor(a, b) / 2 == Xor(a / 2, b / 2)
  {
    Halves(Xor(a / 2, b / 2), if a % 2 == b % 2 then 0 else 1);
  }

  lemma Halves(x: nat, bit: nat)
    requires bit < 2
    ensures (bit + 2 * x) % 2 == bit && (bit + 2 * x) / 2 == x
  {
  }

  lemma {:induction false} BitIsBinary(a: nat, i: nat)
    ensures Bit(a, i) == 0 || Bit(a, i) == 1
    decreases i
  {
    if i > 0 {
      BitIsBinary(a / 2, i - 1);
    }
  }

  // FNV-1a with 32 bits.
  function Fnv32a(text: Text): nat {
    if text == [] then FNV_OFFSET
    else Xor(Fnv32a(text[..|text| - 1]), text[|text| - 1]) * FNV_PRIME % 0x1_0000_0000
  }

  // The hash with its sign bit cleared.
  function Ihash(key: Text): nat {
    Fnv32a(key) % 0x8000_0000
  }

  function PartitionOf(key: Text, reducers: nat): (p: nat)
    requires reducers > 0
    ensures p < reducers
  {
    Ihash(key) % reducers
  }

  // The published hashes of the empty text and of "a", and the partition of "a" among ten.
  lemma HashVectors()
    ensures Fnv32a([]) == 0x811C9DC5 && Fnv32a([97]) == 0xE40C292C
    ensures Ihash([97]) == 0x640C292C && PartitionOf([97], 10) == 2
  {
    assert [97][..0] == [];
    // The exclusive or, from the highest bit of the byte down.
    assert Xor(33845879, 1) == 33845878;
    assert Xor(67691758, 3) == 67691757;
    assert Xor(135383516, 6) == 135383514;
    assert Xor(270767032, 12) == 270767028;
    assert Xor(541534065, 24) == 541534057;
    assert Xor(1083068130, 48) == 1083068114;
    assert Xor(2166136261, 97) == 2166136228;
  }

  // The pairs of one partition, in order.
  function Part(s: seq<KeyValue>, p: nat, reducers: nat): seq<KeyValue>
    requires reducers > 0
  {
    if s == [] then []
    else Part(s[..|s| - 1], p, reducers) +
         if PartitionOf(s[|s| - 1].key, reducers) == p then [s[|s| - 1]] else []
  }

  // The non-empty partitions.
  ghost predicate IsPartitioning(parts: map<nat, seq<KeyValue>>, s: seq<KeyValue>, reducers: nat)
    requires reducers > 0
  {
    forall p: nat :: (p in parts <==> Part(s, p, reducers) != []) && (p in parts ==> parts[p] == Part(s, p, reducers))
  }

  // The loop of shuffle, after the sort.
  method Partition(s: seq<KeyValue>, reducers: nat) returns (parts: map<nat, seq<KeyValue>>)
    requires reducers > 0
    ensures IsPartitioning(parts, s, reducers)
  {
    parts := map[];
    for i := 0 to |s|
      invariant IsPartitioning(parts, s[..i], reducers)
    {
      assert s[..i + 1][..i] == s[..i];
      var p := PartitionOf(s[i].key, reducers);
      if p !in parts {
        parts := parts[p := []];
        parts := parts[p := parts[p] + [s[i]]];
      } else {
        parts := parts[p := parts[p] + [s[i]]];
      }
    }
    assert s[..|s|] == s;
  }

  /** Every pair lands in exactly one partition, as often as it occurs; so every key is in only one. */
  lemma {:induction false} EachPairInOnePart(s: seq<KeyValue>, kv: KeyValue, p: nat, reducers: nat)
    requires reducers > 0
    ensures multiset(Part(s, p, reducers))[kv] == if PartitionOf(kv.key, reducers) == p then multiset(s)[kv] else 0
    decreases |s|
  {
    if s != [] {
      var n := |s| - 1;
      EachPairInOnePart(s[..n], kv, p, reducers);
      assert s == s[..n] + [s[n]];
      CountLast(s[..n], s[n], kv);
      CountLast(Part(s[..n], p, reducers), s[n], kv);
    }
  }

  lemma {:induction false} PartKeys(s: seq<KeyValue>, k: Text, p: nat, reducers: nat)
    requires reducers > 0
    ensures k in Keys(Part(s, p, reducers)) <==> k in Keys(s) && PartitionOf(k, reducers) == p
    ensures PartitionOf(k, reducers) == p ==> ValuesOf(Part(s, p, reducers), k) == ValuesOf(s, k)
    decreases |s|
  {
    if s != [] {
      var n := |s| - 1;
      PartKeys(s[..n], k, p, reducers);
      assert s == s[..n] + [s[n]];
      OneMoreKey(s[..n], s[n], k);
      if PartitionOf(s[n].key, reducers) == p {
        OneMoreKey(Part(s[..n], p, reducers), s[n], k);
      } else {
        assert Part(s, p, reducers) == Part(s[..n], p, reducers);
      }
    }
  }

  lemma OneMoreKey(s: seq<KeyValue>, kv: KeyValue, k: Text)
    ensures k in Keys(s + [kv]) <==> k in Keys(s) || k == kv.key
    ensures ValuesOf(s + [kv], k) == ValuesOf(s, k) + if k == kv.key then [kv.value] else []
  {
    KeysConcat(s, [kv]);
    ValuesOfConcat(s, [kv], k);
    OneKey(kv);
  }

  lemma OneKey(kv: KeyValue)
    ensures Keys([kv]) == {kv.key} && Keys([]) == {}
    ensures forall k :: ValuesOf([kv], k) == if k == kv.key then [kv.value] else []
  {
    assert kv in [kv];
  }

  lemma {:induction false} PartIsClean(s: seq<KeyValue>, p: nat, reducers: nat)
    requires reducers > 0 && Clean(s)
    ensures Clean(Part(s, p, reducers))
    decreases |s|
  {
    if s != [] {
      PartIsClean(s[..|s| - 1], p, reducers);
    }
  }

  /** The output files of all reduce tasks together. */
  ghost function AllLines(outputs: map<nat, OutFile>, reducers: nat): multiset<Option<Line>> {
    if reducers == 0 then multiset{} else AllLines(outputs, reducers - 1) + FileLines(outputs, reducers - 1)
  }

  ghost function FileLines(outputs: map<nat, OutFile>, p: nat): multiset<Option<Line>> {
    if p in outputs then multiset(outputs[p]) else multiset{}
  }

  // The file is all of some reduction of the partition.
  ghost predicate Reduces(file: OutFile, part: seq<KeyValue>, reducef: Reducer) {
    exists lines :: Reduction(lines, part, reducef) && file == Slots(lines)
  }

  // Each partition that is not empty has an output file, which reduces it.
  ghost predicate Reduced(outputs: map<nat, OutFile>, s: seq<KeyValue>, reducers: nat, reducef: Reducer)
    requires reducers > 0
  {
    forall p: nat | p < reducers ::
      if Part(s, p, reducers) == [] then p !in outputs
      else p in outputs && Reduces(outputs[p], Part(s, p, reducers), reducef)
  }

  // The line that reducing everything gives for the key of x.
  ghost predicate IsLineOf(x: Option<Line>, s: seq<KeyValue>, reducef: Reducer) {
    x.Some? && x.value.key in Keys(s) && x.value.output == reducef(x.value.key, ValuesOf(s, x.value.key))
  }

  // The partition of the key of x; a hole belongs nowhere.
  function HomeOf(x: Option<Line>, reducers: nat): nat
    requires reducers > 0
  {
    if x.Some? then PartitionOf(x.value.key, reducers) else 0
  }

  lemma LinesOfPart(outputs: map<nat, OutFile>, s: seq<KeyValue>, reducers: nat, reducef: Reducer, x: Option<Line>, p: nat)
    requires reducers > 0 && p < reducers && Reduced(outputs, s, reducers, reducef)
    ensures FileLines(outputs, p)[x] == if HomeOf(x, reducers) == p && IsLineOf(x, s, reducef) then 1 else 0
  {
    if x.Some? {
      PartKeys(s, x.value.key, p, reducers);
    }
    if p in outputs {
      var lines :| Reduction(lines, Part(s, p, reducers), reducef) && outputs[p] == Slots(lines);
      SlotCount(lines, x);
      if x.Some? {
        LineCount(lines, Part(s, p, reducers), reducef, x.value);
      }
    } else {
      OneKey(KeyValue([], []));
    }
  }

  lemma {:induction false} LinesUpTo(outputs: map<nat, OutFile>, x: Option<Line>, h: nat, count: nat, n: nat)
    requires forall p | 0 <= p < n :: FileLines(outputs, p)[x] == if p == h then count else 0
    ensures AllLines(outputs, n)[x] == if h < n then count else 0
    decreases n
  {
    if n > 0 {
      LinesUpTo(outputs, x, h, count, n - 1);
      assert FileLines(outputs, n - 1)[x] == if n - 1 == h then count else 0;
    }
  }

  /** Reducing each partition separately gives, all together, exactly the lines of reducing everything. */
  lemma PartitionedReduction(outputs: map<nat, OutFile>, s: seq<KeyValue>, reducers: nat, reducef: Reducer,
                             lines: seq<Line>)
    requires reducers > 0 && Reduced(outputs, s, reducers, reducef) && Reduction(lines, s, reducef)
    ensures AllLines(outputs, reducers) == multiset(Slots(lines))
  {
    forall x ensures AllLines(outputs, reducers)[x] == multiset(Slots(lines))[x] {
      var count := if IsLineOf(x, s, reducef) then 1 else 0;
      forall p | 0 <= p < reducers ensures FileLines(outputs, p)[x] == if p == HomeOf(x, reducers) then count else 0 {
        LinesOfPart(outputs, s, reducers, reducef, x, p);
      }
      LinesUpTo(outputs, x, HomeOf(x, reducers), count, reducers);
      SlotCount(lines, x);
      if x.Some? {
        LineCount(lines, s, reducef, x.value);
      }
    }
  }
}
