/** A reduce output file while several workers may have it open: each writes its lines at its own position,
    and creating the file again empties it under the others. */
module OutputFile {
  import opened KeyValues
  import opened Options
  import opened Texts

  // The lines of a file by position. A position that was passed over after a truncation is a hole.
  type OutFile = seq<Option<Line>>

  function Slots(lines: seq<Line>): OutFile {
    seq(|lines|, i requires 0 <= i < |lines| => Some(lines[i]))
  }

  // Writing beyond the end leaves holes.
  function WriteAt(file: OutFile, pos: nat, line: Line): OutFile {
    if pos < |file| then file[pos := Some(line)]
    else file + seq(pos - |file|, i => None) + [Some(line)]
  }

  predicate NoHole(file: OutFile) {
    forall i | 0 <= i < |file| :: file[i].Some?
  }

  // One line for each key of the partition, and no hole.
  ghost predicate IsWhole(file: OutFile, part: seq<KeyValue>) {
    NoHole(file) && |file| == |Keys(part)|
  }

  // The file holds lines of the reduction only, each at its position.
  ghost predicate HoldsOnly(file: OutFile, lines: seq<Line>) {
    |file| <= |lines| && forall i | 0 <= i < |file| && file[i].Some? :: file[i].value == lines[i]
  }

  // The first n positions are filled.
  predicate FilledTo(file: OutFile, n: nat) {
    n <= |file| && forall i | 0 <= i < n :: file[i].Some?
  }

  // Several writers with the same lines: each write keeps the others' and adds its own.
  lemma WriteHoldsOnly(file: OutFile, lines: seq<Line>, pos: nat)
    requires HoldsOnly(file, lines) && pos < |lines|
    ensures HoldsOnly(WriteAt(file, pos, lines[pos]), lines)
    ensures forall n: nat | FilledTo(file, n) :: FilledTo(WriteAt(file, pos, lines[pos]), n)
    ensures FilledTo(file, pos) ==> FilledTo(WriteAt(file, pos, lines[pos]), pos + 1)
  {
  }

  /** A worker that creates the file and writes all its lines leaves it whole, whoever else writes the same
      lines in between. */
  lemma FilledIsSlots(file: OutFile, lines: seq<Line>)
    requires HoldsOnly(file, lines)
    ensures FilledTo(file, |lines|) <==> file == Slots(lines)
  {
    if FilledTo(file, |lines|) {
      assert forall i | 0 <= i < |lines| :: file[i] == Some(lines[i]);
    }
  }

  // A file that is not all of its lines lacks one of them.
  lemma UnfilledLine(file: OutFile, lines: seq<Line>) returns (k: nat)
    requires HoldsOnly(file, lines) && file != Slots(lines)
    requires forall i, j | 0 <= i < j < |lines| :: Less(lines[i].key, lines[j].key)
    ensures k < |lines| && Some(lines[k]) !in file
  {
    FilledIsSlots(file, lines);
    if |file| < |lines| {
      k := |file|;
    } else {
      k :| 0 <= k < |lines| && file[k].None?;
    }
    LessIsTotal(lines[k].key, lines[k].key);
  }

  ghost function LineKeys(lines: seq<Line>): set<Text> {
    set x | x in lines :: x.key
  }

  lemma LineKeysLast(lines: seq<Line>, last: Line)
    ensures LineKeys(lines + [last]) == LineKeys(lines) + {last.key}
  {
    var more := lines + [last];
    assert forall x | x in more :: x in lines || x == last;
    assert more[|lines|] == last;
    assert forall x | x in lines :: x in more;
  }

  // A reduction has one line for each key.
  lemma {:induction false} DistinctKeys(lines: seq<Line>)
    requires forall i, j | 0 <= i < j < |lines| :: Less(lines[i].key, lines[j].key)
    ensures |LineKeys(lines)| == |lines|
    decreases |lines|
  {
    if lines == [] {
      assert LineKeys(lines) == {};
    } else {
      var n := |lines| - 1;
      DistinctKeys(lines[..n]);
      LineKeysLast(lines[..n], lines[n]);
      assert lines == lines[..n] + [lines[n]];
      LessIsTotal(lines[n].key, lines[n].key);
      assert lines[n].key !in LineKeys(lines[..n]);
    }
  }

  lemma LinePerKey(lines: seq<Line>, part: seq<KeyValue>, reducef: Reducer)
    requires Reduction(lines, part, reducef)
    ensures |lines| == |Keys(part)|
  {
    DistinctKeys(lines);
    forall k | k in Keys(part) ensures k in LineKeys(lines) {
      var i :| 0 <= i < |lines| && lines[i].key == k;
      assert lines[i] in lines;
    }
    assert LineKeys(lines) == Keys(part);
  }

  // A file that holds only lines of the reduction is whole exactly when it is all of them.
  lemma WholeIsSlots(file: OutFile, lines: seq<Line>, part: seq<KeyValue>, reducef: Reducer)
    requires Reduction(lines, part, reducef) && HoldsOnly(file, lines)
    ensures IsWhole(file, part) <==> file == Slots(lines)
  {
    LinePerKey(lines, part, reducef);
    FilledIsSlots(file, lines);
  }

  lemma {:induction false} SlotCount(lines: seq<Line>, x: Option<Line>)
    ensures multiset(Slots(lines))[x] == if x.Some? then multiset(lines)[x.value] else 0
    decreases |lines|
  {
    if lines != [] {
      var n := |lines| - 1;
      SlotCount(lines[..n], x);
      assert lines == lines[..n] + [lines[n]];
      assert Slots(lines) == Slots(lines[..n]) + [Some(lines[n])];
      assert multiset(lines) == multiset(lines[..n]) + multiset{lines[n]};
      assert multiset(Slots(lines)) == multiset(Slots(lines[..n])) + multiset{Some(lines[n])};
    }
  }
}
