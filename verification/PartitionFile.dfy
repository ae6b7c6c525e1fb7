/** The files between the shuffle and the reduce tasks: one "key value" line per pair, written by the
    coordinator and read back by a worker. */
module PartitionFile {
  import opened KeyValues
  import opened Options
  import opened Texts

  const SPACE: Byte := 32
  const NEWLINE: Byte := 10

  // strings.Split: the pieces between the separators, never empty as a list.
  function Split(text: Text, sep: Byte): (pieces: seq<Text>)
    ensures pieces != []
  {
    if text == [] then [[]]
    else
      var rest := Split(text[1..], sep);
      if text[0] == sep then [[]] + rest else [[text[0]] + rest[0]] + rest[1..]
  }

  function Join(pieces: seq<Text>, sep: Byte): Text
    requires pieces != []
  {
    if |pieces| == 1 then pieces[0] else pieces[0] + [sep] + Join(pieces[1..], sep)
  }

  // strings.TrimSuffix with a one-byte suffix.
  function TrimSuffix(text: Text, suffix: Byte): Text {
    if text != [] && text[|text| - 1] == suffix then text[..|text| - 1] else text
  }

  function PrintLine(kv: KeyValue): Text {
    kv.key + [SPACE] + kv.value
  }

  function Print(kvs: seq<KeyValue>): Text {
    if kvs == [] then [] else Print(kvs[..|kvs| - 1]) + PrintLine(kvs[|kvs| - 1]) + [NEWLINE]
  }

  // toKeyValue; a line without a space makes the worker panic.
  function ToKeyValue(line: Text): Option<KeyValue> {
    var pieces := Split(line, SPACE);
    if |pieces| < 2 then None else Some(KeyValue(pieces[0], pieces[1]))
  }

  function ToKeyValues(lines: seq<Text>): Option<seq<KeyValue>> {
    if lines == [] then Some([])
    else
      var front := ToKeyValues(lines[..|lines| - 1]);
      var last := ToKeyValue(lines[|lines| - 1]);
      if front.None? || last.None? then None else Some(front.value + [last.value])
  }

  function Parse(text: Text): Option<seq<KeyValue>> {
    ToKeyValues(Split(TrimSuffix(text, NEWLINE), NEWLINE))
  }

  predicate CleanText(t: Text) {
    SPACE !in t && NEWLINE !in t
  }

  predicate Clean(kvs: seq<KeyValue>) {
    forall i | 0 <= i < |kvs| :: CleanText(kvs[i].key) && CleanText(kvs[i].value)
  }

  lemma {:induction false} PiecesLackSeparator(text: Text, sep: Byte)
    ensures forall i | 0 <= i < |Split(text, sep)| :: sep !in Split(text, sep)[i]
    decreases |text|
  {
    if text != [] {
      PiecesLackSeparator(text[1..], sep);
    }
  }

  // At most one suffix goes.
  lemma TrimMeaning(text: Text, suffix: Byte)
    ensures TrimSuffix(text + [suffix], suffix) == text
    ensures text == [] || text[|text| - 1] != suffix ==> TrimSuffix(text, suffix) == text
  {
  }

  // The bytes of a partition file: "a 1" and "b 2" on two lines.
  lemma FileVector()
    ensures var kvs := [KeyValue([97], [49]), KeyValue([98], [50])];
            Print(kvs) == [97, 32, 49, 10, 98, 32, 50, 10] && Parse([97, 32, 49, 10, 98, 32, 50, 10]) == Some(kvs)
  {
    var kvs := [KeyValue([97], [49]), KeyValue([98], [50])];
    assert kvs[..1] == [kvs[0]] && kvs[..1][..0] == [];
    assert Print(kvs[..1]) == [97, 32, 49, 10];
    RoundTrip(kvs);
  }

  // The pieces hold only bytes of the text.
  lemma {:induction false} PiecesOfText(text: Text, sep: Byte, b: Byte)
    requires b !in text
    ensures forall i | 0 <= i < |Split(text, sep)| :: b !in Split(text, sep)[i]
    decreases |text|
  {
    if text != [] {
      PiecesOfText(text[1..], sep, b);
    }
  }

  lemma {:induction false} SplitOne(text: Text, sep: Byte)
    requires sep !in text
    ensures Split(text, sep) == [text]
    decreases |text|
  {
    if text != [] {
      SplitOne(text[1..], sep);
      assert text == [text[0]] + text[1..];
    }
  }

  lemma {:induction false} SplitFirst(piece: Text, sep: Byte, rest: Text)
    requires sep !in piece
    ensures Split(piece + [sep] + rest, sep) == [piece] + Split(rest, sep)
    decreases |piece|
  {
    var text := piece + [sep] + rest;
    if piece == [] {
      assert text[1..] == rest;
    } else {
      SplitFirst(piece[1..], sep, rest);
      assert text[1..] == piece[1..] + [sep] + rest;
      assert piece == [piece[0]] + piece[1..];
    }
  }

  /** Splitting a joined list gives the list back when no piece holds the separator. */
  lemma {:induction false} SplitOfJoin(pieces: seq<Text>, sep: Byte)
    requires pieces != [] && forall i | 0 <= i < |pieces| :: sep !in pieces[i]
    ensures Split(Join(pieces, sep), sep) == pieces
    decreases |pieces|
  {
    if |pieces| == 1 {
      SplitOne(pieces[0], sep);
    } else {
      SplitOfJoin(pieces[1..], sep);
      SplitFirst(pieces[0], sep, Join(pieces[1..], sep));
    }
  }

  /** The pieces of a split, joined again, are the text; with PiecesLackSeparator that determines them. */
  lemma {:induction false} JoinOfSplit(text: Text, sep: Byte)
    ensures Join(Split(text, sep), sep) == text
    decreases |text|
  {
    if text != [] {
      var rest := Split(text[1..], sep);
      JoinOfSplit(text[1..], sep);
      assert text == [text[0]] + text[1..];
      if text[0] == sep {
        assert ([[]] + rest)[1..] == rest;
      } else if |rest| > 1 {
        assert ([[text[0]] + rest[0]] + rest[1..])[1..] == rest[1..];
      }
    }
  }

  /** A line is a pair exactly when it holds a space. The key is what comes before the first space, and the value what
      comes after it, up to the next space if there is one. */
  lemma ToKeyValueMeaning(line: Text)
    ensures ToKeyValue(line).Some? <==> SPACE in line
    ensures SPACE in line ==>
              var kv := ToKeyValue(line).value;
              && SPACE !in kv.key && SPACE !in kv.value
              && (line == PrintLine(kv) || exists rest: Text :: line == PrintLine(kv) + [SPACE] + rest)
  {
    var pieces := Split(line, SPACE);
    PiecesLackSeparator(line, SPACE);
    JoinOfSplit(line, SPACE);
    if |pieces| > 2 {
      assert Join(pieces, SPACE) == pieces[0] + [SPACE] + (pieces[1] + [SPACE] + Join(pieces[1..][1..], SPACE));
      assert line == PrintLine(KeyValue(pieces[0], pieces[1])) + [SPACE] + Join(pieces[1..][1..], SPACE);
    } else if |pieces| == 2 {
      assert Join(pieces, SPACE) == pieces[0] + [SPACE] + pieces[1];
      assert line[|pieces[0]|] == SPACE;
    }
  }

  /** Reading fails exactly when some line has no space. */
  lemma {:induction false} ReadingFails(lines: seq<Text>)
    ensures ToKeyValues(lines).None? <==> exists i :: 0 <= i < |lines| && SPACE !in lines[i]
    decreases |lines|
  {
    if lines != [] {
      var n := |lines| - 1;
      ReadingFails(lines[..n]);
      SpaceMakesPair(lines[n]);
      if ToKeyValues(lines[..n]).None? {
        var i :| 0 <= i < n && SPACE !in lines[..n][i];
        assert SPACE !in lines[i];
      }
      if i :| 0 <= i < |lines| && SPACE !in lines[i] {
        assert i < n ==> SPACE !in lines[..n][i];
      }
    }
  }

  lemma SpaceMakesPair(line: Text)
    ensures ToKeyValue(line).Some? <==> SPACE in line
  {
    ToKeyValueMeaning(line);
  }

  ghost function LinesOf(kvs: seq<KeyValue>): seq<Text> {
    seq(|kvs|, i requires 0 <= i < |kvs| => PrintLine(kvs[i]))
  }

  lemma {:induction false} JoinLast(pieces: seq<Text>, last: Text, sep: Byte)
    requires pieces != []
    ensures Join(pieces + [last], sep) == Join(pieces, sep) + [sep] + last
    decreases |pieces|
  {
    if |pieces| > 1 {
      JoinLast(pieces[1..], last, sep);
      assert (pieces + [last])[1..] == pieces[1..] + [last];
    } else {
      assert (pieces + [last])[1..] == [last];
    }
  }

  // The file is its lines joined, with a newline at the end.
  lemma {:induction false} PrintIsJoin(kvs: seq<KeyValue>)
    requires kvs != []
    ensures Print(kvs) == Join(LinesOf(kvs), NEWLINE) + [NEWLINE]
    decreases |kvs|
  {
    var n := |kvs| - 1;
    if n == 0 {
      assert Print(kvs[..n]) == [];
    } else {
      PrintIsJoin(kvs[..n]);
      JoinLast(LinesOf(kvs[..n]), PrintLine(kvs[n]), NEWLINE);
      assert LinesOf(kvs) == LinesOf(kvs[..n]) + [PrintLine(kvs[n])];
    }
  }

  lemma LineRoundTrip(kv: KeyValue)
    requires CleanText(kv.key) && CleanText(kv.value)
    ensures NEWLINE !in PrintLine(kv) && ToKeyValue(PrintLine(kv)) == Some(kv)
  {
    SplitFirst(kv.key, SPACE, kv.value);
    SplitOne(kv.value, SPACE);
  }

  lemma {:induction false} LinesParse(kvs: seq<KeyValue>)
    requires Clean(kvs)
    ensures ToKeyValues(LinesOf(kvs)) == Some(kvs)
    decreases |kvs|
  {
    if kvs != [] {
      var n := |kvs| - 1;
      LinesParse(kvs[..n]);
      LineRoundTrip(kvs[n]);
      assert LinesOf(kvs)[..n] == LinesOf(kvs[..n]);
      assert kvs == kvs[..n] + [kvs[n]];
    }
  }

  // Whatever is read from lines without newlines is clean.
  lemma {:induction false} ParsedIsClean(lines: seq<Text>)
    requires forall i | 0 <= i < |lines| :: NEWLINE !in lines[i]
    ensures ToKeyValues(lines).Some? ==> Clean(ToKeyValues(lines).value)
    ensures lines != [] && ToKeyValues(lines).Some? ==> ToKeyValues(lines).value != []
    decreases |lines|
  {
    if lines != [] {
      var n := |lines| - 1;
      ParsedIsClean(lines[..n]);
      PiecesLackSeparator(lines[n], SPACE);
      PiecesOfText(lines[n], SPACE, NEWLINE);
    }
  }

  /** Round trip: reading a partition file back gives the pairs that were written, in order, exactly when
      there is at least one pair and no key or value holds a space or a newline. */
  lemma RoundTrip(kvs: seq<KeyValue>)
    ensures Parse(Print(kvs)) == Some(kvs) <==> kvs != [] && Clean(kvs)
  {
    if kvs != [] && Clean(kvs) {
      PrintIsJoin(kvs);
      forall i | 0 <= i < |kvs| ensures NEWLINE !in LinesOf(kvs)[i] {
        LineRoundTrip(kvs[i]);
      }
      SplitOfJoin(LinesOf(kvs), NEWLINE);
      LinesParse(kvs);
    } else {
      var lines := Split(TrimSuffix(Print(kvs), NEWLINE), NEWLINE);
      PiecesLackSeparator(TrimSuffix(Print(kvs), NEWLINE), NEWLINE);
      ParsedIsClean(lines);
    }
  }

  method Store(partition: seq<KeyValue>) returns (text: Text)
    ensures text == Print(partition)
  {
    text := [];
    for i := 0 to |partition|
      invariant text == Print(partition[..i])
    {
      assert partition[..i + 1][..i] == partition[..i];
      text := text + (partition[i].key + [SPACE] + partition[i].value + [NEWLINE]);
      assert text == Print(partition[..i]) + PrintLine(partition[i]) + [NEWLINE];
    }
    assert partition[..|partition|] == partition;
  }

  // The data path of a reduce task: read, parse, sort, group. None stands for the panic on a bad line.
  method ExecuteReducef(text: Text, reducef: Reducer) returns (lines: Option<seq<Line>>, ghost sorted: seq<KeyValue>)
    ensures lines.None? <==> Parse(text).None?
    ensures lines.Some? ==> SortOf(sorted, Parse(text).value) && Reduction(lines.value, sorted, reducef)
  {
    sorted := [];
    var rows := Split(TrimSuffix(text, NEWLINE), NEWLINE);
    var intermediate := [];
    for i := 0 to |rows|
      invariant ToKeyValues(rows[..i]) == Some(intermediate)
    {
      assert rows[..i + 1][..i] == rows[..i];
      var kv := ToKeyValue(rows[i]);
      if kv.None? {
        BadLine(rows, i);
        return None, [];
      }
      intermediate := intermediate + [kv.value];
    }
    assert rows[..|rows|] == rows;
    var s := Sort(intermediate);
    sorted := s;
    var out := GroupAndReduce(s, reducef);
    lines := Some(out);
  }

  lemma {:induction false} BadLine(lines: seq<Text>, i: nat)
    requires i < |lines| && ToKeyValue(lines[i]).None?
    ensures ToKeyValues(lines).None?
    decreases |lines|
  {
    if i < |lines| - 1 {
      BadLine(lines[..|lines| - 1], i);
    }
  }
}
