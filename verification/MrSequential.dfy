/** The sequential program: map every file, sort all pairs, reduce each key. It says what the coordinator
    and the workers together must compute. */
module MrSequential {
  import opened KeyValues
  import opened Options
  import opened Texts

  type Mapper = (Text, Text) -> seq<KeyValue>

  // The files of a job, what can be read from them, and the two functions of the plugin.
  datatype Job = Job(files: seq<Text>, contents: map<Text, Text>, mapf: Mapper, reducef: Reducer)

  predicate Readable(job: Job, i: nat) {
    i < |job.files| && job.files[i] in job.contents
  }

  function MapOutput(job: Job, i: nat): seq<KeyValue> {
    if Readable(job, i) then job.mapf(job.files[i], job.contents[job.files[i]]) else []
  }

  // The pairs of the first n files.
  function AllPairs(job: Job, n: nat): seq<KeyValue> {
    if n == 0 then [] else AllPairs(job, n - 1) + MapOutput(job, n - 1)
  }

  // The job's files can be read, and these are the lines of one run: which run depends on the sort only.
  ghost predicate IsSequentialOutput(job: Job, lines: seq<Line>) {
    && (forall i | 0 <= i < |job.files| :: Readable(job, i))
    && exists sorted :: SortOf(sorted, AllPairs(job, |job.files|)) && Reduction(lines, sorted, job.reducef)
  }

  // None stands for log.Fatalf.
  method RunSequential(job: Job) returns (lines: Option<seq<Line>>)
    ensures lines.Some? <==> forall i | 0 <= i < |job.files| :: Readable(job, i)
    ensures lines.Some? ==> IsSequentialOutput(job, lines.value)
  {
    var intermediate := [];
    for i := 0 to |job.files|
      invariant intermediate == AllPairs(job, i)
      invariant forall k | 0 <= k < i :: Readable(job, k)
    {
      if job.files[i] !in job.contents {
        assert !Readable(job, i);
        return None;
      }
      intermediate := intermediate + job.mapf(job.files[i], job.contents[job.files[i]]);
    }
    var sorted := Sort(intermediate);
    var out := GroupAndReduce(sorted, job.reducef);
    lines := Some(out);
  }

  /** The output does not depend on how the sort orders equal keys when reducef ignores the order of values. */
  lemma SequentialOutputIsUnique(job: Job, some: seq<Line>, other: seq<Line>)
    requires IsSequentialOutput(job, some) && IsSequentialOutput(job, other) && OrderInsensitive(job.reducef)
    ensures some == other
  {
    var s :| SortOf(s, AllPairs(job, |job.files|)) && Reduction(some, s, job.reducef);
    var t :| SortOf(t, AllPairs(job, |job.files|)) && Reduction(other, t, job.reducef);
    ReductionOfRearrangement(other, t, s, job.reducef);
    ReductionIsUnique(some, other, s, job.reducef);
  }

  // Two strictly increasing lists with the same keys are the same list.
  lemma ReductionIsUnique(a: seq<Line>, b: seq<Line>, s: seq<KeyValue>, reducef: Reducer)
    requires Reduction(a, s, reducef) && Reduction(b, s, reducef)
    ensures a == b
  {
    forall k: nat | k < |a| && k < |b| ensures a[k] == b[k] {
      SameLineAt(a, b, s, reducef, k);
    }
    NoLineBeyond(a, b, s, reducef);
    NoLineBeyond(b, a, s, reducef);
  }

  lemma OrderOfKeys(lines: seq<Line>, s: seq<KeyValue>, reducef: Reducer)
    requires Reduction(lines, s, reducef)
    ensures forall i, j | 0 <= i < |lines| && 0 <= j < |lines| :: Less(lines[i].key, lines[j].key) <==> i < j
  {
    forall i, j | 0 <= i < |lines| && 0 <= j < |lines| ensures Less(lines[i].key, lines[j].key) <==> i < j {
      LessIsTotal(lines[i].key, lines[j].key);
    }
  }

  lemma {:induction false} SameLineAt(a: seq<Line>, b: seq<Line>, s: seq<KeyValue>, reducef: Reducer, k: nat)
    requires Reduction(a, s, reducef) && Reduction(b, s, reducef)
    requires k < |a| && k < |b|
    ensures forall j | 0 <= j <= k :: a[j] == b[j]
    decreases k
  {
    if k > 0 {
      SameLineAt(a, b, s, reducef, k - 1);
    }
    NotEarlier(a, b, s, reducef, k);
    NotEarlier(b, a, s, reducef, k);
    LessIsTotal(a[k].key, b[k].key);
  }

  lemma NotEarlier(a: seq<Line>, b: seq<Line>, s: seq<KeyValue>, reducef: Reducer, k: nat)
    requires Reduction(a, s, reducef) && Reduction(b, s, reducef)
    requires k < |a| && k < |b| && forall j | 0 <= j < k :: a[j] == b[j]
    ensures !Less(a[k].key, b[k].key)
  {
    OrderOfKeys(a, s, reducef);
    OrderOfKeys(b, s, reducef);
    LessIsTotal(a[k].key, a[k].key);
    var i :| 0 <= i < |b| && b[i].key == a[k].key;
    assert k <= i;
  }

  // A list that is longer than another with the same keys repeats a key if it begins with it.
  lemma KeyBeyond(a: seq<Line>, b: seq<Line>, s: seq<KeyValue>, reducef: Reducer)
    requires Reduction(a, s, reducef) && (forall i | 0 <= i < |b| :: b[i].key in Keys(s))
    requires |a| < |b| && forall j | 0 <= j < |a| && j < |b| :: a[j] == b[j]
    ensures exists i :: 0 <= i < |a| && b[i].key == b[|a|].key
  {
    var i :| 0 <= i < |a| && a[i].key == b[|a|].key;
    assert b[i].key == b[|a|].key;
  }

  lemma NoLineBeyond(a: seq<Line>, b: seq<Line>, s: seq<KeyValue>, reducef: Reducer)
    requires Reduction(a, s, reducef) && Reduction(b, s, reducef)
    requires forall j | 0 <= j < |a| && j < |b| :: a[j] == b[j]
    ensures |b| <= |a|
  {
    if |a| < |b| {
      KeyBeyond(a, b, s, reducef);
      LessIsTotal(b[|a|].key, b[|a|].key);
    }
  }
}
