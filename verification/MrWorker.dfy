/** A worker: what it does with one task, and what it reports. */
module MrWorker {
  import opened Coordinator
  import opened KeyValues
  import opened MrSequential
  import opened Options
  import opened PartitionFile
  import opened Texts

  function Succeeded(t: Task, intermediate: seq<KeyValue>): Report {
    Report(t.id, t.worker, t.write, Completed, intermediate, t.retries)
  }

  // A failure is reported under worker -1, so it matches the task only once the coordinator gave it up.
  function Failed(t: Task): Report {
    Report(t.id, -1, t.write, NotStarted, [], t.retries + 1)
  }

  /** What the reports of a worker do to the coordinator. While the task it was granted is still assigned to it, a
      success completes the task and adds the pairs, and a failure changes nothing: the task waits for its timeout.
      Once the task has been given up it is the other way round: a success changes nothing, and a failure keeps
      the task ready to be granted, with the retries that the worker was told and one more. */
  lemma ReportMeaning(c: Coord, t: Task, i: nat, intermediate: seq<KeyValue>)
    requires i < |c.tasks| && c.tasks[i].id == t.id && t.worker >= 0
    requires forall j | 0 <= j < |c.tasks| && j != i :: c.tasks[j].id != t.id
    ensures c.tasks[i].worker == t.worker ==>
              && Absorb(c, Succeeded(t, intermediate)) ==
                 c.(results := c.results + intermediate,
                    tasks := c.tasks[i := c.tasks[i].(status := Completed, write := t.write, retries := t.retries)])
              && Absorb(c, Failed(t)) == c
    ensures c.tasks[i].worker == -1 ==>
              && Absorb(c, Succeeded(t, intermediate)) == c
              && Absorb(c, Failed(t)) ==
                 c.(tasks := c.tasks[i := c.tasks[i].(status := NotStarted, write := t.write, retries := t.retries + 1)])
  {
    AbsorbMeaning(c, Succeeded(t, intermediate));
    AbsorbMeaning(c, Failed(t));
  }

  // The lines that reducing a partition file may give.
  ghost predicate IsReduceOutput(lines: seq<Line>, text: Text, reducef: Reducer) {
    && Parse(text).Some?
    && exists sorted :: SortOf(sorted, Parse(text).value) && Reduction(lines, sorted, reducef)
  }

  method ExecuteMapf(read: Location, contents: map<Text, Text>, intermediate: seq<KeyValue>, mapf: Mapper)
      returns (ok: bool, more: seq<KeyValue>)
    ensures ok <==> read.Input? && read.name in contents
    ensures more == if ok then intermediate + mapf(read.name, contents[read.name]) else intermediate
  {
    if !read.Input? || read.name !in contents {
      return false, intermediate;
    }
    var kvs := mapf(read.name, contents[read.name]);
    return true, intermediate + kvs;
  }

  // One round of the loop in Worker, from a granted task to the report. A report None is a panic on a bad line.
  method Process(t: Task, contents: map<Text, Text>, partitions: map<nat, Text>, mapf: Mapper, reducef: Reducer)
      returns (report: Option<Report>, output: Option<seq<Line>>)
    ensures t.id.MapTask? ==>
              output == None &&
              report == Some(if t.read.Input? && t.read.name in contents
                             then Succeeded(t, mapf(t.read.name, contents[t.read.name])) else Failed(t))
    ensures t.id.ReduceTask? && !(t.read.PartitionAt? && t.read.p in partitions) ==>
              output == None && report == Some(Failed(t))
    ensures t.id.ReduceTask? && t.read.PartitionAt? && t.read.p in partitions ==>
              if Parse(partitions[t.read.p]).None? then output == None && report == None
              else report == Some(Succeeded(t, [])) && output.Some? &&
                   IsReduceOutput(output.value, partitions[t.read.p], reducef)
  {
    var intermediate := [];
    var ok: bool;
    output := None;
    if t.id.MapTask? {
      ok, intermediate := ExecuteMapf(t.read, contents, intermediate, mapf);
      assert ok ==> [] + mapf(t.read.name, contents[t.read.name]) == mapf(t.read.name, contents[t.read.name]);
    } else if t.read.PartitionAt? && t.read.p in partitions {
      ghost var sorted;
      output, sorted := ExecuteReducef(partitions[t.read.p], reducef);
      if output.None? {
        return None, None;
      }
      ok := true;
    } else {
      ok := false;
    }
    report := Some(if ok then Succeeded(t, intermediate) else Failed(t));
  }
}
