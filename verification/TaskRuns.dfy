/**
 Runs of map and reduce tasks on shared files, repeated and cut short in any way, and exactly when
 they leave the right files.
 */
module TaskRuns {
  import opened Wrappers
  import opened FlatMaps
  import opened MapReduce
  import opened MapReduceJob

  // ---------------------------------------------------------------- map runs

  /** Where a run of a map task stops: after emptying k files, or after writing j pairs. */
  datatype Cut = Emptying(k: nat) | Writing(j: nat)

  /** The states DoMap goes through are what a run that is cut short leaves. */
  function CutAt(files: Files, id: nat, nReduce: nat, hash: Hash, kva: seq<KeyValue>, cut: Cut): Files
    requires nReduce > 0
  {
    match cut
    case Emptying(k) => Emptied(files, id, if k < nReduce then k else nReduce)
    case Writing(j) => Mapped(files, id, nReduce, hash, if j < |kva| then kva[..j] else kva)
  }

  /** A run of a map task, not overlapping another run of the same task. */
  datatype MapRun = Completed(id: nat) | CutShort(id: nat, cut: Cut)

  function AfterRun(files: Files, run: MapRun, kvas: seq<seq<KeyValue>>, hash: Hash, nReduce: nat): Files
    requires nReduce > 0 && run.id < |kvas|
  {
    match run
    case Completed(id) => Mapped(files, id, nReduce, hash, kvas[id])
    case CutShort(id, cut) => CutAt(files, id, nReduce, hash, kvas[id], cut)
  }

  ghost predicate WfRuns(runs: seq<MapRun>, kvas: seq<seq<KeyValue>>) {
    forall k :: 0 <= k < |runs| ==> runs[k].id < |kvas|
  }

  function AfterRuns(start: Files, runs: seq<MapRun>, kvas: seq<seq<KeyValue>>, hash: Hash, nReduce: nat): Files
    requires nReduce > 0 && WfRuns(runs, kvas)
  {
    if runs == [] then start
    else AfterRun(AfterRuns(start, runs[..|runs| - 1], kvas, hash, nReduce), runs[|runs| - 1], kvas, hash, nReduce)
  }

  /** The last run of map task id came to its end. */
  predicate EndsCompleted(runs: seq<MapRun>, id: nat) {
    if runs == [] then false
    else if runs[|runs| - 1].id == id then runs[|runs| - 1].Completed?
    else EndsCompleted(runs[..|runs| - 1], id)
  }

  predicate EverCompleted(runs: seq<MapRun>, id: nat) {
    Completed(id) in runs
  }

  /** The last run of the map task came to its end, or it has nothing to emit and some run did. */
  predicate Settled(runs: seq<MapRun>, kvas: seq<seq<KeyValue>>, id: nat)
    requires id < |kvas|
  {
    EndsCompleted(runs, id) || (kvas[id] == [] && EverCompleted(runs, id))
  }

  /** Every partition file of a map task holds exactly its pairs. */
  ghost predicate TaskFilesRight(files: Files, kvas: seq<seq<KeyValue>>, hash: Hash, nReduce: nat, id: nat)
    requires nReduce > 0 && id < |kvas|
  {
    forall r: nat :: r < nReduce ==> (id, r) in files && files[(id, r)] == Part(kvas[id], hash, nReduce, r)
  }

  lemma InMapped(files: Files, id: nat, nReduce: nat, hash: Hash, kva: seq<KeyValue>)
    requires nReduce > 0
    ensures var files' := Mapped(files, id, nReduce, hash, kva);
            && (forall r: nat :: r < nReduce ==> (id, r) in files' && files'[(id, r)] == Part(kva, hash, nReduce, r))
            && forall m: nat, r: nat :: m != id ==>
                 ((m, r) in files' <==> (m, r) in files) && ((m, r) in files ==> files'[(m, r)] == files[(m, r)])
  {
  }

  lemma InEmptied(files: Files, id: nat, n: nat)
    ensures var files' := Emptied(files, id, n);
            && (forall r: nat :: r < n ==> (id, r) in files' && files'[(id, r)] == [])
            && (forall m: nat, r: nat :: m != id || r >= n ==>
                 ((m, r) in files' <==> (m, r) in files) && ((m, r) in files ==> files'[(m, r)] == files[(m, r)]))
  {
  }

  /** A run touches only the files of its own task. */
  lemma OthersUntouched(files: Files, run: MapRun, kvas: seq<seq<KeyValue>>, hash: Hash, nReduce: nat, m: nat)
    requires nReduce > 0 && run.id < |kvas| && m != run.id
    ensures var files' := AfterRun(files, run, kvas, hash, nReduce);
            forall r: nat :: ((m, r) in files' <==> (m, r) in files)
                && ((m, r) in files ==> files'[(m, r)] == files[(m, r)])
  {
    hide Mapped, Emptied, Part;
    match run
    case Completed(id) => InMapped(files, id, nReduce, hash, kvas[id]);
    case CutShort(id, Emptying(k)) => InEmptied(files, id, if k < nReduce then k else nReduce);
    case CutShort(id, Writing(j)) => InMapped(files, id, nReduce, hash, if j < |kvas[id]| then kvas[id][..j]
        else kvas[id]);
  }

  /** Whatever was there before, a completed run leaves the right files. */
  lemma CompletedIsRight(files: Files, kvas: seq<seq<KeyValue>>, hash: Hash, nReduce: nat, id: nat)
    requires nReduce > 0 && id < |kvas|
    ensures TaskFilesRight(AfterRun(files, Completed(id), kvas, hash, nReduce), kvas, hash, nReduce, id)
  {
    hide Mapped, Part;
    InMapped(files, id, nReduce, hash, kvas[id]);
  }

  /** A run that has nothing to write leaves right files right, wherever it is cut short. */
  lemma NothingToLose(files: Files, kvas: seq<seq<KeyValue>>, hash: Hash, nReduce: nat, id: nat, cut: Cut)
    requires nReduce > 0 && id < |kvas| && kvas[id] == [] && TaskFilesRight(files, kvas, hash, nReduce, id)
    ensures TaskFilesRight(AfterRun(files, CutShort(id, cut), kvas, hash, nReduce), kvas, hash, nReduce, id)
  {
    hide Mapped, Emptied, Part;
    forall r: nat
      ensures Part([], hash, nReduce, r) == []
    {
      NothingInPart(hash, nReduce, r);
    }
    match cut
    case Emptying(k) => InEmptied(files, id, if k < nReduce then k else nReduce);
    case Writing(_) => InMapped(files, id, nReduce, hash, []);
  }

  lemma RightUntouched(files: Files, run: MapRun, kvas: seq<seq<KeyValue>>, hash: Hash, nReduce: nat, m: nat)
    requires nReduce > 0 && run.id < |kvas| && m < |kvas| && m != run.id
             && TaskFilesRight(files, kvas, hash, nReduce, m)
    ensures TaskFilesRight(AfterRun(files, run, kvas, hash, nReduce), kvas, hash, nReduce, m)
  {
    hide AfterRun, Part;
    OthersUntouched(files, run, kvas, hash, nReduce, m);
  }

  /** Earlier runs and runs of other tasks leave no trace. */
  lemma {:induction false} FilesOfTask(start: Files, runs: seq<MapRun>, kvas: seq<seq<KeyValue>>, hash: Hash,
                                       nReduce: nat, id: nat)
    requires nReduce > 0 && WfRuns(runs, kvas) && id < |kvas| && Settled(runs, kvas, id)
    ensures TaskFilesRight(AfterRuns(start, runs, kvas, hash, nReduce), kvas, hash, nReduce, id)
  {
    hide AfterRun, TaskFilesRight;
    var before, run := runs[..|runs| - 1], runs[|runs| - 1];
    var files := AfterRuns(start, before, kvas, hash, nReduce);
    if run == Completed(id) {
      CompletedIsRight(files, kvas, hash, nReduce, id);
    } else {
      assert Settled(before, kvas, id);
      FilesOfTask(start, before, kvas, hash, nReduce, id);
      if run.id == id {
        NothingToLose(files, kvas, hash, nReduce, id, run.cut);
      } else {
        RightUntouched(files, run, kvas, hash, nReduce, id);
      }
    }
  }

  // ---------------------------------------------------------------- exactly when the files are right

  /** The same runs, in the same order, perhaps cut short elsewhere. */
  ghost predicate SameShape(runs: seq<MapRun>, runs': seq<MapRun>) {
    |runs| == |runs'| && forall k :: 0 <= k < |runs| ==>
        runs[k].id == runs'[k].id && runs[k].Completed? == runs'[k].Completed?
  }

  lemma EverSplits(runs: seq<MapRun>, id: nat)
    requires runs != []
    ensures EverCompleted(runs, id) <==> EverCompleted(runs[..|runs| - 1], id) || runs[|runs| - 1] == Completed(id)
  {
    assert runs == runs[..|runs| - 1] + [runs[|runs| - 1]];
  }

  lemma {:induction false} ShapeSettles(runs: seq<MapRun>, runs': seq<MapRun>, kvas: seq<seq<KeyValue>>, id: nat)
    requires SameShape(runs, runs') && id < |kvas|
    ensures Settled(runs, kvas, id) <==> Settled(runs', kvas, id)
    ensures EndsCompleted(runs, id) <==> EndsCompleted(runs', id)
    ensures EverCompleted(runs, id) <==> EverCompleted(runs', id)
  {
    if runs != [] {
      var last := |runs| - 1;
      ShapeSettles(runs[..last], runs'[..last], kvas, id);
      EverSplits(runs, id);
      EverSplits(runs', id);
    }
  }

  /** All cuts moved to one point. */
  function CutThere(runs: seq<MapRun>, cut: Cut): seq<MapRun> {
    seq(|runs|, k requires 0 <= k < |runs| => if runs[k].Completed? then runs[k] else CutShort(runs[k].id, cut))
  }

  /** A map task none of whose runs came to its end, each cut before it did anything, has no new file. */
  lemma {:induction false} NeverWritten(start: Files, runs: seq<MapRun>, kvas: seq<seq<KeyValue>>, hash: Hash,
                                        nReduce: nat, id: nat)
    requires nReduce > 0 && WfRuns(runs, kvas) && !EverCompleted(runs, id)
    requires forall k :: 0 <= k < |runs| && runs[k].CutShort? ==> runs[k].cut == Emptying(0)
    ensures (id, 0) in AfterRuns(start, runs, kvas, hash, nReduce) <==> (id, 0) in start
  {
    if runs != [] {
      var before, run := runs[..|runs| - 1], runs[|runs| - 1];
      var files := AfterRuns(start, before, kvas, hash, nReduce);
      EverSplits(runs, id);
      NeverWritten(start, before, kvas, hash, nReduce, id);
      if run.id == id {
        InEmptied(files, id, 0);
      } else {
        OthersUntouched(files, run, kvas, hash, nReduce, id);
      }
    }
  }

  /** A map task whose last run was cut short after emptying its files has empty files. */
  lemma {:induction false} LastEmptied(start: Files, runs: seq<MapRun>, kvas: seq<seq<KeyValue>>, hash: Hash,
                                       nReduce: nat, id: nat, r: nat)
    requires nReduce > 0 && WfRuns(runs, kvas) && EverCompleted(runs, id) && !EndsCompleted(runs, id) && r < nReduce
    requires forall k :: 0 <= k < |runs| && runs[k].CutShort? ==> runs[k].cut == Writing(0)
    ensures var files := AfterRuns(start, runs, kvas, hash, nReduce); (id, r) in files && files[(id, r)] == []
  {
    hide Mapped, Part;
    var before, run := runs[..|runs| - 1], runs[|runs| - 1];
    var files := AfterRuns(start, before, kvas, hash, nReduce);
    EverSplits(runs, id);
    if run.id == id {
      InMapped(files, id, nReduce, hash, []);
      NothingInPart(hash, nReduce, r);
      assert kvas[id] == [] || kvas[id][..0] == [];
    } else {
      LastEmptied(start, before, kvas, hash, nReduce, id, r);
      OthersUntouched(files, run, kvas, hash, nReduce, id);
    }
  }

  /** The files of the task are right, whatever was there at first and wherever runs were cut short. */
  ghost predicate AlwaysRight(runs: seq<MapRun>, kvas: seq<seq<KeyValue>>, hash: Hash, nReduce: nat, id: nat)
    requires nReduce > 0 && WfRuns(runs, kvas) && id < |kvas|
  {
    forall start, runs' | SameShape(runs, runs') && WfRuns(runs', kvas) ::
      TaskFilesRight(AfterRuns(start, runs', kvas, hash, nReduce), kvas, hash, nReduce, id)
  }

  lemma UnsettledGoesWrong(runs: seq<MapRun>, kvas: seq<seq<KeyValue>>, hash: Hash, nReduce: nat, id: nat)
    requires nReduce > 0 && WfRuns(runs, kvas) && id < |kvas| && !Settled(runs, kvas, id)
    ensures !AlwaysRight(runs, kvas, hash, nReduce, id)
  {
    hide AfterRuns, Part;
    var cut := if EverCompleted(runs, id) then Writing(0) else Emptying(0);
    var runs' := CutThere(runs, cut);
    ShapeSettles(runs, runs', kvas, id);
    if EverCompleted(runs, id) {
      var key := kvas[id][0].key;
      var r := Partition(hash, nReduce, key);
      LastEmptied(map[], runs', kvas, hash, nReduce, id, r);
      SomethingInPart(kvas[id], hash, nReduce, 0);
    } else {
      NeverWritten(map[], runs', kvas, hash, nReduce, id);
    }
    assert !TaskFilesRight(AfterRuns(map[], runs', kvas, hash, nReduce), kvas, hash, nReduce, id);
  }

  /**
   The files of a map task are right, for any leftovers and any points at which runs are cut short,
   if and only if its last run came to its end, or it emits nothing and some run did.
   */
  lemma FilesRightIff(runs: seq<MapRun>, kvas: seq<seq<KeyValue>>, hash: Hash, nReduce: nat, id: nat)
    requires nReduce > 0 && WfRuns(runs, kvas) && id < |kvas|
    ensures AlwaysRight(runs, kvas, hash, nReduce, id) <==> Settled(runs, kvas, id)
  {
    hide AfterRuns, TaskFilesRight;
    if Settled(runs, kvas, id) {
      forall start, runs' | SameShape(runs, runs') && WfRuns(runs', kvas)
        ensures TaskFilesRight(AfterRuns(start, runs', kvas, hash, nReduce), kvas, hash, nReduce, id)
      {
        ShapeSettles(runs, runs', kvas, id);
        FilesOfTask(start, runs', kvas, hash, nReduce, id);
      }
    } else {
      UnsettledGoesWrong(runs, kvas, hash, nReduce, id);
    }
  }

  /**
   The distributed job prints the lines of the sequential program, each as often: for any map
   function, hash and leftover files, and any order, repetition and failure of map runs after which
   every map task is settled.
   */
  lemma DistributedIsSequential(reducef: ReduceFunction, kvas: seq<seq<KeyValue>>, hash: Hash, nReduce: nat,
                                start: Files, runs: seq<MapRun>, outs: seq<seq<string>>, whole: seq<string>)
    requires nReduce > 0 && Symmetric(reducef)
    requires WfRuns(runs, kvas) && forall id: nat :: id < |kvas| ==> Settled(runs, kvas, id)
    requires |outs| == nReduce
    requires var files := AfterRuns(start, runs, kvas, hash, nReduce);
             forall r: nat :: r < nReduce ==>
               && (forall m: nat :: m < |kvas| ==> (m, r) in files)
               && IsOutput(reducef, Gather(files, |kvas|, r), outs[r])
    requires IsOutput(reducef, Emitted(kvas, |kvas|), whole)
    ensures multiset(Concat(outs)) == multiset(whole)
  {
    hide IsOutput, Symmetric, Part, Emitted, Concat;
    var files, all := AfterRuns(start, runs, kvas, hash, nReduce), Emitted(kvas, |kvas|);
    forall r: nat | r < nReduce
      ensures IsOutput(reducef, Part(all, hash, nReduce, r), outs[r])
    {
      forall m: nat | m < |kvas|
        ensures (m, r) in files && files[(m, r)] == Part(kvas[m], hash, nReduce, r)
      {
        FilesOfTask(start, runs, kvas, hash, nReduce, m);
      }
      GatherIsPart(files, kvas, hash, nReduce, r, |kvas|);
    }
    PartsAreSequential(reducef, all, hash, nReduce, outs, whole);
  }

  // ---------------------------------------------------------------- reduce runs

  /**
   A run of a reduce task, with the lines it prints or was to print: one that is cut short stops
   before it creates the output file, or after writing some of the lines.
   */
  datatype ReduceRun = Printed(lines: seq<string>) | StoppedEarly | StoppedPrinting(lines: seq<string>, j: nat)

  function AfterReduce(out: Option<seq<string>>, run: ReduceRun): Option<seq<string>> {
    match run
    case Printed(lines) => Some(lines)
    case StoppedEarly => out
    case StoppedPrinting(lines, j) => Some(if j < |lines| then lines[..j] else lines)
  }

  function AfterReduces(start: Option<seq<string>>, runs: seq<ReduceRun>): Option<seq<string>> {
    if runs == [] then start else AfterReduce(AfterReduces(start, runs[..|runs| - 1]), runs[|runs| - 1])
  }

  /** Every run prints an output of the pairs it reads. */
  ghost predicate WfReduces(reducef: ReduceFunction, part: seq<KeyValue>, runs: seq<ReduceRun>) {
    forall k :: 0 <= k < |runs| && !runs[k].StoppedEarly? ==> IsOutput(reducef, part, runs[k].lines)
  }

  predicate EverPrinted(runs: seq<ReduceRun>) {
    exists k :: 0 <= k < |runs| && runs[k].Printed?
  }

  /** The last run came to its end, or there is nothing to print and some run did. */
  predicate PrintSettled(part: seq<KeyValue>, runs: seq<ReduceRun>) {
    (runs != [] && runs[|runs| - 1].Printed?) || (part == [] && EverPrinted(runs))
  }

  ghost predicate OutRight(reducef: ReduceFunction, part: seq<KeyValue>, out: Option<seq<string>>) {
    out.Some? && IsOutput(reducef, part, out.value)
  }

  ghost predicate SameReduces(runs: seq<ReduceRun>, runs': seq<ReduceRun>) {
    |runs| == |runs'| && forall k :: 0 <= k < |runs| ==> runs[k].Printed? == runs'[k].Printed?
  }

  /** No pairs, no lines; and some line for some pair. */
  lemma LinesIffPairs(reducef: ReduceFunction, part: seq<KeyValue>, lines: seq<string>)
    requires IsOutput(reducef, part, lines)
    ensures lines == [] <==> part == []
  {
    var sorted :| IsArrangement(sorted, part) && lines == Lines(Grouped(reducef, sorted, 0));
    assert |multiset(sorted)| == |multiset(part)|;
    LinesFrom(reducef, sorted, 0);
  }

  lemma {:induction false} ReduceOutput(reducef: ReduceFunction, part: seq<KeyValue>, start: Option<seq<string>>,
                                        runs: seq<ReduceRun>)
    requires WfReduces(reducef, part, runs) && PrintSettled(part, runs)
    ensures OutRight(reducef, part, AfterReduces(start, runs))
  {
    hide IsOutput;
    var before, run := runs[..|runs| - 1], runs[|runs| - 1];
    if !run.Printed? {
      ReduceOutput(reducef, part, start, before);
      var out := AfterReduces(start, before);
      LinesIffPairs(reducef, part, out.value);
      if run.StoppedPrinting? {
        LinesIffPairs(reducef, part, run.lines);
      }
    }
  }

  /** The output is right, whatever was there at first and wherever runs were cut short. */
  ghost predicate AlwaysPrinted(reducef: ReduceFunction, part: seq<KeyValue>, runs: seq<ReduceRun>) {
    forall start, runs' | SameReduces(runs, runs') && WfReduces(reducef, part, runs') ::
      OutRight(reducef, part, AfterReduces(start, runs'))
  }

  /** All cuts moved before the creation of the file. */
  function AllStopEarly(runs: seq<ReduceRun>): seq<ReduceRun> {
    seq(|runs|, k requires 0 <= k < |runs| => if runs[k].Printed? then runs[k] else StoppedEarly)
  }

  lemma {:induction false} NothingPrinted(runs: seq<ReduceRun>)
    requires forall k :: 0 <= k < |runs| ==> runs[k] == StoppedEarly
    ensures AfterReduces(None, runs) == None
  {
    if runs != [] {
      NothingPrinted(runs[..|runs| - 1]);
    }
  }

  lemma UnsettledPrintsWrong(reducef: ReduceFunction, part: seq<KeyValue>, runs: seq<ReduceRun>)
    requires WfReduces(reducef, part, runs) && !PrintSettled(part, runs)
    ensures !AlwaysPrinted(reducef, part, runs)
  {
    hide IsOutput;
    if EverPrinted(runs) {
      var k :| 0 <= k < |runs| && runs[k].Printed?;
      var runs' := runs[|runs| - 1 := StoppedPrinting(runs[k].lines, 0)];
      LinesIffPairs(reducef, part, runs[k].lines);
      assert AfterReduces(None, runs') == Some([]);
      if IsOutput(reducef, part, []) {
        LinesIffPairs(reducef, part, []);
      }
      assert !OutRight(reducef, part, AfterReduces(None, runs'));
    } else {
      var runs' := AllStopEarly(runs);
      NothingPrinted(runs');
      assert !OutRight(reducef, part, AfterReduces(None, runs'));
    }
  }

  /**
   The output of a reduce task is right, for any leftover and any points at which runs are cut short,
   if and only if its last run came to its end, or there is nothing to print and some run did.
   */
  lemma OutputRightIff(reducef: ReduceFunction, part: seq<KeyValue>, runs: seq<ReduceRun>)
    requires WfReduces(reducef, part, runs)
    ensures AlwaysPrinted(reducef, part, runs) <==> PrintSettled(part, runs)
  {
    hide IsOutput, AfterReduces;
    if PrintSettled(part, runs) {
      forall start, runs' | SameReduces(runs, runs') && WfReduces(reducef, part, runs')
        ensures OutRight(reducef, part, AfterReduces(start, runs'))
      {
        ReduceOutput(reducef, part, start, runs');
      }
    } else {
      UnsettledPrintsWrong(reducef, part, runs);
    }
  }
}
