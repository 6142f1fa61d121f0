/**
 Coordinator, workers and files together, one file operation at a time: when what Done announces is
 the output of the sequential program.
 */
module MapReduceRun {
  import opened Wrappers
  import opened MapReduce
  import opened MapReduceJob
  import opened TaskRuns
  import C = Coordination

  /** The map output of each input file, and the functions of the job. */
  datatype Job = Job(names: seq<string>, kvas: seq<seq<KeyValue>>, reducef: ReduceFunction, hash: Hash, nReduce: nat)

  ghost predicate WfJob(job: Job) {
    |job.names| == |job.kvas| && job.nReduce > 0
  }

  /**
   What a worker is at: a map task it was handed; the same after `done` file operations; a reduce task,
   with the pairs of the first `next` files; printing, after `done` lines; or a run that came to its end
   and is to be reported.
   */
  datatype Worker =
    | Handed(id: nat)
    | Mapping(id: nat, done: nat)
    | Reading(id: nat, pairs: seq<KeyValue>, next: nat)
    | Printing(id: nat, lines: seq<string>, done: nat)
    | Reporting(kind: C.Kind, id: nat)

  /** `mapped` and `reduced` are history: the tasks whose last run to begin writing came to its end. */
  datatype System = System(
    c: C.State,
    files: Files,
    outs: map<nat, seq<string>>,
    workers: multiset<Worker>,
    mapped: set<nat>,
    reduced: set<nat>)

  /** A run of a task begins to write with its first os.Create; a worker may die at any point. */
  datatype Step =
    | Ask
    | Fire(kind: C.Kind, id: nat)
    | Report(kind: C.Kind, id: nat)
    | Dies(w: Worker)
    | MapBegins(id: nat)
    | MapWrites(id: nat, done: nat)
    | MapEnds(id: nat)
    | ReduceReads(id: nat, pairs: seq<KeyValue>, next: nat)
    | ReduceBegins(id: nat, pairs: seq<KeyValue>, lines: seq<string>)
    | ReducePrints(id: nat, lines: seq<string>, done: nat)
    | ReduceEnds(id: nat, lines: seq<string>)

  // ---------------------------------------------------------------- file operations

  /** DoMap creates every partition file empty and then appends one pair after the other. */
  function Writes(job: Job, id: nat): nat
    requires id < |job.kvas|
  {
    job.nReduce + |job.kvas[id]|
  }

  function AfterWrite(job: Job, files: Files, id: nat, done: nat): Files
    requires WfJob(job) && id < |job.kvas| && done < Writes(job, id)
  {
    if done < job.nReduce then files[(id, done) := []]
    else
      var kv := job.kvas[id][done - job.nReduce];
      var f := (id, Partition(job.hash, job.nReduce, kv.key));
      files[f := (if f in files then files[f] else []) + [kv]]
  }

  /** A line is written at the position of its writer; a gap before it is left blank. */
  function Put(out: seq<string>, at: nat, line: string): seq<string> {
    if at < |out| then out[at := line] else out + seq(at - |out|, _ => "") + [line]
  }

  function CutAfter(job: Job, files: Files, id: nat, done: nat): Files
    requires WfJob(job) && id < |job.kvas| && done <= Writes(job, id)
  {
    CutAt(files, id, job.nReduce, job.hash, job.kvas[id],
        if done <= job.nReduce then Emptying(done) else Writing(done - job.nReduce))
  }

  /** A run of a map task that is left alone goes through the points at which it can be cut short. */
  lemma WritesAreCuts(job: Job, files: Files, id: nat, done: nat)
    requires WfJob(job) && id < |job.kvas| && done < Writes(job, id)
    ensures AfterWrite(job, CutAfter(job, files, id, done), id, done) == CutAfter(job, files, id, done + 1)
    ensures CutAfter(job, files, id, 0) == files
    ensures CutAfter(job, files, id, Writes(job, id)) == Mapped(files, id, job.nReduce, job.hash, job.kvas[id])
  {
    hide Emptied, Mapped, Partition;
    EmptiedStepwise(files, id, job.hash);
    var kva := job.kvas[id];
    assert kva[..0] == [] && kva[..|kva|] == kva;
    if done >= job.nReduce {
      var j := done - job.nReduce;
      assert kva[..j + 1] == kva[..j] + [kva[j]];
      OneMorePair(files, id, job.nReduce, job.hash, kva[..j], kva[j]);
    }
  }

  // ---------------------------------------------------------------- steps

  /** The worker that takes the step, when one does. */
  function Mover(job: Job, step: Step): Option<Worker>
  {
    match step
    case Ask => None
    case Fire(_, _) => None
    case Report(kind, id) => Some(Reporting(kind, id))
    case Dies(w) => Some(w)
    case MapBegins(id) => Some(Handed(id))
    case MapWrites(id, done) => Some(Mapping(id, done))
    case MapEnds(id) => if id < |job.kvas| then Some(Mapping(id, Writes(job, id))) else None
    case ReduceReads(id, pairs, next) => Some(Reading(id, pairs, next))
    case ReduceBegins(id, pairs, _) => Some(Reading(id, pairs, |job.kvas|))
    case ReducePrints(id, lines, done) => Some(Printing(id, lines, done))
    case ReduceEnds(id, lines) => Some(Printing(id, lines, |lines|))
  }

  /** What the code allows. */
  ghost predicate Enabled(job: Job, s: System, step: Step) {
    && (Mover(job, step).Some? ==> Mover(job, step).value in s.workers)
    && match step
       case Fire(kind, id) => C.Enabled(s.c, C.Fire(kind, id))
       case Report(kind, id) => C.Enabled(s.c, C.Report(kind, id))
       case MapBegins(id) => id < |job.kvas|
       case MapWrites(id, done) => id < |job.kvas| && done < Writes(job, id)
       case MapEnds(id) => id < |job.kvas|
       case ReduceReads(id, _, next) => next < |job.kvas| && (next, id) in s.files
       case ReduceBegins(_, pairs, lines) => IsOutput(job.reducef, pairs, lines)
       case ReducePrints(_, lines, done) => done < |lines|
       case _ => true
  }

  /** The worker a reply makes. */
  function Given(reply: C.Reply): multiset<Worker> {
    match reply
    case MapReply(_, _, id) => multiset{Handed(id)}
    case ReduceReply(_, id) => multiset{Reading(id, [], 0)}
    case _ => multiset{}
  }

  function Instead(workers: multiset<Worker>, w: Worker, w': Worker): multiset<Worker> {
    workers - multiset{w} + multiset{w'}
  }

  ghost function Next(job: Job, s: System, step: Step): System
    requires WfJob(job) && |s.c.maps| == |job.names| && Enabled(job, s, step)
  {
    match step
    case Ask =>
      var (c, reply) := C.OnGetTask(s.c, job.names);
      s.(c := c, workers := s.workers + Given(reply))
    case Fire(kind, id) => s.(c := C.OnStraggler(s.c, kind, id))
    case Report(kind, id) =>
      s.(c := C.OnMarkComplete(s.c, kind, id), workers := s.workers - multiset{Reporting(kind, id)})
    case Dies(w) => s.(workers := s.workers - multiset{w})
    case MapBegins(id) =>
      s.(files := AfterWrite(job, s.files, id, 0), workers := Instead(s.workers, Handed(id), Mapping(id, 1)),
         mapped := s.mapped - {id})
    case MapWrites(id, done) =>
      s.(files := AfterWrite(job, s.files, id, done),
         workers := Instead(s.workers, Mapping(id, done), Mapping(id, done + 1)))
    case MapEnds(id) =>
      s.(workers := Instead(s.workers, Mapping(id, Writes(job, id)), Reporting(C.MapTask, id)),
         mapped := s.mapped + {id})
    case ReduceReads(id, pairs, next) =>
      s.(workers := Instead(s.workers, Reading(id, pairs, next), Reading(id, pairs + s.files[(next, id)], next + 1)))
    case ReduceBegins(id, pairs, lines) =>
      s.(outs := s.outs[id := []],
         workers := Instead(s.workers, Reading(id, pairs, |job.kvas|), Printing(id, lines, 0)),
         reduced := s.reduced - {id})
    case ReducePrints(id, lines, done) =>
      s.(outs := s.outs[id := Put(if id in s.outs then s.outs[id] else [], done, lines[done])],
         workers := Instead(s.workers, Printing(id, lines, done), Printing(id, lines, done + 1)))
    case ReduceEnds(id, lines) =>
      s.(workers := Instead(s.workers, Printing(id, lines, |lines|), Reporting(C.ReduceTask, id)),
         reduced := s.reduced + {id})
  }

  // ---------------------------------------------------------------- premises

  /** What runs of a completed task may still do. */
  datatype Late = AnyLate | NoLateCuts | NoLateWrites

  /** What is taken for granted about the runs of one kind of task. */
  datatype Discipline = Discipline(freshReports: bool, late: Late, oneWriter: bool)

  const ORDERLY := Discipline(true, NoLateWrites, true)

  datatype Premise = Premise(maps: Discipline, reduces: Discipline)

  const ALL_ORDERLY := Premise(ORDERLY, ORDERLY)

  predicate WritesTo(w: Worker, kind: C.Kind, id: nat) {
    match w
    case Mapping(m, _) => kind == C.MapTask && m == id
    case Printing(r, _, _) => kind == C.ReduceTask && r == id
    case _ => false
  }

  /** Some run of the task has begun to write and has not come to its end. */
  ghost predicate BeingWritten(s: System, kind: C.Kind, id: nat) {
    exists w :: w in s.workers && WritesTo(w, kind, id)
  }

  ghost predicate Finished(s: System, kind: C.Kind, id: nat) {
    C.InRange(s.c, kind, id) && C.StatusOf(s.c, kind, id) == C.Completed
  }

  predicate Begins(step: Step, kind: C.Kind, id: nat) {
    match step
    case MapBegins(m) => kind == C.MapTask && m == id
    case ReduceBegins(r, _, _) => kind == C.ReduceTask && r == id
    case _ => false
  }

  /** A task is reported only when its last run to begin writing has come to its end and no other is writing. */
  ghost predicate FreshReport(s: System, kind: C.Kind, step: Step) {
    step.Report? && step.kind == kind ==>
      step.id in (if kind == C.MapTask then s.mapped else s.reduced) && !BeingWritten(s, kind, step.id)
  }

  /** No run of a completed task that has begun to write is cut short. */
  ghost predicate NoLateCut(s: System, kind: C.Kind, step: Step) {
    forall id :: step.Dies? && WritesTo(step.w, kind, id) ==> !Finished(s, kind, id)
  }

  /** No run of a completed task begins to write. */
  ghost predicate NoLateWrite(s: System, kind: C.Kind, step: Step) {
    forall id :: Begins(step, kind, id) ==> !Finished(s, kind, id)
  }

  /** No run of a task begins to write while another run of it writes. */
  ghost predicate OneWriter(s: System, kind: C.Kind, step: Step) {
    forall id :: Begins(step, kind, id) ==> !BeingWritten(s, kind, id)
  }

  ghost predicate Follows(d: Discipline, s: System, kind: C.Kind, step: Step) {
    && (d.freshReports ==> FreshReport(s, kind, step))
    && (d.late == NoLateCuts ==> NoLateCut(s, kind, step))
    && (d.late == NoLateWrites ==> NoLateWrite(s, kind, step))
    && (d.oneWriter ==> OneWriter(s, kind, step))
  }

  ghost predicate Admits(premise: Premise, s: System, step: Step) {
    Follows(premise.maps, s, C.MapTask, step) && Follows(premise.reduces, s, C.ReduceTask, step)
  }

  ghost function Begin(job: Job, files: Files, outs: map<nat, seq<string>>): System {
    System(C.Initial(|job.names|, job.nReduce), files, outs, multiset{}, {}, {})
  }

  lemma NextKeepsSizes(job: Job, s: System, step: Step)
    requires WfJob(job) && |s.c.maps| == |job.names| && Enabled(job, s, step)
    ensures |Next(job, s, step).c.maps| == |s.c.maps| && |Next(job, s, step).c.reduces| == |s.c.reduces|
  {
    hide AfterWrite, Put, IsOutput, C.OnGetTask, C.OnStraggler, C.OnMarkComplete;
    match step
    case Ask => C.CompletedStays(s.c, job.names, C.Ask, C.MapTask, 0);
    case Fire(kind, id) => C.CompletedStays(s.c, job.names, C.Fire(kind, id), kind, id);
    case Report(kind, id) => C.CompletedStays(s.c, job.names, C.Report(kind, id), kind, id);
    case _ => {}
  }

  /** The system after a run on leftover files, or None when some step of it could not happen. */
  ghost function Run(premise: Premise, job: Job, files: Files, outs: map<nat, seq<string>>,
                     steps: seq<Step>): (s: Option<System>)
    requires WfJob(job)
    ensures s.Some? ==> |s.value.c.maps| == |job.names| && |s.value.c.reduces| == job.nReduce
  {
    if steps == [] then Some(Begin(job, files, outs))
    else
      var before := Run(premise, job, files, outs, steps[..|steps| - 1]);
      var step := steps[|steps| - 1];
      if before.Some? && Enabled(job, before.value, step) && Admits(premise, before.value, step) then
        NextKeepsSizes(job, before.value, step);
        Some(Next(job, before.value, step))
      else None
  }

  // ---------------------------------------------------------------- the run invariant

  /** What reduce task r is to read and to print. */
  ghost function Whole(job: Job, k: nat, r: nat): seq<KeyValue>
    requires WfJob(job) && k <= |job.kvas|
  {
    Part(Emitted(job.kvas, k), job.hash, job.nReduce, r)
  }

  ghost predicate OutputRight(job: Job, outs: map<nat, seq<string>>, r: nat)
    requires WfJob(job)
  {
    r in outs && IsOutput(job.reducef, Whole(job, |job.kvas|, r), outs[r])
  }

  /** The files of a map task hold what `done` operations leave in them. */
  ghost predicate FilesAt(job: Job, files: Files, id: nat, done: nat)
    requires WfJob(job) && id < |job.kvas| && done <= Writes(job, id)
  {
    forall r: nat :: r < job.nReduce && r < done ==>
      && (id, r) in files
      && files[(id, r)] == Part(job.kvas[id][..if done < job.nReduce then 0 else done - job.nReduce],
                                job.hash, job.nReduce, r)
  }

  /** Tasks are completed only when their files are written, and read only when every map is completed. */
  ghost predicate Coordinated(s: System) {
    && C.Sound(s.c)
    && (forall w :: w in s.workers && w.Reading? ==> C.AllCompleted(s.c.maps))
    && (forall id: nat :: id < |s.c.maps| && s.c.maps[id] == C.Completed ==> id in s.mapped)
    && (forall r: nat :: r < |s.c.reduces| && s.c.reduces[r] == C.Completed ==> r in s.reduced)
  }

  ghost predicate MapFits(job: Job, s: System, id: nat, done: nat)
    requires WfJob(job)
  {
    id < |job.kvas| && 0 < done <= Writes(job, id) && id !in s.mapped && FilesAt(job, s.files, id, done)
  }

  ghost predicate PrintFits(job: Job, s: System, id: nat, lines: seq<string>, done: nat)
    requires WfJob(job)
  {
    && IsOutput(job.reducef, Whole(job, |job.kvas|, id), lines)
    && id !in s.reduced && id in s.outs && done <= |lines| && s.outs[id] == lines[..done]
  }

  /** A worker's own state agrees with the files. */
  ghost predicate Fits(job: Job, s: System, w: Worker)
    requires WfJob(job)
  {
    match w
    case Mapping(id, done) => MapFits(job, s, id, done)
    case Reading(id, pairs, next) => id < job.nReduce && next <= |job.kvas| && pairs == Whole(job, next, id)
    case Printing(id, lines, done) => PrintFits(job, s, id, lines, done)
    case _ => true
  }

  /** No two runs of one task write. */
  ghost predicate WritersApart(workers: multiset<Worker>) {
    && (forall w, kind, id :: w in workers && WritesTo(w, kind, id) ==> workers[w] == 1)
    && (forall w, w', kind, id ::
          w in workers && w' in workers && WritesTo(w, kind, id) && WritesTo(w', kind, id) ==> w == w')
  }

  ghost predicate Written(job: Job, s: System)
    requires WfJob(job)
  {
    && WritersApart(s.workers)
    && (forall w :: w in s.workers ==> Fits(job, s, w))
    && (forall id :: id in s.mapped ==>
          id < |job.kvas| && TaskFilesRight(s.files, job.kvas, job.hash, job.nReduce, id))
    && (forall r :: r in s.reduced ==> OutputRight(job, s.outs, r))
  }

  // ---------------------------------------------------------------- workers

  lemma InsteadIs(workers: multiset<Worker>, w: Worker, w': Worker)
    requires w in workers && w != w'
    ensures var workers' := Instead(workers, w, w');
            && workers'[w] == workers[w] - 1 && workers'[w'] == workers[w'] + 1
            && forall x :: x != w && x != w' ==> workers'[x] == workers[x]
  {
  }

  lemma OnlyOne(w: Worker, w': Worker)
    ensures Instead(multiset{w}, w, w') == multiset{w'}
  {
  }

  /** One worker moves on: it does not begin to write what another worker writes. */
  lemma StaysApart(workers: multiset<Worker>, w: Worker, w': Worker)
    requires WritersApart(workers) && w in workers && w != w'
    requires forall x, kind, id :: x in workers && x != w && WritesTo(w', kind, id) ==> !WritesTo(x, kind, id)
    requires forall kind, id :: WritesTo(w', kind, id) && WritesTo(w, kind, id) ==> workers[w] == 1
    ensures WritersApart(Instead(workers, w, w'))
  {
    InsteadIs(workers, w, w');
    hide WritesTo, Instead;
  }

  lemma FewerStayApart(workers: multiset<Worker>, w: Worker)
    requires WritersApart(workers)
    ensures WritersApart(workers - multiset{w})
  {
    hide WritesTo;
  }

  // ---------------------------------------------------------------- writing the files of a map task

  lemma WriteAdvances(job: Job, files: Files, id: nat, done: nat)
    requires WfJob(job) && id < |job.kvas| && done < Writes(job, id) && FilesAt(job, files, id, done)
    ensures FilesAt(job, AfterWrite(job, files, id, done), id, done + 1)
  {
    hide Part, Partition;
    var kva := job.kvas[id];
    assert kva[..0] == [];
    forall r: nat
      ensures Part([], job.hash, job.nReduce, r) == []
    {
      NothingInPart(job.hash, job.nReduce, r);
    }
    if done >= job.nReduce {
      var j := done - job.nReduce;
      assert kva[..j + 1] == kva[..j] + [kva[j]];
      forall r: nat
        ensures Part(kva[..j + 1], job.hash, job.nReduce, r)
             == if Partition(job.hash, job.nReduce, kva[j].key) == r
                then Part(kva[..j], job.hash, job.nReduce, r) + [kva[j]] else Part(kva[..j], job.hash, job.nReduce, r)
      {
        PartOneMore(kva[..j], kva[j], job.hash, job.nReduce, r);
      }
    }
  }

  lemma WriteLeavesOthers(job: Job, files: Files, id: nat, done: nat, m: nat)
    requires WfJob(job) && id < |job.kvas| && done < Writes(job, id) && m < |job.kvas| && m != id
    ensures var files' := AfterWrite(job, files, id, done);
            && (forall d: nat :: d <= Writes(job, m) && FilesAt(job, files, m, d) ==> FilesAt(job, files', m, d))
            && (TaskFilesRight(files, job.kvas, job.hash, job.nReduce, m) ==>
                  TaskFilesRight(files', job.kvas, job.hash, job.nReduce, m))
  {
    hide Part, Partition;
  }

  lemma AllWrittenIsRight(job: Job, files: Files, id: nat)
    requires WfJob(job) && id < |job.kvas| && FilesAt(job, files, id, Writes(job, id))
    ensures TaskFilesRight(files, job.kvas, job.hash, job.nReduce, id)
  {
    hide Part;
    assert job.kvas[id][..|job.kvas[id]|] == job.kvas[id];
  }

  // ---------------------------------------------------------------- every step keeps the invariant

  lemma SoundCounts(c: C.State)
    requires C.Sound(c)
    ensures c.mapsLeft == C.Uncompleted(c.maps) && c.reducesLeft == C.Uncompleted(c.reduces)
  {
  }

  /** Asking completes nothing, and hands out a reduce task only when every map is completed. */
  lemma AskOutcome(c: C.State, names: seq<string>)
    requires C.Sound(c) && |names| == |c.maps|
    ensures var (c', reply) := C.OnGetTask(c, names);
            && C.Sound(c') && |c'.maps| == |c.maps| && |c'.reduces| == |c.reduces|
            && (forall id :: 0 <= id < |c.maps| ==> (c'.maps[id] == C.Completed <==> c.maps[id] == C.Completed))
            && (forall r :: 0 <= r < |c.reduces| ==> (c'.reduces[r] == C.Completed <==> c.reduces[r] == C.Completed))
            && (reply.ReduceReply? ==> C.AllCompleted(c.maps))
  {
    C.AskKeepsSound(c, names);
    SoundCounts(c);
    C.NoneUncompleted(c.maps);
    hide C.Sound;
  }

  lemma AskKeepsCoordinated(job: Job, s: System)
    requires WfJob(job) && |s.c.maps| == |job.names| && Coordinated(s)
    ensures Coordinated(Next(job, s, Ask))
  {
    hide C.Sound, C.OnGetTask;
    AskOutcome(s.c, job.names);
  }

  lemma FireKeepsCoordinated(job: Job, s: System, kind: C.Kind, id: nat)
    requires WfJob(job) && |s.c.maps| == |job.names| && Coordinated(s) && Enabled(job, s, Fire(kind, id))
    ensures Coordinated(Next(job, s, Fire(kind, id)))
  {
    hide C.Sound;
    C.FireKeepsSound(s.c, kind, id);
  }

  lemma ReportKeepsCoordinated(job: Job, s: System, kind: C.Kind, id: nat)
    requires WfJob(job) && |s.c.maps| == |job.names| && Coordinated(s)
    requires Enabled(job, s, Report(kind, id)) && FreshReport(s, kind, Report(kind, id))
    ensures Coordinated(Next(job, s, Report(kind, id)))
  {
    hide C.Sound, BeingWritten;
    C.ReportKeepsSound(s.c, kind, id);
  }

  /** A worker that moves on completes nothing, and reads only if it read before. */
  lemma WorkerKeepsCoordinated(s: System, s': System, w: Worker, w': Worker)
    requires Coordinated(s) && s'.c == s.c && w in s.workers && s'.workers == Instead(s.workers, w, w')
    requires w'.Reading? ==> w.Reading?
    requires forall id :: id in s.mapped && id !in s'.mapped ==> !Finished(s, C.MapTask, id)
    requires forall r :: r in s.reduced && r !in s'.reduced ==> !Finished(s, C.ReduceTask, r)
    ensures Coordinated(s')
  {
    hide C.Sound, C.AllCompleted;
  }

  /** The files stay as they are, and whoever is new agrees with them. */
  lemma SameDisk(job: Job, s: System, s': System)
    requires WfJob(job) && Written(job, s) && WritersApart(s'.workers)
    requires s'.files == s.files && s'.outs == s.outs && s'.mapped == s.mapped && s'.reduced == s.reduced
    requires forall w :: w in s'.workers ==> w in s.workers || Fits(job, s', w)
    ensures Written(job, s')
  {
    hide TaskFilesRight, OutputRight, WritersApart, FilesAt, IsOutput, Whole;
  }

  lemma GivenInRange(c: C.State, names: seq<string>)
    requires |names| == |c.maps|
    ensures var reply := C.OnGetTask(c, names).1; reply.ReduceReply? ==> reply.id < |c.reduces|
  {
  }

  lemma GivenStaysApart(workers: multiset<Worker>, reply: C.Reply)
    requires WritersApart(workers)
    ensures WritersApart(workers + Given(reply))
  {
    assert forall w, kind, id :: w in Given(reply) ==> !WritesTo(w, kind, id);
    hide Given, WritesTo;
  }

  lemma AskKeepsWritten(job: Job, s: System)
    requires WfJob(job) && |s.c.maps| == |job.names| && |s.c.reduces| == job.nReduce && Written(job, s)
    ensures Written(job, Next(job, s, Ask))
  {
    hide C.OnGetTask, TaskFilesRight, OutputRight, FilesAt, IsOutput, Part, WritersApart;
    forall r: nat
      ensures Whole(job, 0, r) == []
    {
      NothingInPart(job.hash, job.nReduce, r);
    }
    GivenInRange(s.c, job.names);
    assert WritersApart(s.workers);
    GivenStaysApart(s.workers, C.OnGetTask(s.c, job.names).1);
    SameDisk(job, s, Next(job, s, Ask));
  }

  lemma GoneKeepsWritten(job: Job, s: System, s': System, w: Worker)
    requires WfJob(job) && Written(job, s)
    requires s'.files == s.files && s'.outs == s.outs && s'.mapped == s.mapped && s'.reduced == s.reduced
    requires s'.workers == s.workers - multiset{w}
    ensures Written(job, s')
  {
    hide TaskFilesRight, OutputRight, WritersApart, Fits;
    assert WritersApart(s.workers);
    FewerStayApart(s.workers, w);
    SameDisk(job, s, s');
  }

  lemma DiesKeepsCoordinated(job: Job, s: System, w: Worker)
    requires WfJob(job) && |s.c.maps| == |job.names| && Coordinated(s) && Enabled(job, s, Dies(w))
    ensures Coordinated(Next(job, s, Dies(w)))
  {
    hide C.Sound, C.AllCompleted;
  }

  /** A worker that goes on writing, or begins with nobody else writing, is the only one of its task to write. */
  lemma OthersWriteElsewhere(workers: multiset<Worker>, w: Worker, w': Worker, kind: C.Kind, id: nat)
    requires WritersApart(workers) && w in workers && w != w' && WritesTo(w', kind, id)
    requires WritesTo(w, kind, id) || forall x :: x in workers ==> !WritesTo(x, kind, id)
    ensures WritersApart(Instead(workers, w, w'))
    ensures forall x :: x in Instead(workers, w, w') && x != w' ==> x in workers && !WritesTo(x, kind, id)
  {
    InsteadIs(workers, w, w');
    forall x, k, i | x in workers && x != w && WritesTo(w', k, i)
      ensures !WritesTo(x, k, i)
    {
      assert k == kind && i == id;
    }
    StaysApart(workers, w, w');
  }

  lemma MapFitsStays(job: Job, s: System, s': System, id: nat, done: nat, m: nat, d: nat)
    requires WfJob(job) && id < |job.kvas| && done < Writes(job, id) && m != id && MapFits(job, s, m, d)
    requires s'.files == AfterWrite(job, s.files, id, done) && s'.mapped == s.mapped - {id}
    ensures MapFits(job, s', m, d)
  {
    hide AfterWrite, FilesAt, TaskFilesRight;
    WriteLeavesOthers(job, s.files, id, done, m);
  }

  lemma NoFilesYet(job: Job, files: Files, id: nat)
    requires WfJob(job) && id < |job.kvas|
    ensures FilesAt(job, files, id, 0)
  {
  }

  lemma MapWriteKeepsWritten(job: Job, s: System, s': System, w: Worker, id: nat, done: nat)
    requires WfJob(job) && Written(job, s) && w in s.workers && id < |job.kvas| && done < Writes(job, id)
    requires w == Mapping(id, done) || (w == Handed(id) && done == 0 && !BeingWritten(s, C.MapTask, id))
    requires s' == s.(files := AfterWrite(job, s.files, id, done),
                      workers := Instead(s.workers, w, Mapping(id, done + 1)), mapped := s.mapped - {id})
    ensures Written(job, s')
  {
    hide AfterWrite, FilesAt, TaskFilesRight, OutputRight, WritersApart, IsOutput, Whole, Instead;
    OthersWriteElsewhere(s.workers, w, Mapping(id, done + 1), C.MapTask, id);
    assert Fits(job, s, w);
    assert FilesAt(job, s.files, id, 0) by { NoFilesYet(job, s.files, id); }
    WriteAdvances(job, s.files, id, done);
    forall x | x in s'.workers
      ensures Fits(job, s', x)
    {
      if x != Mapping(id, done + 1) {
        assert Fits(job, s, x);
        if x.Mapping? {
          MapFitsStays(job, s, s', id, done, x.id, x.done);
        }
      }
    }
    forall m | m in s'.mapped
      ensures m < |job.kvas| && TaskFilesRight(s'.files, job.kvas, job.hash, job.nReduce, m)
    {
      WriteLeavesOthers(job, s.files, id, done, m);
    }
  }

  /** A run that came to its end leaves nobody writing its files. */
  lemma EndsApart(workers: multiset<Worker>, w: Worker, w': Worker, kind: C.Kind, id: nat)
    requires WritersApart(workers) && w in workers && WritesTo(w, kind, id) && w'.Reporting?
    ensures WritersApart(Instead(workers, w, w'))
    ensures forall x :: x in Instead(workers, w, w') && x != w' ==> x in workers && !WritesTo(x, kind, id)
  {
    InsteadIs(workers, w, w');
    StaysApart(workers, w, w');
  }
  // ---------------------------------------------------------------- reduce tasks

  lemma MapEndKeepsWritten(job: Job, s: System, id: nat)
    requires WfJob(job) && |s.c.maps| == |job.names| && Written(job, s) && Enabled(job, s, MapEnds(id))
    ensures Written(job, Next(job, s, MapEnds(id)))
  {
    hide FilesAt, TaskFilesRight, OutputRight, WritersApart, IsOutput, Whole, Instead;
    var w, w' := Mapping(id, Writes(job, id)), Reporting(C.MapTask, id);
    var s' := Next(job, s, MapEnds(id));
    assert Fits(job, s, w);
    AllWrittenIsRight(job, s.files, id);
    EndsApart(s.workers, w, w', C.MapTask, id);
    forall x | x in s'.workers
      ensures Fits(job, s', x)
    {
      assert x != w' ==> Fits(job, s, x);
    }
  }

  /** A reduce task is handed out only when the files it reads are right, so it reads what the maps emitted. */
  lemma ReadIsRight(job: Job, s: System, id: nat, pairs: seq<KeyValue>, next: nat)
    requires WfJob(job) && |s.c.maps| == |job.names| && Coordinated(s) && Written(job, s)
    requires Reading(id, pairs, next) in s.workers && next < |job.kvas|
    ensures (next, id) in s.files && pairs + s.files[(next, id)] == Whole(job, next + 1, id)
  {
    hide Part, C.Sound, WritersApart, OutputRight;
    assert Fits(job, s, Reading(id, pairs, next));
    assert s.c.maps[next] == C.Completed;
    assert TaskFilesRight(s.files, job.kvas, job.hash, job.nReduce, next);
    PartConcat(Emitted(job.kvas, next), job.kvas[next], job.hash, job.nReduce, id);
  }

  lemma ReadKeepsWritten(job: Job, s: System, id: nat, pairs: seq<KeyValue>, next: nat)
    requires WfJob(job) && |s.c.maps| == |job.names| && Coordinated(s) && Written(job, s)
    requires Enabled(job, s, ReduceReads(id, pairs, next))
    ensures Written(job, Next(job, s, ReduceReads(id, pairs, next)))
  {
    hide TaskFilesRight, OutputRight, FilesAt, IsOutput, Whole, WritersApart, Instead, Coordinated;
    var w, w' := Reading(id, pairs, next), Reading(id, pairs + s.files[(next, id)], next + 1);
    ReadIsRight(job, s, id, pairs, next);
    assert Fits(job, s, w);
    InsteadIs(s.workers, w, w');
    StaysApart(s.workers, w, w');
    SameDisk(job, s, Next(job, s, ReduceReads(id, pairs, next)));
  }

  lemma OtherOutputsStay(job: Job, s: System, s': System, id: nat, out: seq<string>)
    requires WfJob(job) && s'.outs == s.outs[id := out] && s'.reduced == s.reduced - {id}
    ensures forall r :: r != id && OutputRight(job, s.outs, r) ==> OutputRight(job, s'.outs, r)
    ensures forall r, lines, done ::
              r != id && PrintFits(job, s, r, lines, done) ==> PrintFits(job, s', r, lines, done)
  {
    hide IsOutput, Whole;
  }

  lemma PrintKeepsWritten(job: Job, s: System, s': System, w: Worker, w': Worker, out: seq<string>)
    requires WfJob(job) && Written(job, s) && w in s.workers && w'.Printing? && w != w'
    requires WritesTo(w, C.ReduceTask, w'.id) || !BeingWritten(s, C.ReduceTask, w'.id)
    requires s' == s.(outs := s.outs[w'.id := out], workers := Instead(s.workers, w, w'),
                      reduced := s.reduced - {w'.id})
    requires PrintFits(job, s', w'.id, w'.lines, w'.done)
    ensures Written(job, s')
  {
    hide FilesAt, TaskFilesRight, OutputRight, WritersApart, PrintFits, Whole, Instead;
    OthersWriteElsewhere(s.workers, w, w', C.ReduceTask, w'.id);
    OtherOutputsStay(job, s, s', w'.id, out);
    forall x | x in s'.workers
      ensures Fits(job, s', x)
    {
      if x != w' {
        assert Fits(job, s, x);
      }
    }
  }

  lemma BeginPrintsKeepsWritten(job: Job, s: System, id: nat, pairs: seq<KeyValue>, lines: seq<string>)
    requires WfJob(job) && |s.c.maps| == |job.names| && Written(job, s)
    requires Enabled(job, s, ReduceBegins(id, pairs, lines))
    requires OneWriter(s, C.ReduceTask, ReduceBegins(id, pairs, lines))
    ensures Written(job, Next(job, s, ReduceBegins(id, pairs, lines)))
  {
    hide FilesAt, TaskFilesRight, OutputRight, WritersApart, IsOutput, Whole, Instead, BeingWritten;
    var w := Reading(id, pairs, |job.kvas|);
    assert Fits(job, s, w);
    assert lines[..0] == [];
    PrintKeepsWritten(job, s, Next(job, s, ReduceBegins(id, pairs, lines)), w, Printing(id, lines, 0), []);
  }

  lemma GoesOnPrintingKeepsWritten(job: Job, s: System, id: nat, lines: seq<string>, done: nat)
    requires WfJob(job) && |s.c.maps| == |job.names| && Written(job, s)
    requires Enabled(job, s, ReducePrints(id, lines, done))
    ensures Written(job, Next(job, s, ReducePrints(id, lines, done)))
  {
    hide FilesAt, TaskFilesRight, OutputRight, WritersApart, IsOutput, Whole, Instead;
    var w := Printing(id, lines, done);
    assert Fits(job, s, w);
    assert lines[..done] + seq(0, _ => "") + [lines[done]] == lines[..done + 1];
    assert s.reduced - {id} == s.reduced;
    PrintKeepsWritten(job, s, Next(job, s, ReducePrints(id, lines, done)), w, Printing(id, lines, done + 1),
        lines[..done + 1]);
  }

  lemma PrintEndKeepsWritten(job: Job, s: System, id: nat, lines: seq<string>)
    requires WfJob(job) && |s.c.maps| == |job.names| && Written(job, s) && Enabled(job, s, ReduceEnds(id, lines))
    ensures Written(job, Next(job, s, ReduceEnds(id, lines)))
  {
    hide FilesAt, TaskFilesRight, WritersApart, IsOutput, Whole, Instead;
    var w, w' := Printing(id, lines, |lines|), Reporting(C.ReduceTask, id);
    var s' := Next(job, s, ReduceEnds(id, lines));
    assert Fits(job, s, w);
    assert lines[..|lines|] == lines;
    EndsApart(s.workers, w, w', C.ReduceTask, id);
    forall x | x in s'.workers
      ensures Fits(job, s', x)
    {
      assert x != w' ==> Fits(job, s, x);
    }
  }

  // ---------------------------------------------------------------- every run

  lemma CoordinatedStep(job: Job, s: System, step: Step)
    requires WfJob(job) && |s.c.maps| == |job.names| && Coordinated(s)
    requires Enabled(job, s, step)
    requires FreshReport(s, C.MapTask, step) && NoLateWrite(s, C.MapTask, step)
    requires FreshReport(s, C.ReduceTask, step) && NoLateWrite(s, C.ReduceTask, step)
    ensures Coordinated(Next(job, s, step))
  {
    hide Coordinated, AfterWrite, Put, IsOutput, Instead, Finished, BeingWritten, C.Enabled, C.OnGetTask, C.OnStraggler,
         C.OnMarkComplete;
    var s' := Next(job, s, step);
    match step
    case Ask => AskKeepsCoordinated(job, s);
    case Fire(kind, id) => FireKeepsCoordinated(job, s, kind, id);
    case Report(kind, id) => ReportKeepsCoordinated(job, s, kind, id);
    case Dies(w) => DiesKeepsCoordinated(job, s, w);
    case MapBegins(id) =>
      assert Begins(step, C.MapTask, id);
      WorkerKeepsCoordinated(s, s', Handed(id), Mapping(id, 1));
    case MapWrites(id, done) => WorkerKeepsCoordinated(s, s', Mapping(id, done), Mapping(id, done + 1));
    case MapEnds(id) => WorkerKeepsCoordinated(s, s', Mapping(id, Writes(job, id)), Reporting(C.MapTask, id));
    case ReduceReads(id, pairs, next) =>
      WorkerKeepsCoordinated(s, s', Reading(id, pairs, next), Reading(id, pairs + s.files[(next, id)], next + 1));
    case ReduceBegins(id, pairs, lines) =>
      assert Begins(step, C.ReduceTask, id);
      WorkerKeepsCoordinated(s, s', Reading(id, pairs, |job.kvas|), Printing(id, lines, 0));
    case ReducePrints(id, lines, done) =>
      WorkerKeepsCoordinated(s, s', Printing(id, lines, done), Printing(id, lines, done + 1));
    case ReduceEnds(id, lines) =>
      WorkerKeepsCoordinated(s, s', Printing(id, lines, |lines|), Reporting(C.ReduceTask, id));
  }

  lemma WriterIsUnfinished(job: Job, s: System, id: nat, done: nat)
    requires WfJob(job) && Written(job, s) && Mapping(id, done) in s.workers
    ensures s.mapped - {id} == s.mapped
  {
    hide FilesAt, TaskFilesRight, OutputRight, WritersApart;
    assert Fits(job, s, Mapping(id, done));
  }

  lemma FireKeepsWritten(job: Job, s: System, s': System)
    requires WfJob(job) && Written(job, s) && s' == s.(c := s'.c)
    ensures Written(job, s')
  {
    hide TaskFilesRight, OutputRight, WritersApart, Fits;
    assert WritersApart(s.workers);
    SameDisk(job, s, s');
  }

  lemma WrittenStep(job: Job, s: System, step: Step)
    requires WfJob(job) && |s.c.maps| == |job.names| && |s.c.reduces| == job.nReduce
    requires Coordinated(s) && Written(job, s) && Enabled(job, s, step)
    requires OneWriter(s, C.MapTask, step) && OneWriter(s, C.ReduceTask, step)
    ensures Written(job, Next(job, s, step))
  {
    hide Coordinated, Written, AfterWrite, Put, IsOutput, C.Enabled, C.OnGetTask, C.OnStraggler, C.OnMarkComplete,
         BeingWritten, Instead;
    var s' := Next(job, s, step);
    match step
    case Ask => AskKeepsWritten(job, s);
    case Fire(kind, id) => FireKeepsWritten(job, s, s');
    case Report(kind, id) => GoneKeepsWritten(job, s, s', Reporting(kind, id));
    case Dies(w) => GoneKeepsWritten(job, s, s', w);
    case MapBegins(id) =>
      assert Begins(step, C.MapTask, id);
      MapWriteKeepsWritten(job, s, s', Handed(id), id, 0);
    case MapWrites(id, done) =>
      WriterIsUnfinished(job, s, id, done);
      MapWriteKeepsWritten(job, s, s', Mapping(id, done), id, done);
    case MapEnds(id) => MapEndKeepsWritten(job, s, id);
    case ReduceReads(id, pairs, next) => ReadKeepsWritten(job, s, id, pairs, next);
    case ReduceBegins(id, pairs, lines) => BeginPrintsKeepsWritten(job, s, id, pairs, lines);
    case ReducePrints(id, lines, done) => GoesOnPrintingKeepsWritten(job, s, id, lines, done);
    case ReduceEnds(id, lines) => PrintEndKeepsWritten(job, s, id, lines);
  }

  lemma {:induction false} InvariantHolds(job: Job, files: Files, outs: map<nat, seq<string>>, steps: seq<Step>)
    requires WfJob(job) && Run(ALL_ORDERLY, job, files, outs, steps).Some?
    ensures var s := Run(ALL_ORDERLY, job, files, outs, steps).value; Coordinated(s) && Written(job, s)
  {
    if steps == [] {
      C.SoundAtStart(|job.names|, job.nReduce);
    } else {
      hide Coordinated, Written, Enabled, Next, FreshReport, NoLateWrite, OneWriter;
      var before, step := steps[..|steps| - 1], steps[|steps| - 1];
      InvariantHolds(job, files, outs, before);
      CoordinatedStep(job, Run(ALL_ORDERLY, job, files, outs, before).value, step);
      WrittenStep(job, Run(ALL_ORDERLY, job, files, outs, before).value, step);
    }
  }

  // ---------------------------------------------------------------- the job

  /** The output files mr-out-0, mr-out-1, ... in order. */
  function Outputs(outs: map<nat, seq<string>>, n: nat): seq<seq<string>>
    requires forall r: nat :: r < n ==> r in outs
  {
    seq(n, r requires 0 <= r < n => outs[r])
  }

  /** The output files together hold the lines of the sequential program, each as often. */
  ghost predicate MatchesSequential(outs: map<nat, seq<string>>, n: nat, whole: seq<string>) {
    && (forall r: nat :: r < n ==> r in outs)
    && multiset(Concat(Outputs(outs, n))) == multiset(whole)
  }

  lemma AllReduced(job: Job, s: System)
    requires WfJob(job) && |s.c.reduces| == job.nReduce && Coordinated(s) && Written(job, s) && C.SaysDone(s.c)
    ensures forall r: nat :: r < job.nReduce ==> OutputRight(job, s.outs, r)
  {
    hide OutputRight, TaskFilesRight, C.Sound;
    SoundCounts(s.c);
    C.NoneUncompleted(s.c.reduces);
    assert forall r: nat :: r < job.nReduce ==> s.c.reduces[r] == C.Completed;
  }

  lemma RightOutputsTogether(job: Job, outs: map<nat, seq<string>>, whole: seq<string>)
    requires WfJob(job) && Symmetric(job.reducef) && IsOutput(job.reducef, Emitted(job.kvas, |job.kvas|), whole)
    requires forall r: nat :: r < job.nReduce ==> OutputRight(job, outs, r)
    ensures MatchesSequential(outs, job.nReduce, whole)
  {
    hide IsOutput, Symmetric, Part, Concat, Emitted;
    forall r: nat | r < job.nReduce
      ensures r in outs && IsOutput(job.reducef, Part(Emitted(job.kvas, |job.kvas|), job.hash, job.nReduce, r), outs[r])
    {
      assert OutputRight(job, outs, r);
    }
    PartsAreSequential(job.reducef, Emitted(job.kvas, |job.kvas|), job.hash, job.nReduce, Outputs(outs, job.nReduce),
        whole);
  }

  /** Whenever Done answers true in an orderly run, the output files hold the lines of the sequential program. */
  lemma DoneMeansSequential(job: Job, files: Files, outs: map<nat, seq<string>>, steps: seq<Step>, whole: seq<string>)
    requires WfJob(job) && Symmetric(job.reducef) && Run(ALL_ORDERLY, job, files, outs, steps).Some?
    requires C.SaysDone(Run(ALL_ORDERLY, job, files, outs, steps).value.c)
    requires IsOutput(job.reducef, Emitted(job.kvas, |job.kvas|), whole)
    ensures MatchesSequential(Run(ALL_ORDERLY, job, files, outs, steps).value.outs, job.nReduce, whole)
  {
    hide Run, IsOutput, Symmetric, MatchesSequential, Emitted, Coordinated, Written, OutputRight;
    InvariantHolds(job, files, outs, steps);
    var s := Run(ALL_ORDERLY, job, files, outs, steps).value;
    AllReduced(job, s);
    RightOutputsTogether(job, s.outs, whole);
  }
}
