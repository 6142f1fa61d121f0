/**
 No orderly run of a job is a dead end: whichever workers died and whichever tasks were taken back, it
 can be carried on until Done answers true, and what it then announces is the sequential output.
 */
module MapReduceProgress {
  import opened Wrappers
  import opened MapReduce
  import opened MapReduceJob
  import opened TaskRuns
  import opened MapReduceRun
  import C = Coordination

  // ---------------------------------------------------------------- some output exists

  lemma {:induction false} InsertedSomewhere(sorted: seq<KeyValue>, kv: KeyValue) returns (r: seq<KeyValue>)
    requires KeySorted(sorted)
    ensures KeySorted(r) && multiset(r) == multiset(sorted) + multiset{kv}
  {
    hide Less;
    if sorted == [] {
      r := [kv];
    } else {
      var before, last := sorted[..|sorted| - 1], sorted[|sorted| - 1];
      assert sorted == before + [last];
      if Less(kv.key, last.key) {
        var r' := InsertedSomewhere(before, kv);
        r := r' + [last];
        Asymmetric(kv.key, last.key);
        forall i | 0 <= i < |r'|
          ensures !Less(last.key, r'[i].key)
        {
          assert r'[i] in multiset(r');
        }
      } else {
        r := sorted + [kv];
        forall i | 0 <= i < |sorted|
          ensures !Less(kv.key, sorted[i].key)
        {
          if i < |before| {
            NotLessTransitive(sorted[i].key, last.key, kv.key);
          }
        }
      }
    }
  }

  lemma {:induction false} SortedSomehow(kva: seq<KeyValue>) returns (sorted: seq<KeyValue>)
    ensures IsArrangement(sorted, kva)
  {
    if kva == [] {
      sorted := [];
    } else {
      var before := SortedSomehow(kva[..|kva| - 1]);
      sorted := InsertedSomewhere(before, kva[|kva| - 1]);
      assert kva == kva[..|kva| - 1] + [kva[|kva| - 1]];
    }
  }

  lemma SomeOutput(reducef: ReduceFunction, pairs: seq<KeyValue>) returns (lines: seq<string>)
    ensures IsOutput(reducef, pairs, lines)
  {
    var sorted := SortedSomehow(pairs);
    lines := Lines(Grouped(reducef, sorted, 0));
  }

  // ---------------------------------------------------------------- steps

  ghost predicate Goes(job: Job, files: Files, outs: map<nat, seq<string>>, steps: seq<Step>, s: System) {
    WfJob(job) && Run(ALL_ORDERLY, job, files, outs, steps) == Some(s)
  }

  lemma GoesWell(job: Job, files: Files, outs: map<nat, seq<string>>, steps: seq<Step>, s: System)
    requires Goes(job, files, outs, steps, s)
    ensures WfJob(job) && |s.c.maps| == |job.names| && |s.c.reduces| == job.nReduce
    ensures Coordinated(s) && Written(job, s)
  {
    hide Coordinated, Written;
    InvariantHolds(job, files, outs, steps);
  }

  lemma OneStep(job: Job, files: Files, outs: map<nat, seq<string>>, steps: seq<Step>, s: System, step: Step)
    returns (steps': seq<Step>)
    requires Goes(job, files, outs, steps, s) && WfJob(job) && |s.c.maps| == |job.names|
    requires Enabled(job, s, step) && Admits(ALL_ORDERLY, s, step)
    ensures steps <= steps' && Goes(job, files, outs, steps', Next(job, s, step))
  {
    hide Enabled, Admits, Next;
    steps' := steps + [step];
    assert steps'[..|steps|] == steps;
  }

  /** Reports and beginnings are the only steps an orderly run restricts. */
  lemma Unrestricted(s: System, step: Step)
    requires !step.Report? && !step.MapBegins? && !step.ReduceBegins?
    ensures Admits(ALL_ORDERLY, s, step)
  {
  }

  /** A single worker may begin its task while the task is in progress. */
  lemma MayBegin(s: System, w: Worker, kind: C.Kind, id: nat, step: Step)
    requires s.workers == multiset{w} && !w.Mapping? && !w.Printing? && Begins(step, kind, id)
    requires C.InRange(s.c, kind, id) && C.StatusOf(s.c, kind, id) == C.InProgress
    ensures Admits(ALL_ORDERLY, s, step)
  {
  }

  lemma MayReport(s: System, kind: C.Kind, id: nat)
    requires s.workers == multiset{Reporting(kind, id)}
    requires id in (if kind == C.MapTask then s.mapped else s.reduced)
    ensures Admits(ALL_ORDERLY, s, Report(kind, id))
  {
  }

  // ---------------------------------------------------------------- starting afresh

  lemma SomeOf<T>(s: multiset<T>) returns (x: T)
    requires s != multiset{}
    ensures x in s
  {
    x :| x in s;
  }

  lemma AllDie(job: Job, files: Files, outs: map<nat, seq<string>>, steps: seq<Step>, s: System)
    returns (steps': seq<Step>)
    requires Goes(job, files, outs, steps, s)
    ensures steps <= steps' && Goes(job, files, outs, steps', s.(workers := multiset{}))
    decreases |s.workers|
  {
    hide Goes, Admits, Coordinated, Written;
    GoesWell(job, files, outs, steps, s);
    if s.workers == multiset{} {
      steps' := steps;
    } else {
      var w := SomeOf(s.workers);
      Unrestricted(s, Dies(w));
      var steps1 := OneStep(job, files, outs, steps, s, Dies(w));
      steps' := AllDie(job, files, outs, steps1, s.(workers := s.workers - multiset{w}));
    }
  }

  /** Only the coordinator has changed, and neither count. */
  ghost predicate SameButStatus(s: System, s': System) {
    s' == s.(c := s'.c) && s'.c.mapsLeft == s.c.mapsLeft && s'.c.reducesLeft == s.c.reducesLeft
  }

  lemma CoordinatorIsSound(s: System)
    requires Coordinated(s)
    ensures C.Sound(s.c)
  {
  }

  lemma TimersInRange(c: C.State, kind: C.Kind, id: nat)
    requires C.Sound(c) && (kind, id) in c.timers
    ensures C.InRange(c, kind, id)
  {
  }

  lemma AllFire(job: Job, files: Files, outs: map<nat, seq<string>>, steps: seq<Step>, s: System)
    returns (steps': seq<Step>, s': System)
    requires Goes(job, files, outs, steps, s)
    ensures steps <= steps' && Goes(job, files, outs, steps', s') && SameButStatus(s, s') && s'.c.timers == multiset{}
    decreases |s.c.timers|
  {
    hide Goes, Admits, Coordinated, Written, C.OnStraggler;
    GoesWell(job, files, outs, steps, s);
    if s.c.timers == multiset{} {
      steps', s' := steps, s;
    } else {
      var timer := SomeOf(s.c.timers);
      var (kind, id) := timer;
      CoordinatorIsSound(s);
      TimersInRange(s.c, kind, id);
      Unrestricted(s, Fire(kind, id));
      var steps1 := OneStep(job, files, outs, steps, s, Fire(kind, id));
      C.FireFreesIff(s.c, kind, id);
      steps', s' := AllFire(job, files, outs, steps1, Next(job, s, Fire(kind, id)));
    }
  }

  /** Nobody works and no timer runs. */
  ghost predicate Quiet(s: System) {
    s.workers == multiset{} && s.c.timers == multiset{}
  }

  lemma NoneInProgress(c: C.State)
    requires C.Sound(c) && c.timers == multiset{}
    ensures forall i :: 0 <= i < |c.maps| ==> c.maps[i] != C.InProgress
    ensures forall i :: 0 <= i < |c.reduces| ==> c.reduces[i] != C.InProgress
  {
    hide C.Uncompleted;
    assert forall i: nat :: i < |c.maps| ==> C.InRange(c, C.MapTask, i) && C.StatusOf(c, C.MapTask, i) == c.maps[i];
    assert forall i: nat :: i < |c.reduces| ==>
        C.InRange(c, C.ReduceTask, i) && C.StatusOf(c, C.ReduceTask, i) == c.reduces[i];
  }

  /** Then no task is in progress, so one that is not completed can be handed out. */
  lemma SomethingToHandOut(c: C.State)
    requires C.Sound(c) && c.timers == multiset{}
    ensures c.mapsLeft != 0 ==> C.Unstarted in c.maps
    ensures c.reducesLeft != 0 ==> C.Unstarted in c.reduces
    ensures c.mapsLeft >= 0 && c.reducesLeft >= 0
  {
    NoneInProgress(c);
    C.NoneUncompleted(c.maps);
    C.NoneUncompleted(c.reduces);
    hide C.Uncompleted, C.Timed;
    if c.mapsLeft != 0 {
      var i :| 0 <= i < |c.maps| && c.maps[i] != C.Completed;
      assert c.maps[i] == C.Unstarted;
    }
    if c.reducesLeft != 0 {
      var i :| 0 <= i < |c.reduces| && c.reduces[i] != C.Completed;
      assert c.reduces[i] == C.Unstarted;
    }
  }

  // ---------------------------------------------------------------- one task

  /** A worker asks a coordinator that has something to hand out. */
  lemma IsHanded(job: Job, files: Files, outs: map<nat, seq<string>>, steps: seq<Step>, s: System)
    returns (steps': seq<Step>, s': System, kind: C.Kind, id: nat)
    requires Goes(job, files, outs, steps, s) && Quiet(s) && (s.c.mapsLeft != 0 || s.c.reducesLeft != 0)
    ensures steps <= steps' && Goes(job, files, outs, steps', s') && SameButStatus(s.(workers := s'.workers), s')
    ensures kind == (if s.c.mapsLeft != 0 then C.MapTask else C.ReduceTask)
    ensures C.InRange(s'.c, kind, id) && C.StatusOf(s'.c, kind, id) == C.InProgress
    ensures s'.workers == multiset{if kind == C.MapTask then Handed(id) else Reading(id, [], 0)}
  {
    hide Goes, Admits, Coordinated, Written, C.OnGetTask, C.Sound;
    GoesWell(job, files, outs, steps, s);
    CoordinatorIsSound(s);
    SomethingToHandOut(s.c);
    C.AskGivesNext(s.c, job.names);
    Unrestricted(s, Ask);
    steps' := OneStep(job, files, outs, steps, s, Ask);
    s' := Next(job, s, Ask);
    var (c', reply) := C.OnGetTask(s.c, job.names);
    kind := if s.c.mapsLeft != 0 then C.MapTask else C.ReduceTask;
    id :| C.Hands(s.c, job.names, c', reply, kind, id);
    assert multiset{} + Given(reply) == Given(reply);
  }

  /** The run of a task has come to its end: the worker is about to report it. */
  ghost predicate RunEnded(s: System, kind: C.Kind, id: nat) {
    && s.workers == multiset{Reporting(kind, id)}
    && id in (if kind == C.MapTask then s.mapped else s.reduced)
    && C.InRange(s.c, kind, id) && C.StatusOf(s.c, kind, id) == C.InProgress
  }

  lemma WriterFits(job: Job, s: System, id: nat, done: nat)
    requires WfJob(job) && Written(job, s) && Mapping(id, done) in s.workers
    ensures id < |job.kvas| && done <= Writes(job, id)
  {
    hide FilesAt, TaskFilesRight, OutputRight, WritersApart;
    assert Fits(job, s, Mapping(id, done));
  }

  /** The rest of a map run. */
  lemma MapGoesOn(job: Job, files: Files, outs: map<nat, seq<string>>, steps: seq<Step>, s: System, id: nat, done: nat)
    returns (steps': seq<Step>, s': System)
    requires Goes(job, files, outs, steps, s) && s.workers == multiset{Mapping(id, done)}
    requires id < |s.c.maps| && s.c.maps[id] == C.InProgress
    ensures steps <= steps' && Goes(job, files, outs, steps', s') && s'.c == s.c && RunEnded(s', C.MapTask, id)
    decreases if id < |job.kvas| && done <= Writes(job, id) then Writes(job, id) - done else 0
  {
    hide Goes, Admits, Coordinated, Written, AfterWrite, Instead;
    GoesWell(job, files, outs, steps, s);
    WriterFits(job, s, id, done);
    if done < Writes(job, id) {
      Unrestricted(s, MapWrites(id, done));
      OnlyOne(Mapping(id, done), Mapping(id, done + 1));
      var steps1 := OneStep(job, files, outs, steps, s, MapWrites(id, done));
      steps', s' := MapGoesOn(job, files, outs, steps1, Next(job, s, MapWrites(id, done)), id, done + 1);
    } else {
      Unrestricted(s, MapEnds(id));
      OnlyOne(Mapping(id, done), Reporting(C.MapTask, id));
      steps' := OneStep(job, files, outs, steps, s, MapEnds(id));
      s' := Next(job, s, MapEnds(id));
    }
  }

  lemma MapRuns(job: Job, files: Files, outs: map<nat, seq<string>>, steps: seq<Step>, s: System, id: nat)
    returns (steps': seq<Step>, s': System)
    requires Goes(job, files, outs, steps, s) && s.workers == multiset{Handed(id)}
    requires id < |s.c.maps| && s.c.maps[id] == C.InProgress
    ensures steps <= steps' && Goes(job, files, outs, steps', s') && s'.c == s.c && RunEnded(s', C.MapTask, id)
  {
    hide Goes, Admits, Coordinated, Written, AfterWrite, Instead;
    GoesWell(job, files, outs, steps, s);
    MayBegin(s, Handed(id), C.MapTask, id, MapBegins(id));
    OnlyOne(Handed(id), Mapping(id, 1));
    var steps1 := OneStep(job, files, outs, steps, s, MapBegins(id));
    steps', s' := MapGoesOn(job, files, outs, steps1, Next(job, s, MapBegins(id)), id, 1);
  }

  /** The rest of printing. */
  lemma PrintGoesOn(job: Job, files: Files, outs: map<nat, seq<string>>, steps: seq<Step>, s: System, id: nat,
                    lines: seq<string>, done: nat)
    returns (steps': seq<Step>, s': System)
    requires Goes(job, files, outs, steps, s) && s.workers == multiset{Printing(id, lines, done)} && done <= |lines|
    requires id < |s.c.reduces| && s.c.reduces[id] == C.InProgress
    ensures steps <= steps' && Goes(job, files, outs, steps', s') && s'.c == s.c && RunEnded(s', C.ReduceTask, id)
    decreases |lines| - done
  {
    hide Goes, Admits, Coordinated, Written, Put, Instead;
    GoesWell(job, files, outs, steps, s);
    if done < |lines| {
      Unrestricted(s, ReducePrints(id, lines, done));
      OnlyOne(Printing(id, lines, done), Printing(id, lines, done + 1));
      var steps1 := OneStep(job, files, outs, steps, s, ReducePrints(id, lines, done));
      steps', s' := PrintGoesOn(job, files, outs, steps1, Next(job, s, ReducePrints(id, lines, done)), id, lines,
          done + 1);
    } else {
      Unrestricted(s, ReduceEnds(id, lines));
      OnlyOne(Printing(id, lines, done), Reporting(C.ReduceTask, id));
      steps' := OneStep(job, files, outs, steps, s, ReduceEnds(id, lines));
      s' := Next(job, s, ReduceEnds(id, lines));
    }
  }

  lemma ReaderFits(job: Job, s: System, id: nat, pairs: seq<KeyValue>, next: nat)
    requires WfJob(job) && Written(job, s) && Reading(id, pairs, next) in s.workers
    ensures next <= |job.kvas|
  {
    hide TaskFilesRight, OutputRight, WritersApart, Whole;
    assert Fits(job, s, Reading(id, pairs, next));
  }

  /** The rest of a reduce run: it finds every file, and prints. */
  lemma ReduceGoesOn(job: Job, files: Files, outs: map<nat, seq<string>>, steps: seq<Step>, s: System, id: nat,
                     pairs: seq<KeyValue>, next: nat)
    returns (steps': seq<Step>, s': System)
    requires Goes(job, files, outs, steps, s) && s.workers == multiset{Reading(id, pairs, next)}
    requires id < |s.c.reduces| && s.c.reduces[id] == C.InProgress
    ensures steps <= steps' && Goes(job, files, outs, steps', s') && s'.c == s.c && RunEnded(s', C.ReduceTask, id)
    decreases if next <= |job.kvas| then |job.kvas| - next else 0
  {
    hide Goes, Admits, Coordinated, Written, IsOutput, Instead, Whole;
    GoesWell(job, files, outs, steps, s);
    ReaderFits(job, s, id, pairs, next);
    if next < |job.kvas| {
      ReadIsRight(job, s, id, pairs, next);
      var pairs' := pairs + s.files[(next, id)];
      Unrestricted(s, ReduceReads(id, pairs, next));
      OnlyOne(Reading(id, pairs, next), Reading(id, pairs', next + 1));
      var steps1 := OneStep(job, files, outs, steps, s, ReduceReads(id, pairs, next));
      steps', s' := ReduceGoesOn(job, files, outs, steps1, Next(job, s, ReduceReads(id, pairs, next)), id, pairs',
          next + 1);
    } else {
      var lines := SomeOutput(job.reducef, pairs);
      var step := ReduceBegins(id, pairs, lines);
      MayBegin(s, Reading(id, pairs, next), C.ReduceTask, id, step);
      OnlyOne(Reading(id, pairs, next), Printing(id, lines, 0));
      var steps1 := OneStep(job, files, outs, steps, s, step);
      steps', s' := PrintGoesOn(job, files, outs, steps1, Next(job, s, step), id, lines, 0);
    }
  }

  /** One task of the phase is handed out, done and reported, and the coordinator is quiet again. */
  lemma OneTaskLess(job: Job, files: Files, outs: map<nat, seq<string>>, steps: seq<Step>, s: System)
    returns (steps': seq<Step>, s': System)
    requires Goes(job, files, outs, steps, s) && Quiet(s) && (s.c.mapsLeft != 0 || s.c.reducesLeft != 0)
    ensures steps <= steps' && Goes(job, files, outs, steps', s') && Quiet(s')
    ensures s'.c.mapsLeft + s'.c.reducesLeft == s.c.mapsLeft + s.c.reducesLeft - 1
  {
    hide Goes, Admits, Coordinated, Written, C.OnMarkComplete;
    var steps1, s1, kind, id := IsHanded(job, files, outs, steps, s);
    var s2;
    if kind == C.MapTask {
      steps1, s2 := MapRuns(job, files, outs, steps1, s1, id);
    } else {
      steps1, s2 := ReduceGoesOn(job, files, outs, steps1, s1, id, [], 0);
    }
    GoesWell(job, files, outs, steps1, s2);
    MayReport(s2, kind, id);
    C.ReportCountsIff(s2.c, kind, id);
    steps1 := OneStep(job, files, outs, steps1, s2, Report(kind, id));
    steps', s' := AllFire(job, files, outs, steps1, Next(job, s2, Report(kind, id)));
  }

  lemma AllTasks(job: Job, files: Files, outs: map<nat, seq<string>>, steps: seq<Step>, s: System)
    returns (steps': seq<Step>, s': System)
    requires Goes(job, files, outs, steps, s) && Quiet(s)
    ensures steps <= steps' && Goes(job, files, outs, steps', s') && C.SaysDone(s'.c)
    decreases s.c.mapsLeft + s.c.reducesLeft
  {
    hide Goes, Coordinated, Written, C.Sound;
    GoesWell(job, files, outs, steps, s);
    CoordinatorIsSound(s);
    SomethingToHandOut(s.c);
    if s.c.mapsLeft == 0 && s.c.reducesLeft == 0 {
      steps', s' := steps, s;
    } else {
      var steps1, s1 := OneTaskLess(job, files, outs, steps, s);
      steps', s' := AllTasks(job, files, outs, steps1, s1);
    }
  }

  // ---------------------------------------------------------------- the job

  /** The run is possible, Done answers true after it, and the output is the sequential one. */
  ghost predicate Finishes(job: Job, files: Files, outs: map<nat, seq<string>>, steps: seq<Step>, whole: seq<string>)
    requires WfJob(job)
  {
    && Run(ALL_ORDERLY, job, files, outs, steps).Some?
    && C.SaysDone(Run(ALL_ORDERLY, job, files, outs, steps).value.c)
    && MatchesSequential(Run(ALL_ORDERLY, job, files, outs, steps).value.outs, job.nReduce, whole)
  }

  /** Every orderly run can be carried on until Done announces the sequential output. */
  lemma JobCanFinish(job: Job, files: Files, outs: map<nat, seq<string>>, steps: seq<Step>, whole: seq<string>)
    requires WfJob(job) && Symmetric(job.reducef) && IsOutput(job.reducef, Emitted(job.kvas, |job.kvas|), whole)
    requires Run(ALL_ORDERLY, job, files, outs, steps).Some?
    ensures exists steps' :: steps <= steps' && Finishes(job, files, outs, steps', whole)
  {
    hide Run, Symmetric, IsOutput, Emitted, MatchesSequential;
    var s := Run(ALL_ORDERLY, job, files, outs, steps).value;
    var steps1 := AllDie(job, files, outs, steps, s);
    var steps2, s2 := AllFire(job, files, outs, steps1, s.(workers := multiset{}));
    var steps3, s3 := AllTasks(job, files, outs, steps2, s2);
    DoneMeansSequential(job, files, outs, steps3, whole);
    assert Finishes(job, files, outs, steps3, whole);
  }
}
