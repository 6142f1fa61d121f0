/**
 Why the premises on reports and late runs are there: runs of the same code that break one of them and
 in which Done announces a wrong output.
 */
module MapReducePremises {
  import opened Wrappers
  import opened FlatMaps
  import opened MapReduce
  import opened MapReduceJob
  import opened TaskRuns
  import opened MapReduceRun
  import C = Coordination

  /** If a run under the premise is possible and Done then answers true, the output is the sequential one. */
  ghost predicate RightWhenDone(premise: Premise, job: Job, files: Files, outs: map<nat, seq<string>>, steps: seq<Step>,
                                whole: seq<string>) {
    && WfJob(job) && Symmetric(job.reducef) && IsOutput(job.reducef, Emitted(job.kvas, |job.kvas|), whole)
    && Run(premise, job, files, outs, steps).Some? && C.SaysDone(Run(premise, job, files, outs, steps).value.c)
    ==> MatchesSequential(Run(premise, job, files, outs, steps).value.outs, job.nReduce, whole)
  }

  /** One input that emits one pair, one reduce task; the reduce function tells one value from more. */
  function Tally(key: string, values: seq<string>): string {
    if |values| < 2 then "1" else "2"
  }

  function ToZero(key: string): nat {
    0
  }

  const PAIR := KeyValue("k", "v")

  /** What it prints. */
  const LINES := ["k 1\n"]

  const TINY := Job(["in"], [[PAIR]], Tally, ToZero, 1)

  lemma TallyIsSymmetric()
    ensures Symmetric(Tally)
  {
    forall key: string, vs: seq<string>, vs': seq<string> | multiset(vs) == multiset(vs')
      ensures Tally(key, vs) == Tally(key, vs')
    {
      assert |multiset(vs)| == |multiset(vs')|;
    }
  }

  lemma OneIsPrinted()
    ensures IsOutput(Tally, [PAIR], LINES)
  {
    hide Lines, Grouped, FlatMap, IsArrangement;
    OneKeyOutput(Tally, "k", ["v"]);
    FlatMapNone(Paired("k"));
    FlatMapOne([], "v", Paired("k"));
    assert [] + ["v"] == ["v"] && [] + [PAIR] == [PAIR];
    assert Line(Result("k", "1")) == "k 1\n";
  }

  lemma TwoArePrinted()
    ensures IsOutput(Tally, [PAIR, PAIR], ["k 2\n"])
  {
    hide Lines, Grouped, FlatMap, IsArrangement;
    OneKeyOutput(Tally, "k", ["v", "v"]);
    FlatMapNone(Paired("k"));
    FlatMapOne([], "v", Paired("k"));
    FlatMapOne(["v"], "v", Paired("k"));
    assert [] + ["v"] == ["v"] && ["v"] + ["v"] == ["v", "v"] && [] + [PAIR] == [PAIR];
    assert [PAIR] + [PAIR] == [PAIR, PAIR];
    assert Line(Result("k", "2")) == "k 2\n";
  }

  lemma NoneIsPrinted()
    ensures IsOutput(Tally, [], [])
  {
    assert IsArrangement([], []);
  }

  lemma TinyJob()
    ensures WfJob(TINY) && Symmetric(TINY.reducef)
    ensures IsOutput(TINY.reducef, Emitted(TINY.kvas, |TINY.kvas|), LINES)
  {
    hide IsOutput, Symmetric;
    TallyIsSymmetric();
    OneIsPrinted();
    assert Emitted(TINY.kvas, 1) == Emitted(TINY.kvas, 0) + [PAIR] == [PAIR];
  }

  ghost predicate Reaches(premise: Premise, steps: seq<Step>, s: System) {
    WfJob(TINY) && Run(premise, TINY, map[], map[], steps) == Some(s)
  }

  lemma Then(premise: Premise, steps: seq<Step>, s: System, step: Step) returns (steps': seq<Step>)
    requires Reaches(premise, steps, s) && |s.c.maps| == |TINY.names| && WfJob(TINY)
    requires Enabled(TINY, s, step) && Admits(premise, s, step)
    ensures Reaches(premise, steps', Next(TINY, s, step))
  {
    hide Enabled, Admits, Next;
    steps' := steps + [step];
    assert steps'[..|steps|] == steps;
  }

  /** Only reports, deaths and beginnings are restricted. */
  lemma Unrestricted(premise: Premise, s: System, step: Step)
    requires !step.Report? && !step.Dies? && !step.MapBegins? && !step.ReduceBegins?
    ensures Admits(premise, s, step)
  {
  }

  lemma MayReport(premise: Premise, s: System, kind: C.Kind)
    requires kind == C.MapTask && premise.maps.freshReports ==> 0 in s.mapped && !BeingWritten(s, kind, 0)
    requires kind == C.ReduceTask && premise.reduces.freshReports ==> 0 in s.reduced && !BeingWritten(s, kind, 0)
    ensures Admits(premise, s, Report(kind, 0))
  {
    hide BeingWritten, Finished;
  }

  /** The coordinator of the tiny job, with given statuses and timers. */
  function Tiny(map_: C.Status, reduce: C.Status, timers: multiset<(C.Kind, nat)>): C.State {
    C.State([map_], [reduce], if map_ == C.Completed then 0 else 1, if reduce == C.Completed then 0 else 1, timers)
  }

  const M: (C.Kind, nat) := (C.MapTask, 0)

  const R: (C.Kind, nat) := (C.ReduceTask, 0)

  /** The only intermediate file. */
  function Holding(pairs: seq<KeyValue>): Files {
    map[(0, 0) := pairs]
  }

  lemma TinyWrites(files: Files, pairs: seq<KeyValue>)
    requires files == map[] || files == Holding(pairs)
    ensures WfJob(TINY) && Writes(TINY, 0) == 2
    ensures AfterWrite(TINY, files, 0, 0) == Holding([])
    ensures AfterWrite(TINY, Holding(pairs), 0, 1) == Holding(pairs + [PAIR])
  {
  }

  lemma TinyCoordinator(timers: multiset<(C.Kind, nat)>)
    ensures C.OnGetTask(Tiny(C.Unstarted, C.Unstarted, timers), ["in"])
         == (Tiny(C.InProgress, C.Unstarted, timers + multiset{M}), C.MapReply("in", 1, 0))
    ensures C.OnGetTask(Tiny(C.Completed, C.Unstarted, timers), ["in"])
         == (Tiny(C.Completed, C.InProgress, timers + multiset{R}), C.ReduceReply(1, 0))
    ensures C.OnStraggler(Tiny(C.InProgress, C.Unstarted, timers), C.MapTask, 0)
         == Tiny(C.Unstarted, C.Unstarted, timers - multiset{M})
    ensures C.OnStraggler(Tiny(C.Completed, C.InProgress, timers), C.ReduceTask, 0)
         == Tiny(C.Completed, C.Unstarted, timers - multiset{R})
    ensures C.OnMarkComplete(Tiny(C.InProgress, C.Unstarted, timers), C.MapTask, 0)
            == Tiny(C.Completed, C.Unstarted, timers)
    ensures C.OnMarkComplete(Tiny(C.Completed, C.InProgress, timers), C.ReduceTask, 0)
            == Tiny(C.Completed, C.Completed, timers)
  {
    assert forall a: C.Status, b: C.Status :: [a][0 := b] == [b];
    assert C.FirstUnstarted([C.Unstarted]) == 0;
  }

  lemma AsksForMap(premise: Premise, steps: seq<Step>, s: System, timers: multiset<(C.Kind, nat)>)
    returns (steps': seq<Step>)
    requires Reaches(premise, steps, s) && s.c == Tiny(C.Unstarted, C.Unstarted, timers)
    ensures Reaches(premise, steps', s.(c := Tiny(C.InProgress, C.Unstarted, timers + multiset{M}),
                                        workers := s.workers + multiset{Handed(0)}))
  {
    hide Reaches, Admits, C.OnGetTask;
    TinyCoordinator(timers);
    Unrestricted(premise, s, Ask);
    steps' := Then(premise, steps, s, Ask);
  }

  lemma TimerFires(premise: Premise, steps: seq<Step>, s: System, timers: multiset<(C.Kind, nat)>)
    returns (steps': seq<Step>)
    requires Reaches(premise, steps, s) && s.c == Tiny(C.InProgress, C.Unstarted, timers) && M in timers
    ensures Reaches(premise, steps', s.(c := Tiny(C.Unstarted, C.Unstarted, timers - multiset{M})))
  {
    hide Reaches, Admits, C.OnStraggler;
    TinyCoordinator(timers);
    Unrestricted(premise, s, Fire(C.MapTask, 0));
    steps' := Then(premise, steps, s, Fire(C.MapTask, 0));
  }

  /** Whatever the file held, it is empty now. */
  lemma BeginsMap(premise: Premise, steps: seq<Step>, s: System, pairs: seq<KeyValue>) returns (steps': seq<Step>)
    requires Reaches(premise, steps, s) && |s.c.maps| == 1 && Handed(0) in s.workers
    requires s.files == map[] || s.files == Holding(pairs)
    requires premise.maps.late == NoLateWrites ==> s.c.maps[0] != C.Completed
    requires premise.maps.oneWriter ==> forall w :: w in s.workers ==> !w.Mapping?
    ensures Reaches(premise, steps',
            s.(files := Holding([]), workers := Instead(s.workers, Handed(0), Mapping(0, 1)), mapped := s.mapped - {0}))
  {
    hide Reaches, AfterWrite;
    TinyWrites(s.files, pairs);
    steps' := Then(premise, steps, s, MapBegins(0));
  }

  lemma WritesPair(premise: Premise, steps: seq<Step>, s: System, pairs: seq<KeyValue>) returns (steps': seq<Step>)
    requires Reaches(premise, steps, s) && |s.c.maps| == 1 && Mapping(0, 1) in s.workers && s.files == Holding(pairs)
    ensures Reaches(premise, steps',
            s.(files := Holding(pairs + [PAIR]), workers := Instead(s.workers, Mapping(0, 1), Mapping(0, 2))))
  {
    hide Reaches, Admits, AfterWrite;
    TinyWrites(s.files, pairs);
    Unrestricted(premise, s, MapWrites(0, 1));
    steps' := Then(premise, steps, s, MapWrites(0, 1));
  }

  lemma EndsMap(premise: Premise, steps: seq<Step>, s: System) returns (steps': seq<Step>)
    requires Reaches(premise, steps, s) && |s.c.maps| == 1 && Mapping(0, 2) in s.workers
    ensures Reaches(premise, steps',
            s.(workers := Instead(s.workers, Mapping(0, 2), Reporting(C.MapTask, 0)), mapped := s.mapped + {0}))
  {
    hide Reaches, Admits;
    TinyWrites(map[], []);
    Unrestricted(premise, s, MapEnds(0));
    steps' := Then(premise, steps, s, MapEnds(0));
  }

  lemma ReportsMap(premise: Premise, steps: seq<Step>, s: System, timers: multiset<(C.Kind, nat)>)
    returns (steps': seq<Step>)
    requires Reaches(premise, steps, s) && s.c == Tiny(C.InProgress, C.Unstarted, timers)
    requires Reporting(C.MapTask, 0) in s.workers
    requires premise.maps.freshReports ==> 0 in s.mapped && forall w :: w in s.workers ==> !w.Mapping?
    ensures Reaches(premise, steps', s.(c := Tiny(C.Completed, C.Unstarted, timers),
                                        workers := s.workers - multiset{Reporting(C.MapTask, 0)}))
  {
    hide Reaches, Admits, C.OnMarkComplete;
    TinyCoordinator(timers);
    MayReport(premise, s, C.MapTask);
    steps' := Then(premise, steps, s, Report(C.MapTask, 0));
  }

  lemma AsksForReduce(premise: Premise, steps: seq<Step>, s: System, timers: multiset<(C.Kind, nat)>)
    returns (steps': seq<Step>)
    requires Reaches(premise, steps, s) && s.c == Tiny(C.Completed, C.Unstarted, timers)
    ensures Reaches(premise, steps', s.(c := Tiny(C.Completed, C.InProgress, timers + multiset{R}),
                                        workers := s.workers + multiset{Reading(0, [], 0)}))
  {
    hide Reaches, Admits, C.OnGetTask;
    TinyCoordinator(timers);
    Unrestricted(premise, s, Ask);
    steps' := Then(premise, steps, s, Ask);
  }

  lemma ReduceTimerFires(premise: Premise, steps: seq<Step>, s: System, timers: multiset<(C.Kind, nat)>)
    returns (steps': seq<Step>)
    requires Reaches(premise, steps, s) && s.c == Tiny(C.Completed, C.InProgress, timers) && R in timers
    ensures Reaches(premise, steps', s.(c := Tiny(C.Completed, C.Unstarted, timers - multiset{R})))
  {
    hide Reaches, Admits, C.OnStraggler;
    TinyCoordinator(timers);
    Unrestricted(premise, s, Fire(C.ReduceTask, 0));
    steps' := Then(premise, steps, s, Fire(C.ReduceTask, 0));
  }

  lemma ReadsFile(premise: Premise, steps: seq<Step>, s: System, pairs: seq<KeyValue>) returns (steps': seq<Step>)
    requires Reaches(premise, steps, s) && |s.c.maps| == 1 && Reading(0, [], 0) in s.workers
    requires s.files == Holding(pairs)
    ensures Reaches(premise, steps', s.(workers := Instead(s.workers, Reading(0, [], 0), Reading(0, pairs, 1))))
  {
    hide Reaches, Admits;
    assert [] + pairs == pairs;
    Unrestricted(premise, s, ReduceReads(0, [], 0));
    steps' := Then(premise, steps, s, ReduceReads(0, [], 0));
  }

  lemma BeginsPrinting(premise: Premise, steps: seq<Step>, s: System, pairs: seq<KeyValue>, lines: seq<string>)
    returns (steps': seq<Step>)
    requires Reaches(premise, steps, s) && |s.c.maps| == 1 && Reading(0, pairs, 1) in s.workers
    requires |s.c.reduces| == 1 && IsOutput(Tally, pairs, lines)
    requires premise.reduces.late == NoLateWrites ==> s.c.reduces[0] != C.Completed
    requires premise.reduces.oneWriter ==> forall w :: w in s.workers ==> !w.Printing?
    ensures Reaches(premise, steps', s.(outs := s.outs[0 := []],
                                        workers := Instead(s.workers, Reading(0, pairs, 1), Printing(0, lines, 0)),
                                        reduced := s.reduced - {0}))
  {
    hide Reaches, IsOutput;
    steps' := Then(premise, steps, s, ReduceBegins(0, pairs, lines));
  }

  lemma PrintsLine(premise: Premise, steps: seq<Step>, s: System, line: string) returns (steps': seq<Step>)
    requires Reaches(premise, steps, s) && |s.c.maps| == 1 && Printing(0, [line], 0) in s.workers
    requires 0 in s.outs && s.outs[0] == []
    ensures Reaches(premise, steps', s.(outs := s.outs[0 := [line]],
                                        workers := Instead(s.workers, Printing(0, [line], 0), Printing(0, [line], 1))))
  {
    hide Reaches, Admits;
    assert [] + seq(0, _ => "") + [line] == [line];
    Unrestricted(premise, s, ReducePrints(0, [line], 0));
    steps' := Then(premise, steps, s, ReducePrints(0, [line], 0));
  }

  lemma PrinterDies(premise: Premise, steps: seq<Step>, s: System, lines: seq<string>) returns (steps': seq<Step>)
    requires Reaches(premise, steps, s) && |s.c.maps| == 1 && |s.c.reduces| == 1 && s.c.reduces[0] != C.Completed
    requires Printing(0, lines, 0) in s.workers
    ensures Reaches(premise, steps', s.(workers := s.workers - multiset{Printing(0, lines, 0)}))
  {
    hide Reaches;
    steps' := Then(premise, steps, s, Dies(Printing(0, lines, 0)));
  }

  lemma EndsPrinting(premise: Premise, steps: seq<Step>, s: System, lines: seq<string>) returns (steps': seq<Step>)
    requires Reaches(premise, steps, s) && |s.c.maps| == 1 && Printing(0, lines, |lines|) in s.workers
    ensures Reaches(premise, steps',
            s.(workers := Instead(s.workers, Printing(0, lines, |lines|), Reporting(C.ReduceTask, 0)),
               reduced := s.reduced + {0}))
  {
    hide Reaches, Admits;
    Unrestricted(premise, s, ReduceEnds(0, lines));
    steps' := Then(premise, steps, s, ReduceEnds(0, lines));
  }

  lemma ReportsReduce(premise: Premise, steps: seq<Step>, s: System, timers: multiset<(C.Kind, nat)>)
    returns (steps': seq<Step>)
    requires Reaches(premise, steps, s) && s.c == Tiny(C.Completed, C.InProgress, timers)
    requires Reporting(C.ReduceTask, 0) in s.workers
    requires premise.reduces.freshReports ==> 0 in s.reduced && forall w :: w in s.workers ==> !w.Printing?
    ensures Reaches(premise, steps', s.(c := Tiny(C.Completed, C.Completed, timers),
                                        workers := s.workers - multiset{Reporting(C.ReduceTask, 0)}))
  {
    hide Reaches, Admits, C.OnMarkComplete;
    TinyCoordinator(timers);
    MayReport(premise, s, C.ReduceTask);
    steps' := Then(premise, steps, s, Report(C.ReduceTask, 0));
  }

  // ---------------------------------------------------------------- the runs

  /** The only output file. */
  function Out(lines: seq<string>): map<nat, seq<string>> {
    map[0 := lines]
  }

  lemma OutIsSet(before: seq<string>, lines: seq<string>)
    ensures map[][0 := lines] == Out(lines) && Out(before)[0 := lines] == Out(lines)
    ensures 0 in Out(before) && Out(before)[0] == before
  {
  }

  lemma OneOfTwo(x: Worker, w: Worker, w': Worker)
    ensures Instead(multiset{x, w}, w, w') == multiset{x, w'}
  {
    assert multiset{x, w} - multiset{w} == multiset{x};
  }

  lemma AtStart(premise: Premise)
    ensures Reaches(premise, [],
            System(Tiny(C.Unstarted, C.Unstarted, multiset{}), map[], map[], multiset{}, {}, {}))
  {
    assert Begin(TINY, map[], map[]).c == Tiny(C.Unstarted, C.Unstarted, multiset{});
  }

  /** The map task is handed out, taken back and handed out again. */
  lemma TwoWorkersAreHandedIt(premise: Premise) returns (steps: seq<Step>)
    ensures Reaches(premise, steps,
            System(Tiny(C.InProgress, C.Unstarted, multiset{M}), map[], map[], multiset{Handed(0), Handed(0)}, {}, {}))
  {
    hide Reaches;
    AtStart(premise);
    var timers: multiset<(C.Kind, nat)> := multiset{};
    var s := System(Tiny(C.Unstarted, C.Unstarted, timers), map[], map[], multiset{}, {}, {});
    steps := AsksForMap(premise, [], s, timers);
    timers := timers + multiset{M};
    s := s.(c := Tiny(C.InProgress, C.Unstarted, timers), workers := s.workers + multiset{Handed(0)});
    steps := TimerFires(premise, steps, s, timers);
    timers := timers - multiset{M};
    s := s.(c := Tiny(C.Unstarted, C.Unstarted, timers));
    steps := AsksForMap(premise, steps, s, timers);
    assert timers + multiset{M} == multiset{M};
    assert s.workers + multiset{Handed(0)} == multiset{Handed(0), Handed(0)};
  }

  /** The first of them maps and has not reported yet. */
  lemma FirstMaps(premise: Premise) returns (steps: seq<Step>)
    ensures Reaches(premise, steps,
            System(Tiny(C.InProgress, C.Unstarted, multiset{M}), Holding([PAIR]), map[],
                multiset{Handed(0), Reporting(C.MapTask, 0)}, {0}, {}))
  {
    hide Reaches, Instead, Holding;
    steps := TwoWorkersAreHandedIt(premise);
    var s := System(Tiny(C.InProgress, C.Unstarted, multiset{M}), map[], map[], multiset{Handed(0), Handed(0)}, {}, {});
    OneOfTwo(Handed(0), Handed(0), Mapping(0, 1));
    OneOfTwo(Handed(0), Mapping(0, 1), Mapping(0, 2));
    OneOfTwo(Handed(0), Mapping(0, 2), Reporting(C.MapTask, 0));
    assert s.mapped - {0} == s.mapped && s.mapped + {0} == {0} && [] + [PAIR] == [PAIR];
    steps := BeginsMap(premise, steps, s, []);
    s := s.(files := Holding([]), workers := multiset{Handed(0), Mapping(0, 1)});
    steps := WritesPair(premise, steps, s, []);
    s := s.(files := Holding([PAIR]), workers := multiset{Handed(0), Mapping(0, 2)});
    steps := EndsMap(premise, steps, s);
  }

  /** The first reports and the second empties the file: in the other order, or in this one. */
  lemma SecondEmptiesFile(premise: Premise) returns (steps: seq<Step>)
    requires !premise.maps.freshReports || premise.maps.late != NoLateWrites
    ensures Reaches(premise, steps,
            System(Tiny(C.Completed, C.Unstarted, multiset{M}), Holding([]), map[], multiset{Mapping(0, 1)}, {}, {}))
  {
    hide Reaches, Instead, Holding;
    steps := FirstMaps(premise);
    var w := Reporting(C.MapTask, 0);
    var s := System(Tiny(C.InProgress, C.Unstarted, multiset{M}), Holding([PAIR]), map[], multiset{w, Handed(0)}, {0},
        {});
    assert multiset{Handed(0), w} == multiset{w, Handed(0)};
    OneOfTwo(w, Handed(0), Mapping(0, 1));
    OnlyOne(Handed(0), Mapping(0, 1));
    assert s.mapped - {0} == {} && multiset{w, Mapping(0, 1)} - multiset{w} == multiset{Mapping(0, 1)};
    assert multiset{w, Handed(0)} - multiset{w} == multiset{Handed(0)};
    if !premise.maps.freshReports {
      steps := BeginsMap(premise, steps, s, [PAIR]);
      s := s.(files := Holding([]), workers := multiset{w, Mapping(0, 1)}, mapped := {});
      steps := ReportsMap(premise, steps, s, multiset{M});
    } else {
      steps := ReportsMap(premise, steps, s, multiset{M});
      s := s.(c := Tiny(C.Completed, C.Unstarted, multiset{M}), workers := multiset{Handed(0)});
      steps := BeginsMap(premise, steps, s, [PAIR]);
    }
  }

  /** Both empty the file, and then each appends its pair. */
  lemma BothAppend(premise: Premise) returns (steps: seq<Step>)
    requires !premise.maps.oneWriter
    ensures Reaches(premise, steps,
            System(Tiny(C.InProgress, C.Unstarted, multiset{M}), Holding([PAIR, PAIR]), map[],
                multiset{Mapping(0, 2), Mapping(0, 2)}, {}, {}))
  {
    hide Reaches, Instead, Holding;
    steps := TwoWorkersAreHandedIt(premise);
    var s := System(Tiny(C.InProgress, C.Unstarted, multiset{M}), map[], map[], multiset{Handed(0), Handed(0)}, {}, {});
    OneOfTwo(Handed(0), Handed(0), Mapping(0, 1));
    OneOfTwo(Mapping(0, 1), Handed(0), Mapping(0, 1));
    OneOfTwo(Mapping(0, 1), Mapping(0, 1), Mapping(0, 2));
    OneOfTwo(Mapping(0, 2), Mapping(0, 1), Mapping(0, 2));
    assert multiset{Handed(0), Mapping(0, 1)} == multiset{Mapping(0, 1), Handed(0)};
    assert multiset{Mapping(0, 1), Mapping(0, 2)} == multiset{Mapping(0, 2), Mapping(0, 1)};
    assert s.mapped - {0} == s.mapped && [] + [PAIR] == [PAIR] && [PAIR] + [PAIR] == [PAIR, PAIR];
    steps := BeginsMap(premise, steps, s, []);
    s := s.(files := Holding([]), workers := multiset{Mapping(0, 1), Handed(0)});
    steps := BeginsMap(premise, steps, s, []);
    s := s.(workers := multiset{Mapping(0, 1), Mapping(0, 1)});
    steps := WritesPair(premise, steps, s, []);
    s := s.(files := Holding([PAIR]), workers := multiset{Mapping(0, 2), Mapping(0, 1)});
    steps := WritesPair(premise, steps, s, [PAIR]);
  }

  /** The file then holds the pair twice, and either worker may report. */
  lemma FileHoldsItTwice(premise: Premise) returns (steps: seq<Step>)
    requires !premise.maps.oneWriter
    ensures Reaches(premise, steps,
            System(Tiny(C.Completed, C.Unstarted, multiset{M}), Holding([PAIR, PAIR]), map[],
                multiset{Reporting(C.MapTask, 0)}, {0}, {}))
  {
    hide Reaches, Instead, Holding;
    steps := BothAppend(premise);
    var w, w' := Mapping(0, 2), Reporting(C.MapTask, 0);
    var s := System(Tiny(C.InProgress, C.Unstarted, multiset{M}), Holding([PAIR, PAIR]), map[], multiset{w, w}, {}, {});
    OneOfTwo(w, w, w');
    OneOfTwo(w', w, w');
    assert multiset{w, w'} == multiset{w', w} && multiset{w', w'} - multiset{w'} == multiset{w'};
    assert s.mapped + {0} == {0} && {0} + {0} == {0};
    steps := EndsMap(premise, steps, s);
    s := s.(workers := multiset{w', w}, mapped := {0});
    steps := EndsMap(premise, steps, s);
    s := s.(workers := multiset{w', w'});
    steps := ReportsMap(premise, steps, s, multiset{M});
  }

  /** The reduce task is handed out and reads the file, whatever it holds. */
  lemma FileIsRead(premise: Premise, steps: seq<Step>, s: System, x: Worker, pairs: seq<KeyValue>)
    returns (steps': seq<Step>)
    requires Reaches(premise, steps, s) && s.c == Tiny(C.Completed, C.Unstarted, multiset{M})
    requires s.files == Holding(pairs) && s.workers == multiset{x}
    ensures Reaches(premise, steps', s.(c := Tiny(C.Completed, C.InProgress, multiset{M, R}),
                                        workers := multiset{x, Reading(0, pairs, 1)}))
  {
    hide Reaches, Instead, Holding;
    OneOfTwo(x, Reading(0, [], 0), Reading(0, pairs, 1));
    assert multiset{x} + multiset{Reading(0, [], 0)} == multiset{x, Reading(0, [], 0)};
    assert multiset{M} + multiset{R} == multiset{M, R};
    steps' := AsksForReduce(premise, steps, s, multiset{M});
    steps' := ReadsFile(premise, steps', s.(c := Tiny(C.Completed, C.InProgress, multiset{M, R}),
                                            workers := multiset{x, Reading(0, [], 0)}), pairs);
  }

  /** It prints at most one line, comes to its end and is reported. */
  lemma OutputIsPrinted(premise: Premise, steps: seq<Step>, s: System, x: Worker, pairs: seq<KeyValue>,
                        lines: seq<string>)
    returns (steps': seq<Step>, s': System)
    requires Reaches(premise, steps, s) && s.c == Tiny(C.Completed, C.InProgress, multiset{M, R}) && s.outs == map[]
    requires IsOutput(Tally, pairs, lines) && |lines| <= 1
    requires s.workers == multiset{x, Reading(0, pairs, 1)} && !x.Printing?
    ensures Reaches(premise, steps', s') && C.SaysDone(s'.c) && s'.outs == Out(lines)
  {
    hide Reaches, IsOutput, Instead, Out;
    OutIsSet([], []);
    OutIsSet([], lines);
    OneOfTwo(x, Reading(0, pairs, 1), Printing(0, lines, 0));
    OneOfTwo(x, Printing(0, lines, 0), Printing(0, lines, 1));
    OneOfTwo(x, Printing(0, lines, |lines|), Reporting(C.ReduceTask, 0));
    steps' := BeginsPrinting(premise, steps, s, pairs, lines);
    s' := s.(outs := Out([]), workers := multiset{x, Printing(0, lines, 0)}, reduced := s.reduced - {0});
    if lines != [] {
      assert lines == [lines[0]];
      steps' := PrintsLine(premise, steps', s', lines[0]);
      s' := s'.(outs := Out(lines), workers := multiset{x, Printing(0, lines, 1)});
    }
    steps' := EndsPrinting(premise, steps', s', lines);
    s' := s'.(workers := multiset{x, Reporting(C.ReduceTask, 0)}, reduced := s'.reduced + {0});
    steps' := ReportsReduce(premise, steps', s', multiset{M, R});
    s' := s'.(c := Tiny(C.Completed, C.Completed, multiset{M, R}),
        workers := s'.workers - multiset{Reporting(C.ReduceTask, 0)});
  }

  /** The map task is done by one worker. */
  lemma OneWorkerMaps(premise: Premise) returns (steps: seq<Step>)
    ensures Reaches(premise, steps,
            System(Tiny(C.Completed, C.Unstarted, multiset{M}), Holding([PAIR]), map[], multiset{}, {0}, {}))
  {
    hide Reaches, Instead, Holding;
    AtStart(premise);
    var w, none: multiset<Worker> := Reporting(C.MapTask, 0), multiset{};
    var timers: multiset<(C.Kind, nat)> := multiset{};
    var s := System(Tiny(C.Unstarted, C.Unstarted, timers), map[], map[], none, {}, {});
    OnlyOne(Handed(0), Mapping(0, 1));
    OnlyOne(Mapping(0, 1), Mapping(0, 2));
    OnlyOne(Mapping(0, 2), w);
    assert s.mapped - {0} == s.mapped && s.mapped + {0} == {0} && [] + [PAIR] == [PAIR];
    assert none + multiset{Handed(0)} == multiset{Handed(0)} && multiset{w} - multiset{w} == none;
    assert timers + multiset{M} == multiset{M};
    steps := AsksForMap(premise, [], s, timers);
    s := s.(c := Tiny(C.InProgress, C.Unstarted, multiset{M}), workers := multiset{Handed(0)});
    steps := BeginsMap(premise, steps, s, []);
    s := s.(files := Holding([]), workers := multiset{Mapping(0, 1)});
    steps := WritesPair(premise, steps, s, []);
    s := s.(files := Holding([PAIR]), workers := multiset{Mapping(0, 2)});
    steps := EndsMap(premise, steps, s);
    s := s.(workers := multiset{w}, mapped := {0});
    steps := ReportsMap(premise, steps, s, multiset{M});
  }

  /** The reduce task is handed out, taken back and handed out again. */
  lemma TwoWorkersAreToReduce(premise: Premise) returns (steps: seq<Step>)
    ensures Reaches(premise, steps,
            System(Tiny(C.Completed, C.InProgress, multiset{M, R}), Holding([PAIR]), map[],
                multiset{Reading(0, [], 0), Reading(0, [], 0)}, {0}, {}))
  {
    hide Reaches, Holding;
    steps := OneWorkerMaps(premise);
    var w, timers := Reading(0, [], 0), multiset{M};
    var s := System(Tiny(C.Completed, C.Unstarted, timers), Holding([PAIR]), map[], multiset{}, {0}, {});
    steps := AsksForReduce(premise, steps, s, timers);
    timers := timers + multiset{R};
    s := s.(c := Tiny(C.Completed, C.InProgress, timers), workers := s.workers + multiset{w});
    steps := ReduceTimerFires(premise, steps, s, timers);
    timers := timers - multiset{R};
    s := s.(c := Tiny(C.Completed, C.Unstarted, timers));
    steps := AsksForReduce(premise, steps, s, timers);
    assert timers + multiset{R} == multiset{M, R} && s.workers + multiset{w} == multiset{w, w};
  }

  /** Both read the file, and the first prints its line. */
  lemma FirstPrints(premise: Premise) returns (steps: seq<Step>)
    ensures Reaches(premise, steps,
            System(Tiny(C.Completed, C.InProgress, multiset{M, R}), Holding([PAIR]), Out(LINES),
                multiset{Reading(0, [PAIR], 1), Printing(0, LINES, 1)}, {0}, {}))
  {
    hide Reaches, Holding, Instead, IsOutput, Out;
    OutIsSet([], []);
    OutIsSet([], LINES);
    steps := TwoWorkersAreToReduce(premise);
    OneIsPrinted();
    var w, w', w'' := Reading(0, [], 0), Reading(0, [PAIR], 1), Printing(0, LINES, 0);
    var s := System(Tiny(C.Completed, C.InProgress, multiset{M, R}), Holding([PAIR]), map[], multiset{w, w}, {0}, {});
    OneOfTwo(w, w, w');
    OneOfTwo(w', w, w');
    OneOfTwo(w', w', w'');
    OneOfTwo(w', w'', Printing(0, LINES, 1));
    assert multiset{w, w'} == multiset{w', w} && s.reduced - {0} == s.reduced;
    steps := ReadsFile(premise, steps, s, [PAIR]);
    s := s.(workers := multiset{w', w});
    steps := ReadsFile(premise, steps, s, [PAIR]);
    s := s.(workers := multiset{w', w'});
    steps := BeginsPrinting(premise, steps, s, [PAIR], LINES);
    s := s.(outs := Out([]), workers := multiset{w', w''});
    steps := PrintsLine(premise, steps, s, "k 1\n");
  }

  /** The first comes to its end and reports, and the second empties the output: in the other order, or in this one. */
  lemma SecondEmptiesOutput(premise: Premise) returns (steps: seq<Step>, s: System)
    requires !premise.reduces.freshReports || premise.reduces.late != NoLateWrites
    ensures Reaches(premise, steps, s) && C.SaysDone(s.c) && s.outs == Out([])
  {
    hide Reaches, Holding, Instead, IsOutput, Out;
    OutIsSet(LINES, []);
    steps := FirstPrints(premise);
    OneIsPrinted();
    var w, w', w'' := Reading(0, [PAIR], 1), Printing(0, LINES, 0), Reporting(C.ReduceTask, 0);
    s := System(Tiny(C.Completed, C.InProgress, multiset{M, R}), Holding([PAIR]), Out(LINES),
        multiset{w, Printing(0, LINES, 1)}, {0}, {});
    OneOfTwo(w, Printing(0, LINES, 1), w'');
    OneOfTwo(w'', w, w');
    OnlyOne(w, w');
    assert multiset{w, w''} == multiset{w'', w} && multiset{w, w''} - multiset{w''} == multiset{w};
    assert s.reduced + {0} == {0};
    steps := EndsPrinting(premise, steps, s, LINES);
    s := s.(workers := multiset{w'', w}, reduced := {0});
    if !premise.reduces.freshReports {
      steps := BeginsPrinting(premise, steps, s, [PAIR], LINES);
      s := s.(outs := Out([]), workers := multiset{w'', w'}, reduced := s.reduced - {0});
      steps := ReportsReduce(premise, steps, s, multiset{M, R});
      s := s.(c := Tiny(C.Completed, C.Completed, multiset{M, R}), workers := s.workers - multiset{w''});
    } else {
      steps := ReportsReduce(premise, steps, s, multiset{M, R});
      s := s.(c := Tiny(C.Completed, C.Completed, multiset{M, R}), workers := multiset{w});
      steps := BeginsPrinting(premise, steps, s, [PAIR], LINES);
      s := s.(outs := Out([]), workers := multiset{w'}, reduced := s.reduced - {0});
    }
  }

  /** The second empties the output while the first has it open, and dies; the first comes to its end. */
  lemma SecondCutsIn(premise: Premise) returns (steps: seq<Step>, s: System)
    requires !premise.reduces.oneWriter
    ensures Reaches(premise, steps, s) && C.SaysDone(s.c) && s.outs == Out([])
  {
    hide Reaches, Holding, Instead, IsOutput, Out;
    OutIsSet(LINES, []);
    steps := FirstPrints(premise);
    OneIsPrinted();
    var w, w', w'' := Printing(0, LINES, 1), Printing(0, LINES, 0), Reporting(C.ReduceTask, 0);
    s := System(Tiny(C.Completed, C.InProgress, multiset{M, R}), Holding([PAIR]), Out(LINES),
        multiset{w, Reading(0, [PAIR], 1)}, {0}, {});
    OneOfTwo(w, Reading(0, [PAIR], 1), w');
    OneOfTwo(w', w, w'');
    assert multiset{Reading(0, [PAIR], 1), w} == s.workers && multiset{w, w'} == multiset{w', w};
    assert multiset{w', w''} - multiset{w'} == multiset{w''} && s.reduced - {0} == s.reduced && s.reduced + {0} == {0};
    steps := BeginsPrinting(premise, steps, s, [PAIR], LINES);
    s := s.(outs := Out([]), workers := multiset{w', w});
    steps := EndsPrinting(premise, steps, s, LINES);
    s := s.(workers := multiset{w', w''}, reduced := {0});
    steps := PrinterDies(premise, steps, s, LINES);
    s := s.(workers := multiset{w''});
    steps := ReportsReduce(premise, steps, s, multiset{M, R});
    s := s.(c := Tiny(C.Completed, C.Completed, multiset{M, R}), workers := s.workers - multiset{w''});
  }

  lemma WrongOutput(premise: Premise, steps: seq<Step>, s: System, lines: seq<string>)
    requires Reaches(premise, steps, s) && C.SaysDone(s.c) && s.outs == Out(lines) && "k 1\n" !in lines
    ensures !RightWhenDone(premise, TINY, map[], map[], steps, LINES)
  {
    hide Run, IsOutput, Symmetric, Emitted;
    TinyJob();
    assert Outputs(Out(lines), 1) == [lines];
    assert [lines][..0] == [] && Concat([lines]) == [] + lines == lines;
    assert "k 1\n" in multiset(LINES);
  }

  /**
   A stale report of a map task, or a late run that begins to write and is not even cut short, loses the
   only line; two runs that write at the same time get it wrong.
   */
  lemma MapDisorderGivesWrongOutput(premise: Premise) returns (steps: seq<Step>, s: System, lines: seq<string>)
    requires premise.maps != ORDERLY
    ensures Reaches(premise, steps, s) && C.SaysDone(s.c) && s.outs == Out(lines) && "k 1\n" !in lines
  {
    hide Reaches, IsOutput;
    NoneIsPrinted();
    TwoArePrinted();
    var x, pairs;
    if !premise.maps.freshReports || premise.maps.late != NoLateWrites {
      steps := SecondEmptiesFile(premise);
      s := System(Tiny(C.Completed, C.Unstarted, multiset{M}), Holding([]), map[], multiset{Mapping(0, 1)}, {}, {});
      x, pairs, lines := Mapping(0, 1), [], [];
    } else {
      steps := FileHoldsItTwice(premise);
      s := System(Tiny(C.Completed, C.Unstarted, multiset{M}), Holding([PAIR, PAIR]), map[],
          multiset{Reporting(C.MapTask, 0)}, {0}, {});
      x, pairs, lines := Reporting(C.MapTask, 0), [PAIR, PAIR], ["k 2\n"];
    }
    steps := FileIsRead(premise, steps, s, x, pairs);
    s := s.(c := Tiny(C.Completed, C.InProgress, multiset{M, R}), workers := multiset{x, Reading(0, pairs, 1)});
    steps, s := OutputIsPrinted(premise, steps, s, x, pairs, lines);
  }

  lemma ReduceDisorderLosesOutput(premise: Premise) returns (steps: seq<Step>, s: System)
    requires premise.reduces != ORDERLY
    ensures Reaches(premise, steps, s) && C.SaysDone(s.c) && s.outs == Out([])
  {
    hide Reaches;
    if premise.reduces.oneWriter {
      steps, s := SecondEmptiesOutput(premise);
    } else {
      steps, s := SecondCutsIn(premise);
    }
  }

  lemma DisorderGivesWrongOutput(premise: Premise) returns (steps: seq<Step>)
    requires premise != ALL_ORDERLY
    ensures !RightWhenDone(premise, TINY, map[], map[], steps, LINES)
  {
    hide Reaches, RightWhenDone;
    var s, lines;
    if premise.maps != ORDERLY {
      steps, s, lines := MapDisorderGivesWrongOutput(premise);
    } else {
      steps, s := ReduceDisorderLosesOutput(premise);
      lines := [];
    }
    WrongOutput(premise, steps, s, lines);
  }

  /** What Done announces is the sequential output in every run exactly under all parts of the premise. */
  lemma RightWhenDoneIff(premise: Premise)
    ensures (forall job, files, outs, steps, whole :: RightWhenDone(premise, job, files, outs, steps, whole))
            <==> premise == ALL_ORDERLY
  {
    if premise == ALL_ORDERLY {
      forall job, files, outs, steps, whole
        ensures RightWhenDone(premise, job, files, outs, steps, whole)
      {
        hide Run, MatchesSequential, IsOutput, Symmetric, Emitted;
        if WfJob(job) && Symmetric(job.reducef) && IsOutput(job.reducef, Emitted(job.kvas, |job.kvas|), whole)
           && Run(premise, job, files, outs, steps).Some? && C.SaysDone(Run(premise, job, files, outs, steps).value.c) {
          DoneMeansSequential(job, files, outs, steps, whole);
        }
      }
    } else {
      var steps := DisorderGivesWrongOutput(premise);
    }
  }
}
