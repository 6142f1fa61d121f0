/** The coordinator of a MapReduce job: handing out tasks, straggler timers and completion. */
module Coordination {
  import opened Wrappers

  datatype Status = Unstarted | InProgress | Completed

  datatype Kind = MapTask | ReduceTask

  /** `timers` are the sleeping DetectStraggler goroutines. */
  datatype State = State(
    maps: seq<Status>,
    reduces: seq<Status>,
    mapsLeft: int,
    reducesLeft: int,
    timers: multiset<(Kind, nat)>)

  datatype Reply =
    | NoTask
    | MapReply(fileName: string, nReduce: nat, id: nat)
    | ReduceReply(nMap: nat, id: nat)
    | AllDone

  function Initial(nMap: nat, nReduce: nat): State {
    State(seq(nMap, _ => Unstarted), seq(nReduce, _ => Unstarted), nMap, nReduce, multiset{})
  }

  /** The first unstarted task, or the number of tasks when there is none. */
  function FirstUnstarted(tasks: seq<Status>): (i: nat)
    ensures i <= |tasks| && (i < |tasks| ==> tasks[i] == Unstarted)
    ensures forall j :: 0 <= j < i ==> tasks[j] != Unstarted
  {
    if tasks == [] || tasks[0] == Unstarted then 0 else 1 + FirstUnstarted(tasks[1..])
  }

  function OnGetTask(s: State, files: seq<string>): (State, Reply)
    requires |files| == |s.maps|
  {
    if s.mapsLeft != 0 then
      var i := FirstUnstarted(s.maps);
      if i < |s.maps| then
        (s.(maps := s.maps[i := InProgress], timers := s.timers + multiset{(MapTask, i)}),
         MapReply(files[i], |s.reduces|, i))
      else (s, NoTask)
    else if s.reducesLeft == 0 then (s, AllDone)
    else
      var i := FirstUnstarted(s.reduces);
      if i < |s.reduces| then
        (s.(reduces := s.reduces[i := InProgress], timers := s.timers + multiset{(ReduceTask, i)}),
         ReduceReply(|s.maps|, i))
      else (s, NoTask)
  }

  ghost predicate InRange(s: State, kind: Kind, id: nat) {
    match kind
    case MapTask => id < |s.maps|
    case ReduceTask => id < |s.reduces|
  }

  function StatusOf(s: State, kind: Kind, id: nat): Status
    requires InRange(s, kind, id)
  {
    match kind
    case MapTask => s.maps[id]
    case ReduceTask => s.reduces[id]
  }

  function WithStatus(s: State, kind: Kind, id: nat, status: Status): State
    requires InRange(s, kind, id)
  {
    match kind
    case MapTask => s.(maps := s.maps[id := status])
    case ReduceTask => s.(reduces := s.reduces[id := status])
  }

  function OnStraggler(s: State, kind: Kind, id: nat): State
    requires InRange(s, kind, id)
  {
    var s' := s.(timers := s.timers - multiset{(kind, id)});
    if StatusOf(s, kind, id) == InProgress then WithStatus(s', kind, id, Unstarted) else s'
  }

  function OnMarkComplete(s: State, kind: Kind, id: nat): State
    requires InRange(s, kind, id)
  {
    if StatusOf(s, kind, id) != InProgress then s
    else
      var s' := WithStatus(s, kind, id, Completed);
      match kind
      case MapTask => s'.(mapsLeft := s.mapsLeft - 1)
      case ReduceTask => s'.(reducesLeft := s.reducesLeft - 1)
  }

  // ---------------------------------------------------------------- what each call changes

  /** Of all statuses, exactly that of one task is changed, to this. */
  ghost predicate OnlyBecomes(s: State, s': State, kind: Kind, id: nat, status: Status) {
    && |s'.maps| == |s.maps| && |s'.reduces| == |s.reduces|
    && InRange(s, kind, id) && StatusOf(s', kind, id) == status
    && forall k, i: nat :: InRange(s, k, i) && (k, i) != (kind, id) ==> StatusOf(s', k, i) == StatusOf(s, k, i)
  }

  /** A report counts exactly when the task is in progress: it becomes completed and its kind has one less to do. */
  lemma ReportCountsIff(s: State, kind: Kind, id: nat)
    requires InRange(s, kind, id)
    ensures var s' := OnMarkComplete(s, kind, id);
            && (s' != s <==> StatusOf(s, kind, id) == InProgress)
            && (StatusOf(s, kind, id) == InProgress ==>
                  && OnlyBecomes(s, s', kind, id, Completed) && s'.timers == s.timers
                  && s'.mapsLeft == s.mapsLeft - (if kind == MapTask then 1 else 0)
                  && s'.reducesLeft == s.reducesLeft - (if kind == ReduceTask then 1 else 0))
  {
  }

  /** A timer that fires frees its task exactly when it is in progress, and counts nothing. */
  lemma FireFreesIff(s: State, kind: Kind, id: nat)
    requires InRange(s, kind, id)
    ensures var s' := OnStraggler(s, kind, id);
            && OnlyBecomes(s, s', kind, id,
                 if StatusOf(s, kind, id) == InProgress then Unstarted else StatusOf(s, kind, id))
            && s'.timers == s.timers - multiset{(kind, id)}
            && s'.mapsLeft == s.mapsLeft && s'.reducesLeft == s.reducesLeft
  {
  }

  /** The least task that nobody has. */
  ghost predicate IsNext(tasks: seq<Status>, id: nat) {
    id < |tasks| && tasks[id] == Unstarted && Unstarted !in tasks[..id]
  }

  ghost function TasksOf(s: State, kind: Kind): seq<Status> {
    if kind == MapTask then s.maps else s.reduces
  }

  /** The worker is given this task, with a timer of its own, and nothing else changes. */
  ghost predicate Hands(s: State, files: seq<string>, s': State, reply: Reply, kind: Kind, id: nat)
    requires |files| == |s.maps|
  {
    && IsNext(TasksOf(s, kind), id) && OnlyBecomes(s, s', kind, id, InProgress)
    && s'.timers == s.timers + multiset{(kind, id)} && s'.mapsLeft == s.mapsLeft && s'.reducesLeft == s.reducesLeft
    && reply == if kind == MapTask then MapReply(files[id], |s.reduces|, id) else ReduceReply(|s.maps|, id)
  }

  /** A worker that asks is given the least unstarted task of the phase whenever there is one. */
  ghost predicate GivesNext(s: State, files: seq<string>, s': State, reply: Reply)
    requires |files| == |s.maps|
  {
    if s.mapsLeft != 0 then
      if Unstarted in s.maps then exists id: nat :: Hands(s, files, s', reply, MapTask, id)
      else s' == s && reply == NoTask
    else if s.reducesLeft == 0 then s' == s && reply == AllDone
    else if Unstarted in s.reduces then exists id: nat :: Hands(s, files, s', reply, ReduceTask, id)
    else s' == s && reply == NoTask
  }

  lemma AskGivesNext(s: State, files: seq<string>)
    requires |files| == |s.maps|
    ensures var (s', reply) := OnGetTask(s, files); GivesNext(s, files, s', reply)
  {
    var i, j := FirstUnstarted(s.maps), FirstUnstarted(s.reduces);
    var (s', reply) := OnGetTask(s, files);
    assert s.mapsLeft != 0 && i < |s.maps| ==> Hands(s, files, s', reply, MapTask, i);
    assert s.mapsLeft == 0 && s.reducesLeft != 0 && j < |s.reduces| ==> Hands(s, files, s', reply, ReduceTask, j);
  }

  // ---------------------------------------------------------------- the coordinator in place

  predicate SaysDone(s: State) {
    s.reducesLeft == 0
  }

  class Coordinator {
    const files: seq<string>
    const nReduce: nat
    var maps: seq<Status>
    var reduces: seq<Status>
    var mapsLeft: int
    var reducesLeft: int
    ghost var timers: multiset<(Kind, nat)>

    ghost predicate Valid()
      reads this
    {
      |maps| == |files| && |reduces| == nReduce
    }

    ghost function View(): State
      reads this
    {
      State(maps, reduces, mapsLeft, reducesLeft, timers)
    }

    constructor (files: seq<string>, nReduce: nat)
      ensures Valid() && this.files == files && this.nReduce == nReduce
      ensures View() == Initial(|files|, nReduce)
    {
      this.files, this.nReduce := files, nReduce;
      mapsLeft, reducesLeft, timers := |files|, nReduce, multiset{};
      var tasks: seq<Status> := [];
      for i := 0 to |files|
        invariant tasks == seq(i, _ => Unstarted)
      {
        tasks := tasks + [Unstarted];
      }
      maps := tasks;
      tasks := [];
      for i := 0 to nReduce
        invariant tasks == seq(i, _ => Unstarted)
      {
        tasks := tasks + [Unstarted];
      }
      reduces := tasks;
    }

    static method FindUnstarted(tasks: seq<Status>) returns (i: nat)
      ensures i == FirstUnstarted(tasks)
    {
      i := 0;
      while i < |tasks| && tasks[i] != Unstarted
        invariant i <= |tasks| && forall j :: 0 <= j < i ==> tasks[j] != Unstarted
      {
        i := i + 1;
      }
    }

    method GetTask() returns (reply: Reply)
      requires Valid()
      modifies this
      ensures Valid() && (View(), reply) == OnGetTask(old(View()), files)
      ensures GivesNext(old(View()), files, View(), reply)
    {
      hide GivesNext;
      AskGivesNext(View(), files);
      reply := NoTask;
      if mapsLeft != 0 {
        var i := FindUnstarted(maps);
        if i < |maps| {
          maps := maps[i := InProgress];
          reply := MapReply(files[i], nReduce, i);
          timers := timers + multiset{(MapTask, i)};
        }
      } else {
        if reducesLeft == 0 {
          return AllDone;
        }
        var i := FindUnstarted(reduces);
        if i < |reduces| {
          reduces := reduces[i := InProgress];
          reply := ReduceReply(|maps|, i);
          timers := timers + multiset{(ReduceTask, i)};
        }
      }
    }

    method DetectStraggler(kind: Kind, id: nat)
      requires Valid() && InRange(View(), kind, id)
      modifies this
      ensures Valid() && View() == OnStraggler(old(View()), kind, id)
      ensures OnlyBecomes(old(View()), View(), kind, id, if StatusOf(old(View()), kind, id) == InProgress then Unstarted
                                                         else StatusOf(old(View()), kind, id))
    {
      timers := timers - multiset{(kind, id)};
      if kind == MapTask && maps[id] == InProgress {
        maps := maps[id := Unstarted];
      } else if kind == ReduceTask && reduces[id] == InProgress {
        reduces := reduces[id := Unstarted];
      }
    }

    method MarkComplete(kind: Kind, id: nat)
      requires Valid() && InRange(View(), kind, id)
      modifies this
      ensures Valid() && View() == OnMarkComplete(old(View()), kind, id)
      ensures StatusOf(old(View()), kind, id) != InProgress ==> View() == old(View())
      ensures StatusOf(old(View()), kind, id) == InProgress ==> OnlyBecomes(old(View()), View(), kind, id, Completed)
    {
      if kind == MapTask && maps[id] == InProgress {
        maps := maps[id := Completed];
        mapsLeft := mapsLeft - 1;
      } else if kind == ReduceTask && reduces[id] == InProgress {
        reduces := reduces[id := Completed];
        reducesLeft := reducesLeft - 1;
      }
    }

    method Done() returns (ret: bool)
      ensures ret <==> SaysDone(View())
    {
      ret := false;
      if reducesLeft == 0 {
        ret := true;
      }
    }
  }

  // ---------------------------------------------------------------- runs

  /** Workers may report any task at any time, also one taken from them or reported before. */
  datatype Step = Ask | Fire(kind: Kind, id: nat) | Report(kind: Kind, id: nat)

  ghost predicate Enabled(s: State, step: Step) {
    match step
    case Ask => true
    case Fire(kind, id) => (kind, id) in s.timers && InRange(s, kind, id)
    case Report(kind, id) => InRange(s, kind, id)
  }

  ghost function Next(s: State, files: seq<string>, step: Step): State
    requires |files| == |s.maps| && Enabled(s, step)
  {
    match step
    case Ask => OnGetTask(s, files).0
    case Fire(kind, id) => OnStraggler(s, kind, id)
    case Report(kind, id) => OnMarkComplete(s, kind, id)
  }

  /** The coordinator after a run, or None when some step of it could not happen. */
  ghost function Run(files: seq<string>, nReduce: nat, steps: seq<Step>): (s: Option<State>)
    ensures s.Some? ==> |s.value.maps| == |files| && |s.value.reduces| == nReduce
  {
    if steps == [] then Some(Initial(|files|, nReduce))
    else
      var before := Run(files, nReduce, steps[..|steps| - 1]);
      var step := steps[|steps| - 1];
      if before.Some? && Enabled(before.value, step) then Some(Next(before.value, files, step)) else None
  }

  // ---------------------------------------------------------------- the run invariant

  function Uncompleted(tasks: seq<Status>): nat {
    if tasks == [] then 0
    else Uncompleted(tasks[..|tasks| - 1]) + if tasks[|tasks| - 1] == Completed then 0 else 1
  }

  lemma {:induction false} UncompletedAfter(tasks: seq<Status>, i: nat, status: Status)
    requires i < |tasks|
    ensures Uncompleted(tasks[i := status])
         == Uncompleted(tasks) - (if tasks[i] == Completed then 0 else 1) + (if status == Completed then 0 else 1)
  {
    var last := |tasks| - 1;
    if i < last {
      UncompletedAfter(tasks[..last], i, status);
      assert tasks[i := status][..last] == tasks[..last][i := status];
    } else {
      assert tasks[i := status][..last] == tasks[..last];
    }
  }

  lemma {:induction false} NoneUncompleted(tasks: seq<Status>)
    ensures Uncompleted(tasks) == 0 <==> forall i :: 0 <= i < |tasks| ==> tasks[i] == Completed
  {
    if tasks != [] {
      NoneUncompleted(tasks[..|tasks| - 1]);
    }
  }

  lemma {:induction false} AllUnstarted(n: nat)
    ensures Uncompleted(seq(n, _ => Unstarted)) == n
  {
    if n > 0 {
      AllUnstarted(n - 1);
      assert seq(n, _ => Unstarted)[..n - 1] == seq(n - 1, _ => Unstarted);
    }
  }

  /** One pending timer for a task in progress, none for an unstarted one, at most one for a completed one. */
  ghost predicate TimersFit(count: nat, status: Status) {
    match status
    case Unstarted => count == 0
    case InProgress => count == 1
    case Completed => count <= 1
  }

  ghost predicate Timed(s: State) {
    && (forall kind, id: nat :: InRange(s, kind, id) ==> TimersFit(s.timers[(kind, id)], StatusOf(s, kind, id)))
    && (forall kind, id: nat :: (kind, id) in s.timers ==> InRange(s, kind, id))
  }

  /** The counters count the uncompleted tasks, and reduce tasks wait for the maps. */
  ghost predicate Counted(s: State) {
    && s.mapsLeft == Uncompleted(s.maps)
    && s.reducesLeft == Uncompleted(s.reduces)
    && (s.mapsLeft != 0 ==> forall r :: 0 <= r < |s.reduces| ==> s.reduces[r] == Unstarted)
  }

  ghost predicate Sound(s: State) {
    Counted(s) && Timed(s)
  }

  lemma StartKeepsTimed(s: State, kind: Kind, id: nat)
    requires Timed(s) && InRange(s, kind, id) && StatusOf(s, kind, id) == Unstarted
    ensures Timed(WithStatus(s, kind, id, InProgress).(timers := s.timers + multiset{(kind, id)}))
  {
  }

  lemma AskKeepsSound(s: State, files: seq<string>)
    requires Sound(s) && |files| == |s.maps|
    ensures Sound(OnGetTask(s, files).0)
  {
    hide Uncompleted;
    var i, j := FirstUnstarted(s.maps), FirstUnstarted(s.reduces);
    if s.mapsLeft != 0 && i < |s.maps| {
      UncompletedAfter(s.maps, i, InProgress);
      StartKeepsTimed(s, MapTask, i);
    } else if s.mapsLeft == 0 && j < |s.reduces| {
      UncompletedAfter(s.reduces, j, InProgress);
      StartKeepsTimed(s, ReduceTask, j);
    }
  }

  lemma FireKeepsTimed(s: State, kind: Kind, id: nat)
    requires Timed(s) && (kind, id) in s.timers && InRange(s, kind, id)
    ensures Timed(OnStraggler(s, kind, id))
  {
    assert s.timers[(kind, id)] == 1;
  }

  lemma FireKeepsSound(s: State, kind: Kind, id: nat)
    requires Sound(s) && (kind, id) in s.timers && InRange(s, kind, id)
    ensures Sound(OnStraggler(s, kind, id))
  {
    FireKeepsTimed(s, kind, id);
    hide Timed, Uncompleted;
    match kind
    case MapTask => UncompletedAfter(s.maps, id, Unstarted);
    case ReduceTask => UncompletedAfter(s.reduces, id, Unstarted);
  }

  lemma ReportKeepsSound(s: State, kind: Kind, id: nat)
    requires Sound(s) && InRange(s, kind, id)
    ensures Sound(OnMarkComplete(s, kind, id))
  {
    hide Uncompleted;
    match kind
    case MapTask => UncompletedAfter(s.maps, id, Completed);
    case ReduceTask => UncompletedAfter(s.reduces, id, Completed);
  }

  lemma SoundAtStart(nMap: nat, nReduce: nat)
    ensures Sound(Initial(nMap, nReduce))
  {
    AllUnstarted(nMap);
    AllUnstarted(nReduce);
  }

  /** The run invariant. */
  lemma {:induction false} SoundHolds(files: seq<string>, nReduce: nat, steps: seq<Step>)
    requires Run(files, nReduce, steps).Some?
    ensures Sound(Run(files, nReduce, steps).value)
  {
    if steps == [] {
      SoundAtStart(|files|, nReduce);
    } else {
      var before := steps[..|steps| - 1];
      SoundHolds(files, nReduce, before);
      hide Sound, OnGetTask, OnStraggler, OnMarkComplete;
      var s := Run(files, nReduce, before).value;
      match steps[|steps| - 1]
      case Ask => AskKeepsSound(s, files);
      case Fire(kind, id) => FireKeepsSound(s, kind, id);
      case Report(kind, id) => ReportKeepsSound(s, kind, id);
    }
  }

  // ---------------------------------------------------------------- what follows

  ghost predicate AllCompleted(tasks: seq<Status>) {
    forall i :: 0 <= i < |tasks| ==> tasks[i] == Completed
  }

  /** Tasks are handed out unstarted, reduce tasks and the end only after every map is completed. */
  lemma RepliesAreTimely(files: seq<string>, nReduce: nat, steps: seq<Step>)
    requires Run(files, nReduce, steps).Some?
    ensures var s := Run(files, nReduce, steps).value;
            var reply := OnGetTask(s, files).1;
            && (reply.ReduceReply? ==>
                AllCompleted(s.maps) && reply.nMap == |files| && reply.id < nReduce
                    && s.reduces[reply.id] == Unstarted)
            && (reply.MapReply? ==>
                reply.id < |files| && reply.fileName == files[reply.id] && reply.nReduce == nReduce
                    && s.maps[reply.id] == Unstarted)
            && (reply.AllDone? <==> AllCompleted(s.maps) && AllCompleted(s.reduces))
  {
    SoundHolds(files, nReduce, steps);
    var s := Run(files, nReduce, steps).value;
    NoneUncompleted(s.maps);
    NoneUncompleted(s.reduces);
  }

  /** The kind of task that is being handed out. */
  ghost function Phase(s: State): Kind {
    if AllCompleted(s.maps) then ReduceTask else MapTask
  }

  lemma HandedIsGiven(s: State, files: seq<string>)
    requires |files| == |s.maps|
    ensures forall s', reply, kind, id :: Hands(s, files, s', reply, kind, id) ==>
              if kind == MapTask then reply.MapReply? else reply.ReduceReply?
  {
  }

  /**
   In every reachable state, a worker that asks is told to wait if and only if the phase has uncompleted
   tasks and all of them are in progress, to stop if and only if every task is completed, and is
   otherwise given the least unstarted task of the phase, with a timer of its own.
   */
  lemma AnswersExactly(files: seq<string>, nReduce: nat, steps: seq<Step>)
    requires Run(files, nReduce, steps).Some?
    ensures var s := Run(files, nReduce, steps).value;
            var (s', reply) := OnGetTask(s, files);
            && (reply == NoTask <==>
                  !AllCompleted(TasksOf(s, Phase(s))) && Unstarted !in TasksOf(s, Phase(s)))
            && (reply == AllDone <==> AllCompleted(s.maps) && AllCompleted(s.reduces))
            && (if reply == NoTask || reply == AllDone then s' == s
                else exists id: nat :: Hands(s, files, s', reply, Phase(s), id))
  {
    SoundHolds(files, nReduce, steps);
    var s := Run(files, nReduce, steps).value;
    hide Run, OnGetTask, Timed, Uncompleted, Hands;
    NoneUncompleted(s.maps);
    NoneUncompleted(s.reduces);
    AskGivesNext(s, files);
    HandedIsGiven(s, files);
  }

  lemma DoneMeansCompleted(files: seq<string>, nReduce: nat, steps: seq<Step>)
    requires Run(files, nReduce, steps).Some?
    requires nReduce >= 1 || files == []
    ensures var s := Run(files, nReduce, steps).value;
            SaysDone(s) <==> AllCompleted(s.maps) && AllCompleted(s.reduces)
  {
    SoundHolds(files, nReduce, steps);
    var s := Run(files, nReduce, steps).value;
    NoneUncompleted(s.maps);
    NoneUncompleted(s.reduces);
    assert nReduce >= 1 ==> s.reduces[0] == Completed || s.reduces[0] != Completed;
  }

  /** If the run is possible and Done then answers true, every task is completed. */
  ghost predicate DoneIsRight(files: seq<string>, nReduce: nat, steps: seq<Step>) {
    var s := Run(files, nReduce, steps);
    s.Some? && SaysDone(s.value) ==> AllCompleted(s.value.maps) && AllCompleted(s.value.reduces)
  }

  /** Done is right in every run exactly when there is a reduce task or nothing to map. */
  lemma DoneIsRightIff(files: seq<string>, nReduce: nat)
    ensures (forall steps :: DoneIsRight(files, nReduce, steps)) <==> nReduce >= 1 || files == []
  {
    if nReduce >= 1 || files == [] {
      forall steps
        ensures DoneIsRight(files, nReduce, steps)
      {
        if Run(files, nReduce, steps).Some? {
          DoneMeansCompleted(files, nReduce, steps);
        }
      }
    } else {
      assert Initial(|files|, nReduce).maps[0] == Unstarted;
      assert !DoneIsRight(files, nReduce, []);
    }
  }

  lemma CompletedStays(s: State, files: seq<string>, step: Step, kind: Kind, id: nat)
    requires |files| == |s.maps| && Enabled(s, step)
    ensures |Next(s, files, step).maps| == |s.maps| && |Next(s, files, step).reduces| == |s.reduces|
    ensures InRange(s, kind, id) && StatusOf(s, kind, id) == Completed ==>
            StatusOf(Next(s, files, step), kind, id) == Completed
  {
  }

  lemma {:induction false} CompletedForever(files: seq<string>, nReduce: nat, steps: seq<Step>, k: nat, kind: Kind,
                                            id: nat)
    requires Run(files, nReduce, steps).Some? && k <= |steps|
    ensures Run(files, nReduce, steps[..k]).Some?
    ensures var s, s' := Run(files, nReduce, steps[..k]).value, Run(files, nReduce, steps).value;
            InRange(s, kind, id) && StatusOf(s, kind, id) == Completed ==> StatusOf(s', kind, id) == Completed
  {
    hide Next;
    if k == |steps| {
      assert steps[..k] == steps;
    } else {
      var before := steps[..|steps| - 1];
      CompletedForever(files, nReduce, before, k, kind, id);
      assert before[..k] == steps[..k];
      CompletedStays(Run(files, nReduce, before).value, files, steps[|steps| - 1], kind, id);
    }
  }

  /** While a task is uncompleted, a worker that asks gets one or some timer will free one. */
  lemma NeverStuck(files: seq<string>, nReduce: nat, steps: seq<Step>)
    requires Run(files, nReduce, steps).Some?
    ensures var s := Run(files, nReduce, steps).value;
            var reply := OnGetTask(s, files).1;
            reply == NoTask ==>
              exists kind, id: nat :: InRange(s, kind, id) && StatusOf(s, kind, id) == InProgress
                  && (kind, id) in s.timers
  {
    SoundHolds(files, nReduce, steps);
    var s := Run(files, nReduce, steps).value;
    NoneUncompleted(s.maps);
    NoneUncompleted(s.reduces);
    if OnGetTask(s, files).1 == NoTask {
      if s.mapsLeft != 0 {
        var id: nat :| id < |s.maps| && s.maps[id] != Completed;
        assert InRange(s, MapTask, id) && StatusOf(s, MapTask, id) == InProgress;
      } else {
        var id: nat :| id < |s.reduces| && s.reduces[id] != Completed;
        assert InRange(s, ReduceTask, id) && StatusOf(s, ReduceTask, id) == InProgress;
      }
    }
  }
}
