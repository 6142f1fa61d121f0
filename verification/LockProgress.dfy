/**
 No run of the lock service is a dead end: whatever was issued, logged and applied before, it can be
 carried on so that any client comes to own any key on every server.
 */
module LockProgress {
  import opened Wrappers
  import opened LockTable
  import opened LockServing
  import opened LockSystem

  ghost predicate Goes(servers: nat, steps: seq<Step>, s: System) {
    Run(servers, steps) == Some(s)
  }

  lemma {:induction false} ServersStay(servers: nat, steps: seq<Step>)
    requires Run(servers, steps).Some?
    ensures |Run(servers, steps).value.applied| == servers
  {
    if steps != [] {
      ServersStay(servers, steps[..|steps| - 1]);
    }
  }

  lemma GoesWell(servers: nat, steps: seq<Step>, s: System)
    requires Goes(servers, steps, s)
    ensures Sound(s) && |s.applied| == servers
  {
    hide Run, Sound;
    SoundHolds(servers, steps);
    ServersStay(servers, steps);
  }

  lemma OneStep(servers: nat, steps: seq<Step>, s: System, step: Step) returns (steps': seq<Step>)
    requires Goes(servers, steps, s) && Enabled(s, step)
    ensures steps <= steps' && Goes(servers, steps', Next(s, step))
  {
    hide Enabled, Next;
    steps' := steps + [step];
    assert steps'[..|steps|] == steps;
  }

  // ---------------------------------------------------------------- calls return

  /** Servers below k have applied the whole log, and nothing but their progress is new. */
  ghost predicate AppliedBelow(s: System, s': System, k: nat) {
    && s' == s.(applied := s'.applied) && |s'.applied| == |s.applied| && k <= |s.applied|
    && (forall v :: 0 <= v < k ==> s'.applied[v] == |s.log|)
    && (forall v :: 0 <= v < |s.applied| ==> s'.applied[v] <= |s.log|)
  }

  lemma {:induction false} AllApply(servers: nat, steps: seq<Step>, s: System, k: nat)
    returns (steps': seq<Step>, s': System)
    requires Goes(servers, steps, s) && k < servers && AppliedBelow(s, s, k)
    ensures steps <= steps' && Goes(servers, steps', s') && AppliedBelow(s, s', servers)
    decreases servers - k, if k < |s.applied| then |s.log| - s.applied[k] else 0
  {
    hide Goes, Sound;
    GoesWell(servers, steps, s);
    if s.applied[k] < |s.log| {
      var steps1 := OneStep(servers, steps, s, ApplyNext(k));
      steps', s' := AllApply(servers, steps1, Next(s, ApplyNext(k)), k);
    } else if k + 1 < servers {
      steps', s' := AllApply(servers, steps, s, k + 1);
    } else {
      steps', s' := steps, s;
    }
  }

  lemma Bounded(s: System)
    requires Sound(s)
    ensures AppliedBelow(s, s, 0)
    ensures forall c :: c in s.outstanding ==> s.outstanding[c] in s.issued && s.outstanding[c].client == c
  {
  }

  /** The outstanding request of a client is logged once more, applied everywhere and acknowledged. */
  lemma CallReturns(servers: nat, steps: seq<Step>, s: System, c: ClientId)
    returns (steps': seq<Step>, s': System)
    requires Goes(servers, steps, s) && servers > 0 && c in s.outstanding
    ensures steps <= steps' && Goes(servers, steps', s')
    ensures s'.outstanding == s.outstanding - {c} && s'.log == s.log + [s.outstanding[c]]
    ensures forall v :: 0 <= v < |s'.applied| ==> s'.applied[v] == |s'.log|
  {
    hide Goes, Sound;
    GoesWell(servers, steps, s);
    Bounded(s);
    var op := s.outstanding[c];
    var steps1 := OneStep(servers, steps, s, Append(op));
    var s1 := Next(s, Append(op));
    var steps2, s2 := AllApply(servers, steps1, s1, 0);
    GoesWell(servers, steps2, s2);
    var step := Acknowledge(0, c, |s.log|);
    steps' := OneStep(servers, steps2, s2, step);
    s' := Next(s2, step);
  }

  /** Nobody waits for an answer, and every server has applied the log. */
  ghost predicate Calm(s: System) {
    s.outstanding == map[] && forall v :: 0 <= v < |s.applied| ==> s.applied[v] == |s.log|
  }

  lemma SomeElement<T>(s: set<T>) returns (x: T)
    requires s != {}
    ensures x in s
  {
    x :| x in s;
  }

  lemma AllReturn(servers: nat, steps: seq<Step>, s: System) returns (steps': seq<Step>, s': System)
    requires Goes(servers, steps, s) && servers > 0
    ensures steps <= steps' && Goes(servers, steps', s') && Calm(s')
    decreases s.outstanding.Keys
  {
    hide Goes, Sound;
    GoesWell(servers, steps, s);
    if s.outstanding.Keys == {} {
      assert s.outstanding == map[];
      Bounded(s);
      steps', s' := AllApply(servers, steps, s, 0);
    } else {
      var c := SomeElement(s.outstanding.Keys);
      var steps1, s1 := CallReturns(servers, steps, s, c);
      assert s1.outstanding.Keys == s.outstanding.Keys - {c};
      steps', s' := AllReturn(servers, steps1, s1);
    }
  }

  // ---------------------------------------------------------------- one more call

  ghost function Table(s: System): Store {
    Replay(Effective(s.log))
  }

  lemma AllNumbered(s: System)
    requires Sound(s)
    ensures forall p :: 0 <= p < |s.log| ==> s.log[p].requestId <= Counter(s, s.log[p].client)
  {
    hide Preceded, Settled, Acks;
  }

  /** A request with a new number takes effect. */
  lemma NewTakesEffect(s: System, op: Op)
    requires Sound(s) && op.requestId > Counter(s, op.client)
    ensures Replay(Effective(s.log + [op])) == Apply(Table(s), op)
  {
    hide Last, Fresh, Effective, Replay, Apply;
    assert Newest(s.log, op) by { AllNumbered(s); }
    FreshIff(s.log, op);
    EffectiveOneMore(s.log, op);
    ReplayOneMore(Effective(s.log), op);
  }

  /** From a calm state a client makes one call, which takes effect on every server. */
  lemma CallsOnce(servers: nat, steps: seq<Step>, s: System, c: ClientId, kind: OpType, key: Key)
    returns (steps': seq<Step>, s': System, op: Op)
    requires Goes(servers, steps, s) && servers > 0 && Calm(s)
    ensures steps <= steps' && Goes(servers, steps', s') && Calm(s')
    ensures Is(op, kind, key, c) && Table(s') == Apply(Table(s), op)
  {
    hide Goes, Sound, Replay, Effective, Apply;
    GoesWell(servers, steps, s);
    op := Op(kind, key, c, Counter(s, c) + 1);
    NewTakesEffect(s, op);
    var steps1 := OneStep(servers, steps, s, Issue(c, kind, key));
    var s1 := Next(s, Issue(c, kind, key));
    steps', s' := CallReturns(servers, steps1, s1, c);
    assert s1.outstanding - {c} == map[];
  }

  lemma QueueAfterUnlock(store: Store, op: Op, key: Key)
    requires op.kind == UnlockOp && op.key == key
    ensures Queue(Apply(store, op), key) == Without(Queue(store, key), op.client)
  {
    hide Apply, Queue, Without;
    QueueAfter(store, op, key);
  }

  lemma {:induction false} WithoutMember(queue: seq<ClientId>, id: ClientId)
    requires id in queue
    ensures |Without(queue, id)| < |queue|
  {
    var last := |queue| - 1;
    if queue[last] == id {
      WithoutIsShorter(queue[..last], id);
    } else {
      WithoutMember(queue[..last], id);
    }
  }

  /** All other clients leave the queue of the key. */
  lemma OthersLeave(servers: nat, steps: seq<Step>, s: System, c: ClientId, key: Key)
    returns (steps': seq<Step>, s': System)
    requires Goes(servers, steps, s) && servers > 0 && Calm(s)
    ensures steps <= steps' && Goes(servers, steps', s') && Calm(s')
    ensures forall p :: 0 <= p < |Queue(Table(s'), key)| ==> Queue(Table(s'), key)[p] == c
    decreases |Queue(Table(s), key)|
  {
    hide Goes, Calm, Table, Queue, Apply, Without;
    var queue := Queue(Table(s), key);
    if p :| 0 <= p < |queue| && queue[p] != c {
      var steps1, s1, op := CallsOnce(servers, steps, s, queue[p], UnlockOp, key);
      QueueAfterUnlock(Table(s), op, key);
      WithoutMember(queue, queue[p]);
      steps', s' := OthersLeave(servers, steps1, s1, c, key);
    } else {
      steps', s' := steps, s;
    }
  }

  lemma QueueAfterLock(store: Store, op: Op, key: Key, c: ClientId)
    requires Is(op, LockOp, key, c) && forall p :: 0 <= p < |Queue(store, key)| ==> Queue(store, key)[p] == c
    ensures Queue(Apply(store, op), key) != [] && Queue(Apply(store, op), key)[0] == c
  {
    hide Apply, Queue;
    QueueAfter(store, op, key);
  }

  // ---------------------------------------------------------------- every key can be had

  /** On every server, as far as it has applied the log, the client is the owner of the key. */
  ghost predicate OwnsEverywhere(s: System, c: ClientId, key: Key) {
    forall v :: 0 <= v < |s.applied| ==>
      s.applied[v] <= |s.log| && IsHead(Replay(Effective(s.log[..s.applied[v]])), key, c)
  }

  lemma CalmOwner(s: System, c: ClientId, key: Key)
    requires Calm(s) && IsHead(Table(s), key, c)
    ensures OwnsEverywhere(s, c, key)
  {
    hide Replay, Effective, IsHead;
    assert s.log[..|s.log|] == s.log;
  }

  /** Every run can be carried on until the client owns the key on every server. */
  lemma EveryKeyCanBeHad(servers: nat, steps: seq<Step>, c: ClientId, key: Key)
    requires Run(servers, steps).Some?
    ensures exists steps' ::
              steps <= steps' && Run(servers, steps').Some? && OwnsEverywhere(Run(servers, steps').value, c, key)
  {
    if servers == 0 {
      ServersStay(servers, steps);
      assert OwnsEverywhere(Run(servers, steps).value, c, key);
    } else {
      hide Run, Table, Apply, Queue, Calm, OwnsEverywhere;
      var steps1, s1 := AllReturn(servers, steps, Run(servers, steps).value);
      var steps2, s2 := OthersLeave(servers, steps1, s1, c, key);
      var steps3, s3, op := CallsOnce(servers, steps2, s2, c, LockOp, key);
      QueueAfterLock(Table(s2), op, key, c);
      CalmOwner(s3, c, key);
      assert steps <= steps3;
    }
  }
}
