/**
 Clerks, the committed log and the lock servers together.  Replication is one growing log, into
 which a request may be appended any number of times once it is issued; each server applies the
 log in order at its own pace.
 */
module LockSystem {
  import opened Wrappers
  import opened LockTable
  import opened LockServing

  datatype System = System(
    counters: map<ClientId, nat>,
    outstanding: map<ClientId, Op>,
    issued: set<Op>,
    log: seq<Op>,
    applied: seq<nat>,
    acked: set<(nat, Op)>)

  datatype Step =
    | Issue(client: ClientId, kind: OpType, key: Key)
    | Append(op: Op)
    | ApplyNext(server: nat)
    | Acknowledge(server: nat, client: ClientId, index: nat)

  function Counter(s: System, c: ClientId): nat {
    if c in s.counters then s.counters[c] else 0
  }

  /**
   A clerk issues a request only when its last call has returned; a call returns when some server
   has applied, at some index, an operation that isSameOp takes for the request.
   */
  ghost predicate Enabled(s: System, step: Step) {
    match step
    case Issue(c, _, _) => c !in s.outstanding
    case Append(op) => op in s.issued
    case ApplyNext(v) => v < |s.applied| && s.applied[v] < |s.log|
    case Acknowledge(v, c, index) =>
      && v < |s.applied| && index < s.applied[v] && index < |s.log|
      && c in s.outstanding && SameOp(s.outstanding[c], s.log[index])
  }

  ghost function Next(s: System, step: Step): System
    requires Enabled(s, step)
  {
    match step
    case Issue(c, kind, key) =>
      var op := Op(kind, key, c, Counter(s, c) + 1);
      s.(counters := s.counters[c := op.requestId], outstanding := s.outstanding[c := op], issued := s.issued + {op})
    case Append(op) => s.(log := s.log + [op])
    case ApplyNext(v) => s.(applied := s.applied[v := s.applied[v] + 1])
    case Acknowledge(v, c, _) =>
      s.(outstanding := s.outstanding - {c}, acked := s.acked + {(v, s.outstanding[c])})
  }

  ghost function Initial(servers: nat): System {
    System(map[], map[], {}, [], seq(servers, _ => 0), {})
  }

  /** The system after a run, or None when some step of it could not happen. */
  ghost function Run(servers: nat, steps: seq<Step>): Option<System> {
    if steps == [] then Some(Initial(servers))
    else
      var before := Run(servers, steps[..|steps| - 1]);
      var step := steps[|steps| - 1];
      if before.Some? && Enabled(before.value, step) then Some(Next(before.value, step)) else None
  }

  // ---------------------------------------------------------------- what a run keeps

  ghost predicate Numbered(op: Op, c: ClientId, id: int) {
    op.client == c && op.requestId == id
  }

  /** Request id of client c is among the first k entries. */
  ghost predicate Logged(log: seq<Op>, k: int, c: ClientId, id: int) {
    exists q :: 0 <= q < k && q < |log| && Numbered(log[q], c, id)
  }

  /** An entry is preceded by every earlier request of its client. */
  ghost predicate Preceded(log: seq<Op>) {
    forall p, j :: 0 <= p < |log| && 1 <= j < log[p].requestId ==> Logged(log, p, log[p].client, j)
  }

  ghost predicate PositiveIds(log: seq<Op>) {
    forall p :: 0 <= p < |log| ==> log[p].requestId >= 1
  }

  ghost predicate IssuedOnce(s: System) {
    && (forall op :: op in s.issued ==> 1 <= op.requestId <= Counter(s, op.client))
    && (forall op, op' :: op in s.issued && op' in s.issued && SameOp(op, op') ==> op == op')
  }

  /** All requests of a client before its outstanding one are in the log. */
  ghost predicate Settled(s: System) {
    && (forall c :: c in s.outstanding ==> s.outstanding[c] in s.issued && Numbered(s.outstanding[c], c, Counter(s, c)))
    && (forall c, id :: 1 <= id <= Counter(s, c) && (id < Counter(s, c) || c !in s.outstanding) ==>
        Logged(s.log, |s.log|, c, id))
  }

  ghost predicate Acks(s: System) {
    && (forall v :: 0 <= v < |s.applied| ==> s.applied[v] <= |s.log|)
    && forall v, op :: (v, op) in s.acked ==>
      op in s.issued && v < |s.applied| && Logged(s.log, s.applied[v], op.client, op.requestId)
  }

  ghost predicate Sound(s: System) {
    && IssuedOnce(s) && Settled(s) && Acks(s)
    && (forall p :: 0 <= p < |s.log| ==> s.log[p] in s.issued)
    && PositiveIds(s.log) && Preceded(s.log)
  }

  lemma LoggedLater(log: seq<Op>, k: int, op: Op, k': int, c: ClientId, id: int)
    requires Logged(log, k, c, id) && k <= k'
    ensures Logged(log + [op], k', c, id)
  {
    var q :| 0 <= q < k && q < |log| && Numbered(log[q], c, id);
    assert Numbered((log + [op])[q], c, id);
  }

  lemma IssueKeepsSound(s: System, c: ClientId, kind: OpType, key: Key)
    requires Sound(s) && Enabled(s, Issue(c, kind, key))
    ensures Sound(Next(s, Issue(c, kind, key)))
  {
    hide Preceded, Logged;
  }

  lemma AppendKeepsSound(s: System, op: Op)
    requires Sound(s) && Enabled(s, Append(op))
    ensures Sound(Next(s, Append(op)))
  {
    hide Logged;
    var s' := Next(s, Append(op));
    forall k: int, k': int, c, id | Logged(s.log, k, c, id) && k <= k'
      ensures Logged(s'.log, k', c, id)
    {
      LoggedLater(s.log, k, op, k', c, id);
    }
    forall p, j | 0 <= p < |s'.log| && 1 <= j < s'.log[p].requestId
      ensures Logged(s'.log, p, s'.log[p].client, j)
    {
      assert Logged(s.log, p, s'.log[p].client, j);
    }
    forall c, id | 1 <= id <= Counter(s', c) && (id < Counter(s', c) || c !in s'.outstanding)
      ensures Logged(s'.log, |s'.log|, c, id)
    {
      assert Logged(s.log, |s.log|, c, id);
    }
  }

  lemma ApplyKeepsSound(s: System, v: nat)
    requires Sound(s) && Enabled(s, ApplyNext(v))
    ensures Sound(Next(s, ApplyNext(v)))
  {
    hide Preceded;
  }

  lemma AcknowledgeKeepsSound(s: System, v: nat, c: ClientId, index: nat)
    requires Sound(s) && Enabled(s, Acknowledge(v, c, index))
    ensures Sound(Next(s, Acknowledge(v, c, index)))
  {
    hide Preceded;
    var op := s.outstanding[c];
    assert Numbered(s.log[index], c, op.requestId);
    assert Logged(s.log, s.applied[v], c, op.requestId) && Logged(s.log, |s.log|, c, op.requestId);
  }

  lemma {:induction false} SoundHolds(servers: nat, steps: seq<Step>)
    requires Run(servers, steps).Some?
    ensures Sound(Run(servers, steps).value)
  {
    if steps != [] {
      var before, step := steps[..|steps| - 1], steps[|steps| - 1];
      SoundHolds(servers, before);
      hide Sound, Enabled, Next;
      var s := Run(servers, before).value;
      match step
      case Issue(c, kind, key) => IssueKeepsSound(s, c, kind, key);
      case Append(op) => AppendKeepsSound(s, op);
      case ApplyNext(v) => ApplyKeepsSound(s, v);
      case Acknowledge(v, c, index) => AcknowledgeKeepsSound(s, v, c, index);
    }
  }

  // ---------------------------------------------------------------- exactly once

  /** The ids of a client's requests among some operations, in order. */
  function Ids(ops: seq<Op>, c: ClientId): seq<int> {
    if ops == [] then []
    else
      var op := ops[|ops| - 1];
      Ids(ops[..|ops| - 1], c) + if op.client == c then [op.requestId] else []
  }

  ghost function UpTo(m: nat): seq<int> {
    seq(m, i => i + 1)
  }

  /** The highest request id of a client in a log, 0 when there is none. */
  function Highest(log: seq<Op>, c: ClientId): int {
    if c in Last(log) then Last(log)[c] else 0
  }

  lemma {:induction false} HighestIsHighest(log: seq<Op>, c: ClientId)
    requires PositiveIds(log)
    ensures forall p :: 0 <= p < |log| && log[p].client == c ==> log[p].requestId <= Highest(log, c)
    ensures Highest(log, c) >= 0
    ensures c in Last(log) ==> Highest(log, c) >= 1
  {
    if log != [] {
      HighestIsHighest(log[..|log| - 1], c);
    }
  }

  lemma IdsOneMore(ops: seq<Op>, op: Op, c: ClientId)
    ensures Ids(ops + [op], c) == Ids(ops, c) + if op.client == c then [op.requestId] else []
  {
    assert (ops + [op])[..|ops|] == ops;
  }

  /** The requests of a client that take effect are 1, 2, ..., m, in order. */
  ghost predicate GapFree(log: seq<Op>, c: ClientId) {
    Highest(log, c) >= 0 && Ids(Effective(log), c) == UpTo(Highest(log, c))
  }

  /** One more request: what it adds to the ids of client c and to the highest of them. */
  lemma OneMore(log: seq<Op>, c: ClientId)
    requires log != []
    ensures var before, op := log[..|log| - 1], log[|log| - 1];
            if Fresh(Last(before), op) && op.client == c
            then Ids(Effective(log), c) == Ids(Effective(before), c) + [op.requestId] && Highest(log, c) == op.requestId
            else Ids(Effective(log), c) == Ids(Effective(before), c) && Highest(log, c) == Highest(before, c)
  {
    var before, op := log[..|log| - 1], log[|log| - 1];
    IdsOneMore(Effective(before), op, c);
    assert !Fresh(Last(before), op) ==> Effective(log) == Effective(before);
  }

  lemma PrecededBefore(log: seq<Op>, k: nat)
    requires k <= |log| && PositiveIds(log) && Preceded(log)
    ensures PositiveIds(log[..k]) && Preceded(log[..k])
  {
    forall p, j | 0 <= p < k && 1 <= j < log[p].requestId
      ensures Logged(log[..k], p, log[p].client, j)
    {
      assert Logged(log, p, log[p].client, j);
      var q :| 0 <= q < p && Numbered(log[q], log[p].client, j);
      assert Numbered(log[..k][q], log[p].client, j);
    }
  }

  /** A request that takes effect is the next one after those that did. */
  lemma NoGap(log: seq<Op>, c: ClientId)
    requires log != [] && PositiveIds(log) && Preceded(log) && log[|log| - 1].client == c
    requires Fresh(Last(log[..|log| - 1]), log[|log| - 1])
    ensures log[|log| - 1].requestId == Highest(log[..|log| - 1], c) + 1
  {
    var before, id := log[..|log| - 1], log[|log| - 1].requestId;
    HighestIsHighest(before, c);
    assert forall q :: 0 <= q < |before| ==> before[q] == log[q];
    assert 1 <= id - 1 ==> Logged(log, |before|, c, id - 1);
  }

  lemma NothingIsGapFree(c: ClientId)
    ensures GapFree([], c)
  {
  }

  lemma UpToOneMore(m: nat)
    ensures UpTo(m + 1) == UpTo(m) + [m + 1]
  {
  }

  /** In a log where no request overtakes an earlier one of its client, 1, 2, ..., m take effect, in order. */
  lemma {:induction false} EffectiveIds(log: seq<Op>, c: ClientId)
    requires PositiveIds(log) && Preceded(log)
    ensures GapFree(log, c)
  {
    hide Highest, Effective, Ids, Last, UpTo;
    if log == [] {
      NothingIsGapFree(c);
    } else {
      var before, op := log[..|log| - 1], log[|log| - 1];
      PrecededBefore(log, |before|);
      EffectiveIds(before, c);
      OneMore(log, c);
      if op.client == c && Fresh(Last(before), op) {
        NoGap(log, c);
        UpToOneMore(Highest(before, c));
      }
    }
  }

  lemma {:induction false} EffectiveFromLog(log: seq<Op>, op: Op)
    requires op in Effective(log)
    ensures op in log
  {
    var before := log[..|log| - 1];
    if op in Effective(before) {
      EffectiveFromLog(before, op);
    }
  }

  lemma {:induction false} IdHasOp(ops: seq<Op>, c: ClientId, id: int)
    requires id in Ids(ops, c)
    ensures exists op :: op in ops && Numbered(op, c, id)
  {
    var before, op := ops[..|ops| - 1], ops[|ops| - 1];
    if id in Ids(before, c) {
      IdHasOp(before, c, id);
    } else {
      assert op in ops && Numbered(op, c, id);
    }
  }

  lemma {:induction false} HighestEndsIds(log: seq<Op>, c: ClientId)
    requires PositiveIds(log)
    ensures var ids := Ids(Effective(log), c);
            if ids == [] then Highest(log, c) == 0 else Highest(log, c) == ids[|ids| - 1]
  {
    if log != [] {
      var before, op := log[..|log| - 1], log[|log| - 1];
      HighestEndsIds(before, c);
      IdsOneMore(Effective(before), op, c);
      assert !Fresh(Last(before), op) ==> Effective(log) == Effective(before);
    }
  }

  lemma GapFreeBefore(log: seq<Op>, c: ClientId)
    requires log != [] && PositiveIds(log) && GapFree(log, c)
    ensures GapFree(log[..|log| - 1], c)
    ensures log[|log| - 1].client == c ==> log[|log| - 1].requestId <= Highest(log[..|log| - 1], c) + 1
  {
    var before, op := log[..|log| - 1], log[|log| - 1];
    HighestEndsIds(before, c);
    OneMore(log, c);
    var ids := Ids(Effective(before), c);
    if Fresh(Last(before), op) && op.client == c {
      hide Highest, Effective, Ids;
      assert ids == UpTo(op.requestId)[..|ids|] == UpTo(|ids|);
    }
  }

  lemma GapFreeLogged(log: seq<Op>, c: ClientId, j: int)
    requires GapFree(log, c) && 1 <= j <= Highest(log, c)
    ensures exists q :: 0 <= q < |log| && Numbered(log[q], c, j)
  {
    hide Effective, Ids, Highest;
    assert UpTo(Highest(log, c))[j - 1] == j;
    IdHasOp(Effective(log), c, j);
    var op :| op in Effective(log) && Numbered(op, c, j);
    EffectiveFromLog(log, op);
  }

  /** The converse of EffectiveIds. */
  lemma {:induction false} GapFreeIsPreceded(log: seq<Op>)
    requires PositiveIds(log) && forall c :: GapFree(log, c)
    ensures Preceded(log)
  {
    hide GapFree, Highest;
    if log != [] {
      var before := log[..|log| - 1];
      forall c
        ensures GapFree(before, c)
      {
        GapFreeBefore(log, c);
      }
      GapFreeIsPreceded(before);
      GapFreeBefore(log, log[|before|].client);
      forall p, j | 0 <= p < |log| && 1 <= j < log[p].requestId
        ensures Logged(log, p, log[p].client, j)
      {
        if p < |before| {
          assert Logged(before, p, before[p].client, j);
        } else {
          GapFreeLogged(before, log[p].client, j);
        }
        var q :| 0 <= q < p && Numbered(before[q], log[p].client, j);
        assert Numbered(log[q], log[p].client, j);
      }
    }
  }

  /**
   Exactly when requests take effect gap-free: for logs of positively numbered requests, every
   client's effective requests are 1, 2, ..., m if and only if no request overtakes an earlier one.
   */
  lemma GapFreeIff(log: seq<Op>)
    requires PositiveIds(log)
    ensures Preceded(log) <==> forall c :: GapFree(log, c)
  {
    hide Preceded;
    if Preceded(log) {
      forall c
        ensures GapFree(log, c)
      {
        EffectiveIds(log, c);
      }
    } else if forall c :: GapFree(log, c) {
      GapFreeIsPreceded(log);
    }
  }

  /** A logged request is one of those that take effect. */
  lemma LoggedTakesEffect(s: System, k: nat, op: Op)
    requires Sound(s) && k <= |s.log| && op in s.issued && Logged(s.log, k, op.client, op.requestId)
    ensures op in Effective(s.log[..k])
  {
    hide Settled, Acks, Effective;
    var log, c := s.log[..k], op.client;
    PrecededBefore(s.log, k);
    EffectiveIds(log, c);
    HighestIsHighest(log, c);
    var q :| 0 <= q < k && Numbered(s.log[q], c, op.requestId);
    assert log[q] == s.log[q];
    assert UpTo(Highest(log, c))[op.requestId - 1] == op.requestId;
    IdHasOp(Effective(log), c, op.requestId);
    var op' :| op' in Effective(log) && Numbered(op', c, op.requestId);
    EffectiveFromLog(log, op');
    assert SameOp(op, op');
  }

  lemma {:induction false} LastIsLogged(log: seq<Op>, c: ClientId)
    requires c in Last(log)
    ensures exists q :: 0 <= q < |log| && Numbered(log[q], c, Last(log)[c])
  {
    var before, op := log[..|log| - 1], log[|log| - 1];
    if Fresh(Last(before), op) && op.client == c {
      assert Numbered(log[|before|], c, op.requestId);
    } else {
      LastIsLogged(before, c);
      var q :| 0 <= q < |before| && Numbered(before[q], c, Last(before)[c]);
      assert Numbered(log[q], c, Last(log)[c]);
    }
  }

  lemma HighestIsIssued(s: System, k: nat, c: ClientId)
    requires Sound(s) && k <= |s.log|
    ensures Highest(s.log[..k], c) <= Counter(s, c)
  {
    hide Settled, Acks, Preceded;
    if c in Last(s.log[..k]) {
      LastIsLogged(s.log[..k], c);
    }
  }

  lemma AtServer(s: System, v: nat, c: ClientId)
    requires Sound(s) && v < |s.applied|
    ensures s.applied[v] <= |s.log|
    ensures var effective := Effective(s.log[..s.applied[v]]);
            && (exists m: nat :: m <= Counter(s, c) && Ids(effective, c) == UpTo(m))
            && (forall op :: op in effective ==> op in s.issued)
            && (forall op :: (v, op) in s.acked ==> op in effective)
  {
    hide Settled, Effective;
    var log := s.log[..s.applied[v]];
    PrecededBefore(s.log, s.applied[v]);
    EffectiveIds(log, c);
    HighestIsIssued(s, s.applied[v], c);
    forall op | op in Effective(log)
      ensures op in s.issued
    {
      EffectiveFromLog(log, op);
    }
    forall op | (v, op) in s.acked
      ensures op in Effective(log)
    {
      LoggedTakesEffect(s, s.applied[v], op);
    }
  }

  /**
   Exactly once: on every server, at every moment of every run, the requests of a client that have
   taken effect are its requests 1, 2, ..., m, each as it was issued; and a request that server has
   acknowledged is among them.
   */
  lemma ExactlyOnce(servers: nat, steps: seq<Step>, v: nat, c: ClientId)
    requires Run(servers, steps).Some? && v < |Run(servers, steps).value.applied|
    ensures var s := Run(servers, steps).value;
            && s.applied[v] <= |s.log|
            && var effective := Effective(s.log[..s.applied[v]]);
            && (exists m: nat :: m <= Counter(s, c) && Ids(effective, c) == UpTo(m))
            && (forall op :: op in effective ==> op in s.issued)
            && (forall op :: (v, op) in s.acked ==> op in effective)
  {
    SoundHolds(servers, steps);
    hide Run;
    AtServer(Run(servers, steps).value, v, c);
  }

  // ---------------------------------------------------------------- what an acknowledgement is worth

  /** After op, its client releases the key again. */
  ghost predicate ReleasedAfter(ops: seq<Op>, op: Op) {
    exists i, j :: 0 <= i < j < |ops| && ops[i] == op && Is(ops[j], UnlockOp, op.key, op.client)
  }

  lemma LastLockWaits(ops: seq<Op>, op: Op)
    requires op in ops && op.kind == LockOp
    ensures op.client in Queue(Replay(ops), op.key) || ReleasedAfter(ops, op)
  {
    hide Replay;
    QueueHoldsWaiters(ops, op.key, op.client);
    var i :| 0 <= i < |ops| && ops[i] == op;
    if !ReleasedAfter(ops, op) {
      assert Waits(ops, op.key, op.client, i);
    }
  }

  /**
   On a server that has acknowledged a Lock, and has applied the log up to some point since, the
   client is in the queue unless a later Unlock of its own took effect.
   */
  lemma AcknowledgedLockIsQueued(servers: nat, steps: seq<Step>, v: nat, op: Op, ends: set<ClientId>,
                                 msgs: seq<Delivery>)
    requires Run(servers, steps).Some? && v < |Run(servers, steps).value.applied|
    requires (v, op) in Run(servers, steps).value.acked && op.kind == LockOp
    requires var s := Run(servers, steps).value; s.applied[v] <= |s.log| && Log(msgs) == s.log[..s.applied[v]]
    ensures op.client in Queue(Serve(ends, msgs).store, op.key) || ReleasedAfter(Effective(Log(msgs)), op)
  {
    ExactlyOnce(servers, steps, v, op.client);
    hide Run, Sound, Effective, Replay;
    ServeReplays(ends, msgs);
    var effective := Effective(Log(msgs));
    assert op in effective;
    LastLockWaits(effective, op);
  }
}
