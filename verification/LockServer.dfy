/**
 The apply loop of a lock server: which committed requests take effect, what they do to the lock
 table, and which clients are told that they hold a lock.
 */
module LockServing {
  import opened LockTable

  // ---------------------------------------------------------------- which requests take effect

  /** A request takes effect when it is newer than the client's last one that did. */
  predicate Fresh(last: map<ClientId, int>, op: Op) {
    op.client !in last || op.requestId > last[op.client]
  }

  function Last(log: seq<Op>): map<ClientId, int> {
    if log == [] then map[]
    else
      var last, op := Last(log[..|log| - 1]), log[|log| - 1];
      if Fresh(last, op) then last[op.client := op.requestId] else last
  }

  /** The requests of a log that take effect, in order. */
  function Effective(log: seq<Op>): seq<Op> {
    if log == [] then []
    else
      var before, op := log[..|log| - 1], log[|log| - 1];
      Effective(before) + if Fresh(Last(before), op) then [op] else []
  }

  // ---------------------------------------------------------------- one server

  /** A committed request, with what the server's two leadership checks answer while it is applied. */
  datatype Delivery = Delivery(op: Op, leads: bool, stillLeads: bool)

  datatype Event = ServerEvent(kind: OpType, key: Key, client: ClientId)

  /** A ReceiveLock call made while the at-th request was applied. */
  datatype Grant = Grant(at: nat, key: Key, client: ClientId)

  datatype State = State(
    received: nat,
    store: Store,
    lastApplied: map<ClientId, int>,
    events: seq<Event>,
    grants: seq<Grant>)

  const INITIAL := State(0, map[], map[], [], [])

  function ToStateMachine(s: State, ends: set<ClientId>, msg: Delivery): State {
    var op := msg.op;
    var owner := Owner(s.store, op.key);
    var store := Apply(s.store, op);
    var newOwner := Owner(store, op.key);
    s.(store := store,
       events := if msg.leads then s.events + [ServerEvent(op.kind, op.key, op.client)] else s.events,
       grants := if msg.leads && newOwner != owner && msg.stillLeads && newOwner in ends
                 then s.grants + [Grant(s.received, op.key, newOwner)] else s.grants)
  }

  function OnDelivery(s: State, ends: set<ClientId>, msg: Delivery): State {
    var s' := if Fresh(s.lastApplied, msg.op)
              then ToStateMachine(s, ends, msg).(lastApplied := s.lastApplied[msg.op.client := msg.op.requestId])
              else s;
    s'.(received := s.received + 1)
  }

  /** A server, with endpoints for the given clerks, after some deliveries. */
  function Serve(ends: set<ClientId>, msgs: seq<Delivery>): State {
    if msgs == [] then INITIAL
    else OnDelivery(Serve(ends, msgs[..|msgs| - 1]), ends, msgs[|msgs| - 1])
  }

  function Log(msgs: seq<Delivery>): seq<Op> {
    seq(|msgs|, i requires 0 <= i < |msgs| => msgs[i].op)
  }

  lemma NothingServed(ends: set<ClientId>)
    ensures Serve(ends, []) == INITIAL && Log([]) == [] && Last([]) == map[] && Replay(Effective([])) == map[]
  {
  }

  lemma LogOneMore(before: seq<Delivery>, msg: Delivery)
    ensures Log(before + [msg]) == Log(before) + [msg.op]
  {
  }

  lemma EffectiveOneMore(log: seq<Op>, op: Op)
    ensures Effective(log + [op]) == if Fresh(Last(log), op) then Effective(log) + [op] else Effective(log)
    ensures Last(log + [op]) == if Fresh(Last(log), op) then Last(log)[op.client := op.requestId] else Last(log)
  {
    assert (log + [op])[..|log|] == log;
    assert Effective(log) + [] == Effective(log);
  }

  lemma ReplayOneMore(ops: seq<Op>, op: Op)
    ensures Replay(ops + [op]) == Apply(Replay(ops), op)
  {
    assert (ops + [op])[..|ops|] == ops;
  }

  lemma ServeOneMore(ends: set<ClientId>, before: seq<Delivery>, msg: Delivery)
    ensures Serve(ends, before + [msg]) == OnDelivery(Serve(ends, before), ends, msg)
  {
    assert (before + [msg])[..|before|] == before;
  }

  /** Whatever the pattern of leadership, the table holds exactly the requests that take effect. */
  lemma {:induction false} ServeReplays(ends: set<ClientId>, msgs: seq<Delivery>)
    ensures var s := Serve(ends, msgs);
            && s.received == |msgs|
            && s.lastApplied == Last(Log(msgs))
            && s.store == Replay(Effective(Log(msgs)))
  {
    hide Effective, Last, Replay, Apply, Owner, Log, Serve;
    if msgs == [] {
      NothingServed(ends);
    } else {
      var before, msg := msgs[..|msgs| - 1], msgs[|msgs| - 1];
      assert msgs == before + [msg];
      ServeReplays(ends, before);
      ServeOneMore(ends, before, msg);
      LogOneMore(before, msg);
      EffectiveOneMore(Log(before), msg.op);
      ReplayOneMore(Effective(Log(before)), msg.op);
    }
  }

  function EventsOf(ops: seq<Op>): seq<Event> {
    seq(|ops|, i requires 0 <= i < |ops| => ServerEvent(ops[i].kind, ops[i].key, ops[i].client))
  }

  /** A server that leads throughout reports each request that takes effect, once and in order. */
  lemma {:induction false} EventsAreEffects(ends: set<ClientId>, msgs: seq<Delivery>)
    requires forall i :: 0 <= i < |msgs| ==> msgs[i].leads
    ensures Serve(ends, msgs).events == EventsOf(Effective(Log(msgs)))
  {
    if msgs != [] {
      var before, msg := msgs[..|msgs| - 1], msgs[|msgs| - 1];
      EventsAreEffects(ends, before);
      ServeReplays(ends, before);
      assert Log(msgs)[..|before|] == Log(before);
      hide Apply, Owner, Last, Replay;
      assert !Fresh(Last(Log(before)), msg.op) ==> Effective(Log(msgs)) == Effective(Log(before));
    }
  }

  // ---------------------------------------------------------------- the server in place

  predicate SameOp(issued: Op, applied: Op) {
    issued.client == applied.client && issued.requestId == applied.requestId
  }

  class LockServer {
    const clerkEnds: set<ClientId>
    const store: LockStore
    var lastApplied: map<ClientId, int>
    var results: map<nat, seq<Op>>
    var events: seq<Event>
    var grants: seq<Grant>
    ghost var received: seq<Op>

    /** A result channel is empty or holds the one operation applied at its index. */
    ghost predicate Valid()
      reads this, store
    {
      && store.Valid()
      && forall i :: i in results && results[i] != [] ==> 1 <= i <= |received| && results[i] == [received[i - 1]]
    }

    ghost function View(): State
      reads this, store
    {
      State(|received|, store.store, lastApplied, events, grants)
    }

    constructor (clerkEnds: set<ClientId>)
      ensures Valid() && View() == INITIAL && this.clerkEnds == clerkEnds && results == map[] && received == []
      ensures fresh(store)
    {
      this.clerkEnds := clerkEnds;
      store := new LockStore();
      lastApplied, results, events, grants, received := map[], map[], [], [], [];
    }

    method GiveLockToOwner(key: Key, lockOwner: ClientId, isLeader: bool, at: nat)
      modifies this`grants
      ensures grants == old(grants) + if isLeader && lockOwner in clerkEnds then [Grant(at, key, lockOwner)] else []
    {
      if isLeader {
        if lockOwner in clerkEnds {
          grants := grants + [Grant(at, key, lockOwner)];
        }
      }
    }

    method ApplyToStateMachine(index: nat, op: Op, leads: bool, stillLeads: bool)
      requires Valid() && index == |received| + 1
      modifies this`events, this`grants, store
      ensures Valid() && View() == ToStateMachine(old(View()), clerkEnds, Delivery(op, leads, stillLeads))
    {
      hide Locked, Unlocked, Owner, Queue, Clean;
      var owner, _ := store.GetLockOwner(op.key);
      if op.kind == LockOp {
        store.Lock(op.key, op.client);
      }
      if op.kind == UnlockOp {
        store.Unlock(op.key, op.client);
      }
      if leads {
        events := events + [ServerEvent(op.kind, op.key, op.client)];
        var newOwner, _ := store.GetLockOwner(op.key);
        if newOwner != owner {
          GiveLockToOwner(op.key, newOwner, stillLeads, index - 1);
        }
      }
    }

    method MakeChannel(index: nat)
      requires Valid()
      modifies this`results
      ensures Valid()
      ensures results == if index in old(results) then old(results) else old(results)[index := []]
    {
      if index !in results {
        results := results[index := []];
      }
    }

    /** Sends on the result channel of the index, which is empty because the index is new. */
    method SendResult(index: nat, op: Op)
      requires Valid() && index == |received| + 1
      modifies this`results, this`received
      ensures Valid() && received == old(received) + [op]
      ensures index in old(results) ==> old(results)[index] == []
      ensures results == old(results)[index := [op]]
    {
      hide Clean;
      MakeChannel(index);
      assert results[index] + [op] == [op];
      results := results[index := results[index] + [op]];
      received := received + [op];
      assert results == old(results)[index := [op]];
    }

    /**
     One turn of the apply loop on a valid message. Indices arrive gap-free, so the send on the
     result channel of capacity one finds it empty and cannot block.
     */
    method ApplyOp(index: nat, op: Op, leads: bool, stillLeads: bool)
      requires Valid() && index == |received| + 1
      modifies this, store
      ensures Valid() && View() == OnDelivery(old(View()), clerkEnds, Delivery(op, leads, stillLeads))
      ensures index in old(results) ==> old(results)[index] == []
      ensures results == old(results)[index := [op]] && received == old(received) + [op]
    {
      hide ToStateMachine, Clean;
      if op.client !in lastApplied || op.requestId > lastApplied[op.client] {
        ApplyToStateMachine(index, op, leads, stillLeads);
        lastApplied := lastApplied[op.client := op.requestId];
      }
      SendResult(index, op);
    }

    /**
     The select of waitForApplied, when it returns: by then the wait has ended or the apply loop has
     filled the channel made before it.  The answer is true only for the operation applied there.
     */
    method WakeUp(index: nat, op: Op, timesOut: bool) returns (ok: bool, applied: Op)
      requires Valid() && index in results && (timesOut || results[index] != [])
      modifies this`results
      ensures Valid()
      ensures timesOut ==> !ok && applied == op && results == old(results)
      ensures !timesOut ==>
                && 1 <= index <= |received| && applied == received[index - 1]
                && (ok <==> op.client == received[index - 1].client && op.requestId == received[index - 1].requestId)
                && results == old(results)[index := []]
    {
      if timesOut {
        return false, op;
      }
      applied := results[index][0];
      results := results[index := results[index][1..]];
      ok := SameOp(op, applied);
    }
  }

  // ---------------------------------------------------------------- grants

  /** The r-th request takes effect and releases the key for client c. */
  ghost predicate Releases(ends: set<ClientId>, msgs: seq<Delivery>, r: nat, key: Key, c: ClientId) {
    r < |msgs| && Fresh(Serve(ends, msgs[..r]).lastApplied, msgs[r].op) && Is(msgs[r].op, UnlockOp, key, c)
  }

  ghost predicate ReleasedIn(ends: set<ClientId>, msgs: seq<Delivery>, lo: nat, hi: nat, key: Key, c: ClientId) {
    exists r: nat :: lo < r < hi && Releases(ends, msgs, r, key, c)
  }

  ghost predicate IsHead(store: Store, key: Key, c: ClientId) {
    Queue(store, key) != [] && Queue(store, key)[0] == c
  }

  /** Every grant so far was overtaken by a release or still names the head of the queue. */
  ghost predicate Holding(ends: set<ClientId>, msgs: seq<Delivery>) {
    var s := Serve(ends, msgs);
    forall g :: 0 <= g < |s.grants| ==>
      var grant := s.grants[g];
      && grant.at < |msgs|
      && grant.client in ends
      && (IsHead(s.store, grant.key, grant.client) || ReleasedIn(ends, msgs, grant.at, |msgs|, grant.key, grant.client))
  }

  lemma ReleasedLater(ends: set<ClientId>, before: seq<Delivery>, msg: Delivery, lo: nat, hi: nat, key: Key,
                      c: ClientId)
    requires ReleasedIn(ends, before, lo, hi, key, c)
    ensures ReleasedIn(ends, before + [msg], lo, hi, key, c)
  {
    var r: nat :| lo < r < hi && Releases(ends, before, r, key, c);
    assert (before + [msg])[..r] == before[..r];
    assert Releases(ends, before + [msg], r, key, c);
  }

  /** A step keeps the head of a queue unless it releases it. */
  lemma HeadKept(ends: set<ClientId>, before: seq<Delivery>, msg: Delivery, key: Key, c: ClientId)
    requires IsHead(Serve(ends, before).store, key, c)
    ensures IsHead(Serve(ends, before + [msg]).store, key, c) || Releases(ends, before + [msg], |before|, key, c)
  {
    var msgs := before + [msg];
    assert msgs[..|before|] == before;
    if !Is(msg.op, UnlockOp, key, c) {
      PlaceNeverGrows(Serve(ends, before).store, msg.op, key, 0);
    }
  }

  lemma HoldingStep(ends: set<ClientId>, before: seq<Delivery>, msg: Delivery)
    requires Holding(ends, before) && NOBODY !in ends
    ensures Holding(ends, before + [msg])
  {
    var msgs := before + [msg];
    assert msgs[..|before|] == before;
    var s, s' := Serve(ends, before), Serve(ends, msgs);
    ServeReplays(ends, before);
    forall g | 0 <= g < |s'.grants|
      ensures var grant := s'.grants[g];
              && grant.at < |msgs|
              && grant.client in ends
              && (IsHead(s'.store, grant.key, grant.client)
                  || ReleasedIn(ends, msgs, grant.at, |msgs|, grant.key, grant.client))
    {
      var grant := s'.grants[g];
      if g < |s.grants| {
        assert grant == s.grants[g];
        if IsHead(s.store, grant.key, grant.client) {
          HeadKept(ends, before, msg, grant.key, grant.client);
        } else {
          ReleasedLater(ends, before, msg, grant.at, |before|, grant.key, grant.client);
        }
      }
    }
  }

  lemma {:induction false} HoldingHolds(ends: set<ClientId>, msgs: seq<Delivery>)
    requires NOBODY !in ends
    ensures Holding(ends, msgs)
  {
    if msgs != [] {
      var before := msgs[..|msgs| - 1];
      HoldingHolds(ends, before);
      HoldingStep(ends, before, msgs[|msgs| - 1]);
      assert before + [msgs[|msgs| - 1]] == msgs;
    }
  }

  /** Between two grants of a key on one server, the first grantee's Unlock of it takes effect. */
  lemma {:induction false} GrantExclusion(ends: set<ClientId>, msgs: seq<Delivery>, g: nat, h: nat)
    requires NOBODY !in ends
    requires g < h < |Serve(ends, msgs).grants|
    requires Serve(ends, msgs).grants[g].key == Serve(ends, msgs).grants[h].key
    ensures var grants := Serve(ends, msgs).grants;
            && grants[g].at < grants[h].at < |msgs|
            && ReleasedIn(ends, msgs, grants[g].at, grants[h].at + 1, grants[g].key, grants[g].client)
    decreases msgs
  {
    var before, msg := msgs[..|msgs| - 1], msgs[|msgs| - 1];
    assert before + [msg] == msgs;
    var s, s' := Serve(ends, before), Serve(ends, msgs);
    ServeReplays(ends, before);
    HoldingHolds(ends, before);
    var grant := s.grants[g];
    if h < |s.grants| {
      GrantExclusion(ends, before, g, h);
      ReleasedLater(ends, before, msg, grant.at, s.grants[h].at + 1, grant.key, grant.client);
    } else if IsHead(s.store, grant.key, grant.client) {
      HeadKept(ends, before, msg, grant.key, grant.client);
      assert Releases(ends, msgs, |before|, grant.key, grant.client);
    } else {
      ReleasedLater(ends, before, msg, grant.at, |before|, grant.key, grant.client);
      var r: nat :| grant.at < r < |before| && Releases(ends, msgs, r, grant.key, grant.client);
    }
  }

  /** What one delivery may do to the grants and the queues. */
  lemma DeliveryGrants(s: State, ends: set<ClientId>, msg: Delivery)
    ensures var s', key := OnDelivery(s, ends, msg), msg.op.key;
            var granted := s.grants + [Grant(s.received, key, Owner(s'.store, key))];
            && (s'.grants == s.grants || (Owner(s'.store, key) in ends && s'.grants == granted))
            && (msg.leads && msg.stillLeads && Owner(s'.store, key) in ends
                && Owner(s'.store, key) != Owner(s.store, key)
                ==> s'.grants == granted)
    ensures forall key :: key != msg.op.key ==> Queue(OnDelivery(s, ends, msg).store, key) == Queue(s.store, key)
  {
  }

  // ---------------------------------------------------------------- exactly which grants and events

  /** The request is newer than every one of its client before it. */
  ghost predicate Newest(log: seq<Op>, op: Op) {
    forall j :: 0 <= j < |log| && log[j].client == op.client ==> log[j].requestId < op.requestId
  }

  /** A request takes effect exactly when its number is above all its client has had in the log. */
  lemma {:induction false} FreshIff(log: seq<Op>, op: Op)
    ensures Fresh(Last(log), op) <==> Newest(log, op)
    ensures op.client in Last(log) <==> exists j :: 0 <= j < |log| && log[j].client == op.client
  {
    if log != [] {
      var before, last := log[..|log| - 1], log[|log| - 1];
      FreshIff(before, op);
      FreshIff(before, last);
      hide Last;
      assert log == before + [last];
      EffectiveOneMore(before, last);
      assert forall j :: 0 <= j < |before| ==> log[j] == before[j];
      assert op.client in Last(log) <==> op.client in Last(before) || op.client == last.client;
      assert last.client == op.client && Newest(log, op) ==> log[|before|] == last;
    }
  }

  /** Serving request k makes the server tell c that it holds the key. */
  ghost predicate Tells(ends: set<ClientId>, msgs: seq<Delivery>, k: nat, key: Key, c: ClientId) {
    && k < |msgs| && msgs[k].op.key == key && c in ends
    && msgs[k].leads && msgs[k].stillLeads
    && Newest(Log(msgs[..k]), msgs[k].op)
    && Owner(Serve(ends, msgs[..k]).store, key) != c
    && Owner(Serve(ends, msgs[..k + 1]).store, key) == c
  }

  /** What one delivery adds to grants and events, for a Lock and for an Unlock alike. */
  lemma DeliveryAdds(s: State, ends: set<ClientId>, msg: Delivery)
    ensures var s', key := OnDelivery(s, ends, msg), msg.op.key;
            var owner := Owner(s'.store, key);
            && s'.grants == s.grants + (if Fresh(s.lastApplied, msg.op) && msg.leads && msg.stillLeads && owner in ends
                                           && owner != Owner(s.store, key)
                                        then [Grant(s.received, key, owner)] else [])
            && s'.events == s.events + (if Fresh(s.lastApplied, msg.op) && msg.leads
                                        then [ServerEvent(msg.op.kind, key, msg.op.client)] else [])
  {
    assert s.grants + [] == s.grants && s.events + [] == s.events;
    hide Apply, Owner;
  }

  ghost predicate GrantsExact(ends: set<ClientId>, msgs: seq<Delivery>) {
    && (forall k: nat, key, c :: Grant(k, key, c) in Serve(ends, msgs).grants <==> Tells(ends, msgs, k, key, c))
    && (forall g, h :: 0 <= g < h < |Serve(ends, msgs).grants| ==>
          Serve(ends, msgs).grants[g].at < Serve(ends, msgs).grants[h].at)
  }

  lemma TellsBefore(ends: set<ClientId>, before: seq<Delivery>, msg: Delivery, k: nat, key: Key, c: ClientId)
    requires k < |before|
    ensures Tells(ends, before + [msg], k, key, c) <==> Tells(ends, before, k, key, c)
  {
    hide Serve, Newest, Owner;
    assert (before + [msg])[..k] == before[..k] && (before + [msg])[..k + 1] == before[..k + 1];
  }

  /** The last request tells somebody exactly when it adds a grant. */
  lemma TellsLast(ends: set<ClientId>, before: seq<Delivery>, msg: Delivery, key: Key, c: ClientId)
    ensures var s, s' := Serve(ends, before), Serve(ends, before + [msg]);
            Tells(ends, before + [msg], |before|, key, c) <==>
              && Fresh(s.lastApplied, msg.op) && msg.leads && msg.stillLeads && c in ends && msg.op.key == key
              && Owner(s.store, key) != c && Owner(s'.store, key) == c
  {
    hide Serve, Newest, Owner, Fresh, Last, Replay, Effective;
    var msgs := before + [msg];
    assert msgs[..|before|] == before && msgs[..|before| + 1] == msgs;
    ServeReplays(ends, before);
    FreshIff(Log(before), msg.op);
  }

  lemma TellsInside(ends: set<ClientId>, msgs: seq<Delivery>, k: nat, key: Key, c: ClientId)
    ensures Tells(ends, msgs, k, key, c) ==> k < |msgs|
  {
  }

  lemma GrantsAreEarlier(ends: set<ClientId>, msgs: seq<Delivery>)
    requires GrantsExact(ends, msgs)
    ensures forall g :: 0 <= g < |Serve(ends, msgs).grants| ==> Serve(ends, msgs).grants[g].at < |msgs|
  {
    hide Serve, Owner, Newest;
    forall g | 0 <= g < |Serve(ends, msgs).grants|
      ensures Serve(ends, msgs).grants[g].at < |msgs|
    {
      var grant := Serve(ends, msgs).grants[g];
      assert Grant(grant.at, grant.key, grant.client) in Serve(ends, msgs).grants;
      assert Tells(ends, msgs, grant.at, grant.key, grant.client);
    }
  }

  /** The grants after one more delivery. */
  lemma GrantsOneMore(ends: set<ClientId>, before: seq<Delivery>, msg: Delivery)
    ensures var s, s', key := Serve(ends, before), Serve(ends, before + [msg]), msg.op.key;
            var owner := Owner(s'.store, key);
            s'.grants == s.grants + if Fresh(s.lastApplied, msg.op) && msg.leads && msg.stillLeads && owner in ends
                                       && owner != Owner(s.store, key)
                                    then [Grant(|before|, key, owner)] else []
  {
    hide Serve, OnDelivery, Owner, Fresh, Last, Replay, Effective;
    ServeReplays(ends, before);
    ServeOneMore(ends, before, msg);
    DeliveryAdds(Serve(ends, before), ends, msg);
  }

  lemma GrantStep(ends: set<ClientId>, before: seq<Delivery>, msg: Delivery, k: nat, key: Key, c: ClientId)
    requires GrantsExact(ends, before)
    ensures Grant(k, key, c) in Serve(ends, before + [msg]).grants <==> Tells(ends, before + [msg], k, key, c)
  {
    hide Serve, Tells, Owner, Fresh;
    GrantsOneMore(ends, before, msg);
    if k < |before| {
      TellsBefore(ends, before, msg, k, key, c);
    } else {
      TellsInside(ends, before, k, key, c);
      TellsInside(ends, before + [msg], k, key, c);
      TellsLast(ends, before, msg, key, c);
    }
  }

  /** Every grant was caused by a request that made its client the owner, and every such request causes one. */
  lemma {:induction false} GrantsExactly(ends: set<ClientId>, msgs: seq<Delivery>)
    ensures GrantsExact(ends, msgs)
  {
    hide Serve, Tells, Owner, Fresh;
    if msgs == [] {
      NothingServed(ends);
      forall k: nat, key, c
        ensures !Tells(ends, [], k, key, c)
      {
        TellsInside(ends, [], k, key, c);
      }
    } else {
      var before, msg := msgs[..|msgs| - 1], msgs[|msgs| - 1];
      assert msgs == before + [msg];
      GrantsExactly(ends, before);
      GrantsAreEarlier(ends, before);
      GrantsOneMore(ends, before, msg);
      forall k: nat, key, c
        ensures Grant(k, key, c) in Serve(ends, msgs).grants <==> Tells(ends, msgs, k, key, c)
      {
        GrantStep(ends, before, msg, k, key, c);
      }
    }
  }

  /** The requests that take effect while the server leads. */
  ghost function Led(msgs: seq<Delivery>): seq<Op> {
    if msgs == [] then []
    else
      var before, msg := msgs[..|msgs| - 1], msgs[|msgs| - 1];
      Led(before) + if msg.leads && Newest(Log(before), msg.op) then [msg.op] else []
  }

  /** Whatever the pattern of leadership, the events are those requests, once and in order. */
  lemma {:induction false} EventsAreLed(ends: set<ClientId>, msgs: seq<Delivery>)
    ensures Serve(ends, msgs).events == EventsOf(Led(msgs))
  {
    if msgs != [] {
      hide OnDelivery, Fresh, Last, Replay, Effective, Newest;
      var before, msg := msgs[..|msgs| - 1], msgs[|msgs| - 1];
      EventsAreLed(ends, before);
      ServeReplays(ends, before);
      FreshIff(Log(before), msg.op);
      DeliveryAdds(Serve(ends, before), ends, msg);
    }
  }

  // ---------------------------------------------------------------- who is told

  /** Each grant goes to the head of the queue as the request that caused it left it. */
  ghost predicate GrantsToHead(ends: set<ClientId>, msgs: seq<Delivery>) {
    forall g :: 0 <= g < |Serve(ends, msgs).grants| ==>
      var grant := Serve(ends, msgs).grants[g];
      grant.at < |msgs| && IsHead(Serve(ends, msgs[..grant.at + 1]).store, grant.key, grant.client)
  }

  lemma OwnerIsHead(store: Store, key: Key)
    requires Owner(store, key) != NOBODY
    ensures IsHead(store, key, Owner(store, key))
  {
  }

  /** A grant in the list was caused by the request it names. */
  lemma GrantWasTold(ends: set<ClientId>, msgs: seq<Delivery>, g: nat)
    requires g < |Serve(ends, msgs).grants|
    ensures var grant := Serve(ends, msgs).grants[g]; Tells(ends, msgs, grant.at, grant.key, grant.client)
  {
    hide Serve, Tells;
    GrantsExactly(ends, msgs);
    var grant := Serve(ends, msgs).grants[g];
    assert Grant(grant.at, grant.key, grant.client) in Serve(ends, msgs).grants;
  }

  lemma GrantsToHeadHolds(ends: set<ClientId>, msgs: seq<Delivery>)
    requires NOBODY !in ends
    ensures GrantsToHead(ends, msgs)
  {
    hide Serve, Owner, IsHead, Newest;
    forall g | 0 <= g < |Serve(ends, msgs).grants|
      ensures var grant := Serve(ends, msgs).grants[g];
              grant.at < |msgs| && IsHead(Serve(ends, msgs[..grant.at + 1]).store, grant.key, grant.client)
    {
      GrantWasTold(ends, msgs, g);
      var grant := Serve(ends, msgs).grants[g];
      OwnerIsHead(Serve(ends, msgs[..grant.at + 1]).store, grant.key);
    }
  }

  lemma AskIsQueued(ends: set<ClientId>, key: Key)
    ensures OnDelivery(INITIAL, ends, Delivery(Op(LockOp, key, 1, 1), false, false))
         == State(1, map[key := [1]], map[1 := 1], [], [])
  {
    assert [] + [1] == [1] && Locked(map[], key, 1) == map[key := [1]];
  }

  lemma WithoutOnly(id: ClientId)
    ensures Without([id], id) == []
  {
    assert [id][..0] == [] && Filtered([], Others(id)) == [] && !Others(id)(id);
  }

  lemma NobodyIsOwner(ends: set<ClientId>, key: Key)
    requires NOBODY in ends
    ensures var release := Delivery(Op(UnlockOp, key, 1, 2), true, true);
            var s := OnDelivery(State(1, map[key := [1]], map[1 := 1], [], []), ends, release);
            s.grants == [Grant(1, key, NOBODY)] && Queue(s.store, key) == []
  {
    hide Without;
    WithoutOnly(1);
    assert Unlocked(map[key := [1]], key, 1) == map[];
    assert [] + [Grant(1, key, NOBODY)] == [Grant(1, key, NOBODY)];
  }

  /** A clerk registered under the zero id is told it holds a lock that nobody holds. */
  lemma NobodyIsGranted(ends: set<ClientId>, key: Key)
    requires NOBODY in ends
    ensures exists msgs :: !GrantsToHead(ends, msgs)
  {
    hide OnDelivery, Queue, Serve;
    var ask := Delivery(Op(LockOp, key, 1, 1), false, false);
    var release := Delivery(Op(UnlockOp, key, 1, 2), true, true);
    var msgs := [ask, release];
    AskIsQueued(ends, key);
    NobodyIsOwner(ends, key);
    NothingServed(ends);
    ServeOneMore(ends, [], ask);
    ServeOneMore(ends, [ask], release);
    assert [] + [ask] == [ask] && [ask] + [release] == msgs && msgs[..2] == msgs;
    assert Serve(ends, msgs).grants[0] == Grant(1, key, NOBODY);
    assert !GrantsToHead(ends, msgs);
  }

  /** Grants go to queue heads in every history exactly when no clerk is registered under the zero id. */
  lemma GrantsGoToHeadIff(ends: set<ClientId>)
    ensures (forall msgs :: GrantsToHead(ends, msgs)) <==> NOBODY !in ends
  {
    if NOBODY in ends {
      NobodyIsGranted(ends, "");
    } else {
      forall msgs
        ensures GrantsToHead(ends, msgs)
      {
        GrantsToHeadHolds(ends, msgs);
      }
    }
  }

  /** The client last told that it holds the key. */
  function LastGrantee(grants: seq<Grant>, key: Key): ClientId {
    if grants == [] then NOBODY
    else if grants[|grants| - 1].key == key then grants[|grants| - 1].client
    else LastGrantee(grants[..|grants| - 1], key)
  }

  /** The server leads throughout and every client has a clerk. */
  ghost predicate Unbroken(ends: set<ClientId>, msgs: seq<Delivery>) {
    forall i :: 0 <= i < |msgs| ==> msgs[i].leads && msgs[i].stillLeads && msgs[i].op.client in ends
  }

  lemma {:induction false} QueuedHaveClerks(ends: set<ClientId>, msgs: seq<Delivery>, key: Key, c: ClientId)
    requires Unbroken(ends, msgs) && c in Queue(Serve(ends, msgs).store, key)
    ensures c in ends
  {
    hide Apply, Queue, Owner, Without;
    if msgs == [] {
      EmptyQueue(key);
    } else {
      var before, op := msgs[..|msgs| - 1], msgs[|msgs| - 1].op;
      var store := Serve(ends, before).store;
      QueueAfter(store, op, key);
      WithoutDropsOnly(Queue(store, key), op.client, c);
      if c in Queue(store, key) {
        QueuedHaveClerks(ends, before, key, c);
      }
    }
  }

  /** No grant is missed: under unbroken leadership the owner of a key is the client last told so. */
  lemma {:induction false} OwnerWasTold(ends: set<ClientId>, msgs: seq<Delivery>, key: Key)
    requires Unbroken(ends, msgs) && NOBODY !in ends
    ensures var s := Serve(ends, msgs);
            Queue(s.store, key) != [] ==> Owner(s.store, key) == LastGrantee(s.grants, key)
  {
    if msgs != [] {
      hide OnDelivery;
      var before, msg := msgs[..|msgs| - 1], msgs[|msgs| - 1];
      OwnerWasTold(ends, before, key);
      var s, s' := Serve(ends, before), Serve(ends, msgs);
      DeliveryGrants(s, ends, msg);
      if Queue(s'.store, key) != [] {
        QueuedHaveClerks(ends, msgs, key, Queue(s'.store, key)[0]);
      }
      if s'.grants != s.grants {
        assert s'.grants[..|s.grants|] == s.grants;
      }
    }
  }

  // ---------------------------------------------------------------- grants of two servers

  lemma {:induction false} HeadUntilReleased(ends: set<ClientId>, msgs: seq<Delivery>, lo: nat, key: Key, c: ClientId)
    requires lo < |msgs| && IsHead(Serve(ends, msgs[..lo + 1]).store, key, c)
    ensures IsHead(Serve(ends, msgs).store, key, c) || ReleasedIn(ends, msgs, lo, |msgs|, key, c)
  {
    hide Serve, IsHead;
    if lo + 1 == |msgs| {
      assert msgs[..lo + 1] == msgs;
    } else {
      var before, msg := msgs[..|msgs| - 1], msgs[|msgs| - 1];
      assert before[..lo + 1] == msgs[..lo + 1] && msgs == before + [msg];
      HeadUntilReleased(ends, before, lo, key, c);
      if ReleasedIn(ends, before, lo, |before|, key, c) {
        ReleasedLater(ends, before, msg, lo, |before|, key, c);
      } else {
        HeadKept(ends, before, msg, key, c);
      }
    }
  }

  /** Two servers have applied the same requests as far as both have come. */
  ghost predicate SameRequests(msgs: seq<Delivery>, msgs': seq<Delivery>) {
    forall k :: 0 <= k < |msgs| && k < |msgs'| ==> msgs[k].op == msgs'[k].op
  }

  lemma SameTable(ends: set<ClientId>, msgs: seq<Delivery>, ends': set<ClientId>, msgs': seq<Delivery>, k: nat)
    requires SameRequests(msgs, msgs') && k <= |msgs| && k <= |msgs'|
    ensures Serve(ends, msgs[..k]).store == Serve(ends', msgs'[..k]).store
  {
    hide Serve, Replay, Effective;
    ServeReplays(ends, msgs[..k]);
    ServeReplays(ends', msgs'[..k]);
    assert Log(msgs[..k]) == Log(msgs'[..k]);
  }

  lemma OneHead(store: Store, key: Key, c: ClientId, c': ClientId)
    requires IsHead(store, key, c) && IsHead(store, key, c')
    ensures c == c'
  {
  }

  lemma ReleasesIn(ends: set<ClientId>, msgs: seq<Delivery>, k: nat, r: nat, key: Key, c: ClientId)
    requires k <= |msgs| && Releases(ends, msgs[..k], r, key, c)
    ensures Releases(ends, msgs, r, key, c)
  {
    assert msgs[..k][..r] == msgs[..r];
  }

  lemma ReleasedBetween(ends: set<ClientId>, msgs: seq<Delivery>, lo: nat, key: Key, c: ClientId, grant: Grant)
    requires lo < grant.at < |msgs| && grant.key == key && IsHead(Serve(ends, msgs[..lo + 1]).store, key, c)
    requires IsHead(Serve(ends, msgs[..grant.at + 1]).store, key, grant.client)
    requires !IsHead(Serve(ends, msgs[..grant.at]).store, key, grant.client)
    ensures ReleasedIn(ends, msgs, lo, grant.at + 1, key, c)
  {
    hide Serve, IsHead;
    var before, msg := msgs[..grant.at], msgs[grant.at];
    assert before[..lo + 1] == msgs[..lo + 1] && msgs[..grant.at + 1] == before + [msg];
    HeadUntilReleased(ends, before, lo, key, c);
    if IsHead(Serve(ends, before).store, key, c) {
      HeadKept(ends, before, msg, key, c);
      if IsHead(Serve(ends, before + [msg]).store, key, c) {
        OneHead(Serve(ends, before + [msg]).store, key, c, grant.client);
      }
      ReleasesIn(ends, msgs, grant.at + 1, grant.at, key, c);
    } else {
      var r: nat :| lo < r < |before| && Releases(ends, before, r, key, c);
      ReleasesIn(ends, msgs, grant.at, r, key, c);
    }
  }

  lemma GrantWasNotHead(ends: set<ClientId>, msgs: seq<Delivery>, g: nat)
    requires g < |Serve(ends, msgs).grants|
    ensures var grant := Serve(ends, msgs).grants[g];
            grant.at < |msgs| && !IsHead(Serve(ends, msgs[..grant.at]).store, grant.key, grant.client)
  {
    hide Serve, Newest;
    GrantWasTold(ends, msgs, g);
  }

  /**
   When two servers grant a key, as leaders one after the other or each without knowing of the other, the
   grants caused by one request name one client, and between grants caused by different requests the
   first grantee's Unlock takes effect.
   */
  lemma GrantsOfTwoServers(ends: set<ClientId>, msgs: seq<Delivery>, ends': set<ClientId>, msgs': seq<Delivery>,
                           g: nat, h: nat)
    requires NOBODY !in ends && NOBODY !in ends' && SameRequests(msgs, msgs')
    requires g < |Serve(ends, msgs).grants| && h < |Serve(ends', msgs').grants|
    requires Serve(ends, msgs).grants[g].key == Serve(ends', msgs').grants[h].key
    requires Serve(ends, msgs).grants[g].at <= Serve(ends', msgs').grants[h].at
    ensures var first, second := Serve(ends, msgs).grants[g], Serve(ends', msgs').grants[h];
            if first.at == second.at then first.client == second.client
            else ReleasedIn(ends', msgs', first.at, second.at + 1, first.key, first.client)
  {
    hide Serve, IsHead, SameRequests;
    var first, second := Serve(ends, msgs).grants[g], Serve(ends', msgs').grants[h];
    GrantsToHeadHolds(ends, msgs);
    GrantsToHeadHolds(ends', msgs');
    GrantWasNotHead(ends', msgs', h);
    SameTable(ends, msgs, ends', msgs', first.at + 1);
    if first.at == second.at {
      OneHead(Serve(ends', msgs'[..second.at + 1]).store, first.key, first.client, second.client);
    } else {
      ReleasedBetween(ends', msgs', first.at, first.key, first.client, second);
    }
  }
}
