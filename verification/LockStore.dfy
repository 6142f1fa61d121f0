/**
 The lock table of the lock service: for each key a queue of clients, the first of which owns
 the lock.
 */
module LockTable {

  type Key = string
  type ClientId = int

  datatype OpType = LockOp | UnlockOp | RequestLockOp | AcquireLockOp | RequestUnlockOp

  datatype Op = Op(kind: OpType, key: Key, client: ClientId, requestId: int)

  type Store = map<Key, seq<ClientId>>

  function Queue(store: Store, key: Key): seq<ClientId> {
    if key in store then store[key] else []
  }

  function Filtered(queue: seq<ClientId>, keep: ClientId -> bool): seq<ClientId> {
    if queue == [] then []
    else
      var last := |queue| - 1;
      Filtered(queue[..last], keep) + if keep(queue[last]) then [queue[last]] else []
  }

  /** The test by which an Unlock keeps elements. */
  function Others(id: ClientId): ClientId -> bool {
    elem => id != elem
  }

  /** The queue without one client. */
  function Without(queue: seq<ClientId>, id: ClientId): seq<ClientId> {
    Filtered(queue, Others(id))
  }

  function Locked(store: Store, key: Key, id: ClientId): Store {
    if id in Queue(store, key) then store else store[key := Queue(store, key) + [id]]
  }

  function Unlocked(store: Store, key: Key, id: ClientId): Store {
    var queue := Without(Queue(store, key), id);
    if queue == [] then store - {key} else store[key := queue]
  }

  /** The zero client id stands for no owner. */
  const NOBODY: ClientId := 0

  function Owner(store: Store, key: Key): ClientId {
    if Queue(store, key) == [] then NOBODY else Queue(store, key)[0]
  }

  /** The effect of an applied operation on the table; other operation types have none. */
  function Apply(store: Store, op: Op): Store {
    match op.kind
    case LockOp => Locked(store, op.key, op.client)
    case UnlockOp => Unlocked(store, op.key, op.client)
    case _ => store
  }

  function Replay(ops: seq<Op>): Store {
    if ops == [] then map[] else Apply(Replay(ops[..|ops| - 1]), ops[|ops| - 1])
  }

  /** A key is stored only with a non-empty queue. */
  ghost predicate Clean(store: Store) {
    forall key :: key in store ==> store[key] != []
  }

  lemma {:induction false} ReplayIsClean(ops: seq<Op>)
    ensures Clean(Replay(ops))
  {
    if ops != [] {
      ReplayIsClean(ops[..|ops| - 1]);
    }
  }

  // ---------------------------------------------------------------- the table in place

  /** LockStore and the MultiMap under it. */
  class LockStore {
    var store: Store

    ghost predicate Valid()
      reads this
    {
      Clean(store)
    }

    constructor ()
      ensures store == Replay([]) && Valid()
    {
      store := map[];
    }

    static method Exists(elems: seq<ClientId>, test: ClientId -> bool) returns (found: bool)
      ensures found <==> exists i :: 0 <= i < |elems| && test(elems[i])
    {
      for i := 0 to |elems|
        invariant forall j :: 0 <= j < i ==> !test(elems[j])
      {
        if test(elems[i]) {
          return true;
        }
      }
      return false;
    }

    static method Filter(elems: seq<ClientId>, keepWhenTrue: ClientId -> bool) returns (result: seq<ClientId>)
      ensures result == Filtered(elems, keepWhenTrue)
    {
      result := [];
      for i := 0 to |elems|
        invariant result == Filtered(elems[..i], keepWhenTrue)
      {
        assert elems[..i + 1][..i] == elems[..i];
        if keepWhenTrue(elems[i]) {
          result := result + [elems[i]];
        }
      }
      assert elems[..|elems|] == elems;
    }

    method Put(key: Key, id: ClientId)
      modifies this
      ensures store == old(store)[key := Queue(old(store), key) + [id]]
    {
      var queue := if key in store then store[key] else [];
      store := store[key := queue + [id]];
    }

    method CleanEmpty(key: Key)
      modifies this
      ensures store == if key in old(store) && old(store)[key] == [] then old(store) - {key} else old(store)
    {
      if key in store && |store[key]| == 0 {
        store := store - {key};
      }
    }

    method GetLockOwner(key: Key) returns (id: ClientId, exists_: bool)
      requires Valid()
      ensures id == Owner(store, key) && (exists_ <==> Queue(store, key) != [])
    {
      if key in store {
        return store[key][0], true;
      } else {
        return NOBODY, false;
      }
    }

    method Lock(key: Key, id: ClientId)
      requires Valid()
      modifies this
      ensures Valid() && store == Locked(old(store), key, id)
    {
      var queue := if key in store then store[key] else [];
      var there := Exists(queue, elem => id == elem);
      if !there {
        Put(key, id);
      }
    }

    method Unlock(key: Key, id: ClientId)
      requires Valid()
      modifies this
      ensures Valid() && store == Unlocked(old(store), key, id)
    {
      var queue := if key in store then store[key] else [];
      var kept := Filter(queue, Others(id));
      store := store[key := kept];
      CleanEmpty(key);
      assert kept == [] ==> store == old(store) - {key};
    }
  }

  // ---------------------------------------------------------------- queues and history

  ghost predicate Is(op: Op, kind: OpType, key: Key, c: ClientId) {
    op.kind == kind && op.key == key && op.client == c
  }

  /** Operation i asks for the key for client c, and c has not released it since. */
  ghost predicate Waits(ops: seq<Op>, key: Key, c: ClientId, i: nat) {
    && i < |ops| && Is(ops[i], LockOp, key, c)
    && forall j :: i < j < |ops| ==> !Is(ops[j], UnlockOp, key, c)
  }

  /** Operation i is the first Lock of its client after the client's last Unlock. */
  ghost predicate IsRequest(ops: seq<Op>, key: Key, i: nat) {
    && i < |ops|
    && Waits(ops, key, ops[i].client, i)
    && forall j: nat :: j < i ==> !Waits(ops, key, ops[i].client, j)
  }

  /** The clients of the requests among the first k operations, in order. */
  ghost function Requesters(ops: seq<Op>, key: Key, k: nat): seq<ClientId>
    requires k <= |ops|
  {
    if k == 0 then []
    else Requesters(ops, key, k - 1) + if IsRequest(ops, key, k - 1) then [ops[k - 1].client] else []
  }

  lemma {:induction false} RequestersWait(ops: seq<Op>, key: Key, k: nat, c: ClientId)
    requires k <= |ops|
    ensures c in Requesters(ops, key, k) <==> exists i: nat :: i < k && Waits(ops, key, c, i)
  {
    if k > 0 {
      RequestersWait(ops, key, k - 1, c);
    }
  }

  lemma WaitsKept(ops: seq<Op>, op: Op, key: Key)
    ensures forall c, i: nat :: i < |ops| && !Is(op, UnlockOp, key, c) ==>
            (Waits(ops + [op], key, c, i) <==> Waits(ops, key, c, i))
    ensures forall i: nat :: i < |ops| ==> (ops + [op])[i] == ops[i]
  {
    forall c, i: nat | i < |ops| && !Is(op, UnlockOp, key, c)
      ensures Waits(ops + [op], key, c, i) <==> Waits(ops, key, c, i)
    {
      assert forall j :: 0 <= j < |ops| ==> (ops + [op])[j] == ops[j];
    }
  }

  /** An operation that releases nothing leaves earlier requests as they were. */
  lemma {:induction false} RequestersKept(ops: seq<Op>, op: Op, key: Key, k: nat)
    requires k <= |ops| && !(op.kind == UnlockOp && op.key == key)
    ensures Requesters(ops + [op], key, k) == Requesters(ops, key, k)
  {
    if k > 0 {
      RequestersKept(ops, op, key, k - 1);
      WaitsKept(ops, op, key);
    }
  }

  lemma RequestReleased(ops: seq<Op>, op: Op, key: Key, i: nat)
    requires i < |ops| && op.kind == UnlockOp && op.key == key
    ensures IsRequest(ops + [op], key, i) <==> IsRequest(ops, key, i) && ops[i].client != op.client
  {
    WaitsKept(ops, op, key);
    assert (ops + [op])[|ops|] == op;
  }

  /** An Unlock withdraws exactly its own client's request. */
  lemma {:induction false} RequestersReleased(ops: seq<Op>, op: Op, key: Key, k: nat)
    requires k <= |ops| && op.kind == UnlockOp && op.key == key
    ensures Requesters(ops + [op], key, k) == Without(Requesters(ops, key, k), op.client)
  {
    if k > 0 {
      RequestersReleased(ops, op, key, k - 1);
      var earlier, client := Requesters(ops, key, k - 1), ops[k - 1].client;
      RequestReleased(ops, op, key, k - 1);
      if IsRequest(ops, key, k - 1) {
        assert (earlier + [client])[..|earlier|] == earlier;
      } else {
        assert Requesters(ops, key, k) == earlier;
      }
    }
  }

  lemma LastRequest(ops: seq<Op>, op: Op, key: Key)
    requires !(op.kind == UnlockOp && op.key == key)
    ensures IsRequest(ops + [op], key, |ops|) <==>
      Is(op, LockOp, key, op.client) && !exists i: nat :: i < |ops| && Waits(ops, key, op.client, i)
  {
    WaitsKept(ops, op, key);
    assert Is(op, LockOp, key, op.client) ==> Waits(ops + [op], key, op.client, |ops|);
    hide Waits;
    assert forall j: nat :: j < |ops| ==> (Waits(ops + [op], key, op.client, j) <==> Waits(ops, key, op.client, j));
  }

  lemma EmptyQueue(key: Key)
    ensures Queue(map[], key) == []
  {
  }

  function QueueOf(queue: seq<ClientId>, op: Op, key: Key): seq<ClientId> {
    if op.key == key && op.kind == UnlockOp then Without(queue, op.client)
    else if op.key == key && op.kind == LockOp && op.client !in queue then queue + [op.client]
    else queue
  }

  /** What an operation does to the queue of a key. */
  lemma QueueAfter(store: Store, op: Op, key: Key)
    ensures Queue(Apply(store, op), key) == QueueOf(Queue(store, key), op, key)
  {
  }

  lemma NoRequest(ops: seq<Op>, op: Op, key: Key)
    requires op.kind == UnlockOp
    ensures !IsRequest(ops + [op], key, |ops|)
  {
  }

  lemma NextRequesters(ops: seq<Op>, op: Op, key: Key)
    ensures Requesters(ops + [op], key, |ops| + 1) == QueueOf(Requesters(ops, key, |ops|), op, key)
  {
    hide Waits, Without;
    var queue := Requesters(ops, key, |ops|);
    if op.kind == UnlockOp && op.key == key {
      RequestersReleased(ops, op, key, |ops|);
      NoRequest(ops, op, key);
      assert Without(queue, op.client) + [] == Without(queue, op.client);
    } else {
      RequestersKept(ops, op, key, |ops|);
      RequestersWait(ops, key, |ops|, op.client);
      LastRequest(ops, op, key);
      assert queue + [] == queue;
    }
  }

  /**
   A key's queue is exactly the clients with a Lock after their last Unlock, in the order of their first such
   Lock.
   */
  lemma {:induction false} QueueIsHistory(ops: seq<Op>, key: Key)
    ensures Queue(Replay(ops), key) == Requesters(ops, key, |ops|)
  {
    hide Waits, IsRequest, Apply, Queue;
    if ops == [] {
      EmptyQueue(key);
    } else {
      var before, op := ops[..|ops| - 1], ops[|ops| - 1];
      assert ops == before + [op];
      QueueIsHistory(before, key);
      QueueAfter(Replay(before), op, key);
      NextRequesters(before, op, key);
    }
  }

  /** No client is in a queue twice. */
  lemma {:induction false} RequestersDistinct(ops: seq<Op>, key: Key, k: nat)
    requires k <= |ops|
    ensures forall p, q :: 0 <= p < q < |Requesters(ops, key, k)| ==>
            Requesters(ops, key, k)[p] != Requesters(ops, key, k)[q]
  {
    if k > 0 {
      RequestersDistinct(ops, key, k - 1);
      RequestersWait(ops, key, k - 1, ops[k - 1].client);
    }
  }

  /** After any history: a queue holds exactly the waiting clients, each once, and a stored queue is not empty. */
  lemma QueueHoldsWaiters(ops: seq<Op>, key: Key, c: ClientId)
    ensures var queue := Queue(Replay(ops), key);
            && (c in queue <==> exists i: nat :: i < |ops| && Waits(ops, key, c, i))
            && (forall p, q :: 0 <= p < q < |queue| ==> queue[p] != queue[q])
            && (key in Replay(ops) <==> queue != [])
  {
    QueueIsHistory(ops, key);
    RequestersWait(ops, key, |ops|, c);
    RequestersDistinct(ops, key, |ops|);
    ReplayIsClean(ops);
  }

  // ---------------------------------------------------------------- fairness

  /** Client c stands at place p', which is not behind place p. */
  ghost predicate At(queue: seq<ClientId>, p': int, p: nat, c: ClientId) {
    0 <= p' <= p && p' < |queue| && queue[p'] == c
  }

  lemma {:induction false} WithoutIsShorter(queue: seq<ClientId>, id: ClientId)
    ensures |Without(queue, id)| <= |queue|
  {
    if queue != [] {
      WithoutIsShorter(queue[..|queue| - 1], id);
    }
  }

  lemma {:induction false} WithoutKeepsPlace(queue: seq<ClientId>, id: ClientId, p: nat)
    requires p < |queue| && queue[p] != id
    ensures exists p' :: At(Without(queue, id), p', p, queue[p])
    ensures p == 0 ==> Without(queue, id) != [] && Without(queue, id)[0] == queue[0]
  {
    var last := |queue| - 1;
    var rest := Without(queue[..last], id);
    if p < last {
      WithoutKeepsPlace(queue[..last], id, p);
      var p' :| At(rest, p', p, queue[p]);
      assert At(Without(queue, id), p', p, queue[p]);
    } else {
      WithoutIsShorter(queue[..last], id);
      assert At(Without(queue, id), |rest|, p, queue[p]);
    }
  }

  lemma {:induction false} WithoutDropsOnly(queue: seq<ClientId>, id: ClientId, c: ClientId)
    ensures c in Without(queue, id) <==> c in queue && c != id
  {
    if queue != [] {
      WithoutDropsOnly(queue[..|queue| - 1], id, c);
    }
  }

  /** A waiter that still waits never moves back, and a head that has not unlocked stays head. */
  lemma PlaceNeverGrows(store: Store, op: Op, key: Key, p: nat)
    requires p < |Queue(store, key)| && !Is(op, UnlockOp, key, Queue(store, key)[p])
    ensures var c, queue := Queue(store, key)[p], Queue(Apply(store, op), key);
            && (exists p' :: At(queue, p', p, c))
            && (p == 0 ==> queue != [] && queue[0] == c)
  {
    hide Apply, Queue, Without;
    var queue := Queue(store, key);
    QueueAfter(store, op, key);
    if op.kind == UnlockOp && op.key == key {
      WithoutKeepsPlace(queue, op.client, p);
    } else {
      assert At(QueueOf(queue, op, key), p, p, queue[p]);
    }
  }

  /** Conversely an Unlock takes its client out of the queue. */
  lemma UnlockLeaves(store: Store, key: Key, id: ClientId)
    ensures id !in Queue(Unlocked(store, key, id), key)
  {
    WithoutDropsOnly(Queue(store, key), id, id);
  }
}
