/** The client side of the lock service: request numbering and the retry loop. */
module LockClerk {
  import opened LockTable

  function NextServer(server: nat, servers: nat): (v: nat)
    requires server < servers
    ensures v == if server + 1 < servers then server + 1 else 0
  {
    (server + 1) % servers
  }

  /** The server asked at the i-th attempt. */
  function Target(leader: nat, i: nat, servers: nat): (v: nat)
    requires leader < servers
    ensures v < servers
  {
    if i == 0 then leader else NextServer(Target(leader, i - 1, servers), servers)
  }

  lemma TargetFollows(leader: nat, servers: nat)
    requires leader < servers
    ensures Target(leader, 0, servers) == leader
    ensures forall i: nat :: Target(leader, i + 1, servers) == NextServer(Target(leader, i, servers), servers)
  {
  }

  /**
   The servers asked, when the calls would be answered so in turn: in rotation from the hint, up to and
   including the first success, and as long as the answers last when there is none.
   */
  ghost predicate Asks(leader: nat, servers: nat, answers: seq<bool>, asked: seq<nat>, done: bool)
    requires leader < servers
  {
    && |asked| <= |answers|
    && (forall j: nat :: j < |asked| ==> asked[j] == Target(leader, j, servers))
    && (forall j: nat :: j + 1 < |asked| ==> !answers[j])
    && (if done then asked != [] && answers[|asked| - 1] else |asked| == |answers| && true !in answers)
  }

  class Clerk {
    const servers: nat
    const clientId: ClientId
    var leaderId: nat
    var requestId: nat

    ghost predicate Valid()
      reads this
    {
      leaderId < servers
    }

    constructor (servers: nat, clientId: ClientId)
      requires servers > 0
      ensures Valid() && this.servers == servers && this.clientId == clientId && leaderId == 0 && requestId == 0
    {
      this.servers, this.clientId, leaderId, requestId := servers, clientId, 0, 0;
    }

    /**
     Sends one request, given how the calls would be answered in turn: `true` for a reply other
     than ErrWrongLeader.  Every attempt carries the same numbered request; the servers are asked
     in rotation from the last one that answered.  `done` is false while no call has succeeded.
     */
    method SendMutex(key: Key, kind: OpType, answers: seq<bool>)
      returns (sent: seq<(nat, Op)>, done: bool)
      requires Valid()
      modifies this
      ensures Valid() && requestId == old(requestId) + 1
      ensures |sent| <= |answers| && forall j: nat :: j < |sent| ==>
                sent[j] == (Target(old(leaderId), j, servers), Op(kind, key, clientId, old(requestId) + 1))
      ensures forall j: nat :: j + 1 < |sent| ==> !answers[j]
      ensures done ==> sent != [] && answers[|sent| - 1] && leaderId == sent[|sent| - 1].0
      ensures !done ==> |sent| == |answers| && true !in answers && leaderId == old(leaderId)
      ensures Asks(old(leaderId), servers, answers, seq(|sent|, j requires 0 <= j < |sent| => sent[j].0), done)
    {
      hide NextServer, Target;
      requestId := requestId + 1;
      var args := Op(kind, key, clientId, requestId);
      var leader := leaderId;
      TargetFollows(leader, servers);
      var server, i := leader, 0;
      sent, done := [], false;
      while i < |answers| && !done
        invariant i <= |answers| && |sent| == (if done then i + 1 else i) <= |answers|
        invariant forall j :: 0 <= j < i ==> !answers[j]
        invariant server == Target(leader, i, servers)
        invariant done ==> answers[i]
        invariant forall j: nat :: j < |sent| ==> sent[j] == (Target(leader, j, servers), args)
        decreases |answers| - i, !done
      {
        sent := sent + [(server, args)];
        if answers[i] {
          done := true;
        } else {
          assert Target(leader, i + 1, servers) == NextServer(server, servers);
          server, i := NextServer(server, servers), i + 1;
        }
      }
      if done {
        leaderId := server;
      }
    }
  }

  lemma {:induction false} Rotates(leader: nat, servers: nat, start: nat, d: nat)
    requires leader < servers && d <= servers
    ensures var at := Target(leader, start, servers) + d;
            Target(leader, start + d, servers) == if at < servers then at else at - servers
  {
    hide NextServer;
    if d > 0 {
      Rotates(leader, servers, start, d - 1);
    }
  }

  /** As many consecutive attempts as there are servers reach every server, so a retrying clerk misses no leader. */
  lemma RotationReachesAll(leader: nat, servers: nat, start: nat, v: nat)
    requires v < servers && leader < servers
    ensures exists i: nat :: start <= i < start + servers && Target(leader, i, servers) == v
  {
    var at := Target(leader, start, servers);
    var d := if at <= v then v - at else v + servers - at;
    Rotates(leader, servers, start, d);
    assert Target(leader, start + d, servers) == v;
  }

  /**
   If one server answers whenever it is asked, the clerk is done within one round, and its hint is then a
   server that answered.
   */
  lemma OneRoundSuffices(leader: nat, servers: nat, answers: seq<bool>, asked: seq<nat>, done: bool, v: nat)
    requires v < servers && leader < servers && Asks(leader, servers, answers, asked, done)
    requires |answers| >= servers
    requires forall i: nat :: i < |answers| && Target(leader, i, servers) == v ==> answers[i]
    ensures done && 0 < |asked| <= servers && answers[|asked| - 1]
    ensures asked[|asked| - 1] == Target(leader, |asked| - 1, servers)
  {
    hide Target;
    RotationReachesAll(leader, servers, 0, v);
    var i: nat :| i < servers && Target(leader, i, servers) == v;
    assert answers[i];
    assert i + 1 >= |asked|;
  }

  /** The clerk asks no more servers than it must: what it asked is determined by the answers. */
  lemma AskedOneWay(leader: nat, servers: nat, answers: seq<bool>, asked: seq<nat>, done: bool, asked': seq<nat>,
                    done': bool)
    requires leader < servers && Asks(leader, servers, answers, asked, done)
    requires Asks(leader, servers, answers, asked', done')
    ensures asked == asked' && done == done'
  {
    hide Target;
    assert done ==> answers[|asked| - 1] && true in answers;
    assert done' ==> answers[|asked'| - 1] && true in answers;
    assert |asked| == |asked'|;
  }
}
