/**
 Replication to one follower converges: rejections halve nextIndex, so a leader that starts at
 index x is rejected at most floor(log2 x) times before the follower's log equals its own.
 */
module RaftBackoff {
  import opened RaftServer
  import opened RaftLogs
  import opened RaftOutcomes

  function FloorLog2(x: nat): nat
    requires x >= 1
  {
    if x == 1 then 0 else 1 + FloorLog2(x / 2)
  }

  function Pow2(k: nat): nat {
    if k == 0 then 1 else 2 * Pow2(k - 1)
  }

  /** Two to the floor logarithm is the largest power of two not above x. */
  lemma {:induction false} FloorLog2Bounds(x: nat)
    requires x >= 1
    ensures Pow2(FloorLog2(x)) <= x < 2 * Pow2(FloorLog2(x))
  {
    if x > 1 {
      FloorLog2Bounds(x / 2);
    }
  }

  /** The two logs satisfy Log Matching. */
  ghost predicate LogsMatch(a: seq<Entry>, b: seq<Entry>) {
    forall i: nat :: i < |a| && i < |b| && a[i].term == b[i].term ==> Agree(a, b, i + 1)
  }

  /** A leader of an n-peer cluster and one of its followers, not ahead of it. */
  ghost predicate Replicating(leader: Server, follower: Server, n: nat, peer: nat) {
    && WfServer(leader, n) && WfServer(follower, n)
    && leader.role == Leader && peer < n
    && follower.currentTerm <= leader.currentTerm
    && leader.nextIndex[peer] <= |leader.log|
    && LogsMatch(leader.log, follower.log)
  }

  /** One heartbeat, its handling and its reply. */
  ghost function Round(leader: Server, follower: Server, n: nat, me: nat, peer: nat): (Server, Server)
    requires Replicating(leader, follower, n, peer)
  {
    var args := Heartbeat(leader, me, leader.nextIndex[peer]);
    var (follower', reply) := OnAppendEntries(follower, args);
    (OnAppendReply(leader, n, peer, args, reply), follower')
  }

  ghost predicate Succeeds(leader: Server, follower: Server, n: nat, me: nat, peer: nat)
    requires Replicating(leader, follower, n, peer)
  {
    OnAppendEntries(follower, Heartbeat(leader, me, leader.nextIndex[peer])).1.success
  }

  lemma RepliesInTerm(s: Server, args: AppendArgs)
    requires s.log != []
    ensures var (s', reply) := OnAppendEntries(s, args); reply.term == s'.currentTerm
  {
  }

  /** An accepted request carries the rest of the leader's log, on top of a part the logs share. */
  lemma FollowerCopies(leader: Server, follower: Server, n: nat, me: nat, peer: nat)
    requires Replicating(leader, follower, n, peer) && Succeeds(leader, follower, n, me, peer)
    ensures var args := Heartbeat(leader, me, leader.nextIndex[peer]);
            && OnAppendEntries(follower, args).0.log == leader.log
            && OnAppendEntries(follower, args).1.term == leader.currentTerm
            && args.prevLogIndex + 1 + |args.entries| == |leader.log|
  {
    hide OnAppendEntries, WfLog;
    LeaderShape(leader, n);
    var next := leader.nextIndex[peer];
    var args := Heartbeat(leader, me, next);
    AppendOutcome(follower, n, args);
    RepliesInTerm(follower, args);
    assert args.prevLogTerm == leader.log[next - 1].term;
    assert Agree(leader.log, follower.log, next);
    assert AppendedLog(follower, args) == leader.log;
  }

  /** A successful reply moves both indices to the end of the request and leaves the log alone. */
  lemma LeaderLearns(leader: Server, n: nat, peer: nat, args: AppendArgs, reply: AppendReply)
    requires WfServer(leader, n) && leader.role == Leader && peer < n && reply.success
             && reply.term <= leader.currentTerm
    ensures var leader' := OnAppendReply(leader, n, peer, args, reply);
            && leader'.log == leader.log && leader'.role == Leader && peer < |leader'.nextIndex|
            && leader'.nextIndex[peer] == args.prevLogIndex + 1 + |args.entries|
            && peer < |leader'.matchIndex| && leader'.matchIndex[peer] == args.prevLogIndex + |args.entries|
  {
    hide WfServer, OnAppendReply, MajorityHas, AppliedUpTo;
    AppendReplySettles(leader, n, peer, args, reply);
  }

  /**
   A successful round leaves the follower with exactly the leader's log and at least its commits, and the
   leader knows.
   */
  lemma SuccessCopiesLog(leader: Server, follower: Server, n: nat, me: nat, peer: nat)
    requires Replicating(leader, follower, n, peer) && Succeeds(leader, follower, n, me, peer)
    ensures var (leader', follower') := Round(leader, follower, n, me, peer);
            && follower'.log == leader.log && leader'.log == leader.log
            && leader'.role == Leader && leader'.nextIndex[peer] == |leader.log|
            && peer < |leader'.matchIndex| && leader'.matchIndex[peer] == |leader.log| - 1
            && (leader.commitIndex < |leader.log| ==>
                  && follower'.commitIndex == Larger(follower.commitIndex, leader.commitIndex)
                  && (leader.commitIndex > follower.commitIndex ==>
                        AppliedUpTo(leader.log, follower.applied, follower'.applied, leader.commitIndex)))
  {
    hide WfServer, OnAppendEntries, OnAppendReply, WfLog, LogsMatch, AppliedUpTo;
    LeaderShape(leader, n);
    WellFormedLog(follower, n);
    LogStartsNonEmpty(follower.log);
    FollowerCopies(leader, follower, n, me, peer);
    HeartbeatOffers(leader, me, leader.nextIndex[peer]);
    AppendDelivers(follower, n, Heartbeat(leader, me, leader.nextIndex[peer]));
    LeaderLearns(leader, n, peer, Heartbeat(leader, me, leader.nextIndex[peer]),
                 OnAppendEntries(follower, Heartbeat(leader, me, leader.nextIndex[peer])).1);
  }

  /** At index 1 the request starts from the sentinel, which every log has. */
  lemma FirstIndexSucceeds(leader: Server, follower: Server, n: nat, me: nat, peer: nat)
    requires Replicating(leader, follower, n, peer) && leader.nextIndex[peer] == 1
    ensures Succeeds(leader, follower, n, me, peer)
  {
    AppendOutcome(follower, n, Heartbeat(leader, me, 1));
  }

  lemma CutKeepsMatch(a: seq<Entry>, b: seq<Entry>, k: nat)
    requires LogsMatch(a, b) && k <= |b|
    ensures LogsMatch(a, b[..k])
  {
    forall i: nat | i < |a| && i < |b[..k]| && a[i].term == b[..k][i].term
      ensures Agree(a, b[..k], i + 1)
    {
      assert Agree(a, b, i + 1);
    }
  }

  /** A rejected round halves nextIndex, is never at index 1, and cuts at most the follower's log. */
  lemma RejectionHalves(leader: Server, follower: Server, n: nat, me: nat, peer: nat)
    requires Replicating(leader, follower, n, peer) && !Succeeds(leader, follower, n, me, peer)
    ensures var (leader', follower') := Round(leader, follower, n, me, peer);
            && leader.nextIndex[peer] > 1
            && leader' == leader.(nextIndex := leader.nextIndex[peer := leader.nextIndex[peer] / 2])
            && Replicating(leader', follower', n, peer)
  {
    if leader.nextIndex[peer] == 1 {
      FirstIndexSucceeds(leader, follower, n, me, peer);
    }
    LeaderShape(leader, n);
    var args := Heartbeat(leader, me, leader.nextIndex[peer]);
    HeartbeatIsWf(leader, n, me, leader.nextIndex[peer]);
    hide WfLog, WfAppend, Agree;
    AppendOutcome(follower, n, args);
    AppendEntriesKeepsWf(follower, n, args);
    hide OnAppendEntries;
    var log' := AppendedLog(follower, args);
    assert log' == follower.log[..|log'|];
    CutKeepsMatch(leader.log, follower.log, |log'|);
    hide LogsMatch;
  }

  /** How often a leader is rejected before its follower accepts. */
  ghost function Rejections(leader: Server, follower: Server, n: nat, me: nat, peer: nat): nat
    requires Replicating(leader, follower, n, peer)
    decreases leader.nextIndex[peer]
  {
    if Succeeds(leader, follower, n, me, peer) then 0
    else
      RejectionHalves(leader, follower, n, me, peer);
      var (leader', follower') := Round(leader, follower, n, me, peer);
      1 + Rejections(leader', follower', n, me, peer)
  }

  /** The pair after that many rejected rounds and the accepted one. */
  ghost function Settled(leader: Server, follower: Server, n: nat, me: nat, peer: nat): (Server, Server)
    requires Replicating(leader, follower, n, peer)
    decreases leader.nextIndex[peer]
  {
    var (leader', follower') := Round(leader, follower, n, me, peer);
    if Succeeds(leader, follower, n, me, peer) then (leader', follower')
    else
      RejectionHalves(leader, follower, n, me, peer);
      Settled(leader', follower', n, me, peer)
  }

  /** With no new command, at most floor(log2(nextIndex)) rejections and one success copy the log. */
  lemma {:induction false} BackoffConverges(leader: Server, follower: Server, n: nat, me: nat, peer: nat)
    requires Replicating(leader, follower, n, peer)
    ensures leader.nextIndex[peer] >= 1
    ensures Rejections(leader, follower, n, me, peer) <= FloorLog2(leader.nextIndex[peer])
    ensures var (leader', follower') := Settled(leader, follower, n, me, peer);
            && follower'.log == leader.log && leader'.log == leader.log
            && leader'.role == Leader && peer < |leader'.nextIndex| && leader'.nextIndex[peer] == |leader.log|
    decreases leader.nextIndex[peer]
  {
    LeaderShape(leader, n);
    hide WfServer, LogsMatch;
    if Succeeds(leader, follower, n, me, peer) {
      SuccessCopiesLog(leader, follower, n, me, peer);
    } else {
      RejectionHalves(leader, follower, n, me, peer);
      hide Succeeds;
      var (leader', follower') := Round(leader, follower, n, me, peer);
      hide Round;
      BackoffConverges(leader', follower', n, me, peer);
    }
  }
}
