/**
 What each section of a peer leaves behind, for every state and every message: who holds which term,
 vote, log and index afterwards, and what is sent and delivered.
 */
module RaftOutcomes {
  import opened RaftServer
  import opened RaftCluster

  function Larger(a: nat, b: nat): nat {
    if a > b then a else b
  }

  // ---------------------------------------------------------------- elections

  ghost predicate AskedOnce(calls: seq<VoteCall>, args: VoteArgs, me: nat, peer: nat) {
    exists k ::
      && 0 <= k < |calls| && calls[k].to == peer && calls[k].from == me && !calls[k].handled && !calls[k].consumed
      && calls[k].args == args
      && forall j :: 0 <= j < |calls| && calls[j].to == peer ==> j == k
  }

  /** The calls ask every other peer once, describing the log of the candidate, and nobody else. */
  ghost predicate AsksAll(calls: seq<VoteCall>, s: Server, me: nat, n: nat) {
    && |calls| == n - 1 && s.log != []
    && (var args := VoteArgs(s.currentTerm, me, |s.log| - 1, s.log[|s.log| - 1].term);
        forall peer: nat :: peer < n && peer != me ==> AskedOnce(calls, args, me, peer))
    && (forall k :: 0 <= k < |calls| ==> calls[k].to < n && calls[k].to != me)
  }

  lemma CandidacyAsks(s: Server, me: nat, n: nat)
    requires s.log != [] && me < n
    ensures AsksAll(VoteCalls(me, n, VoteRequest(s, me)), s, me, n)
  {
    var calls, args := VoteCalls(me, n, VoteRequest(s, me)), VoteRequest(s, me);
    forall peer: nat | peer < n && peer != me
      ensures AskedOnce(calls, args, me, peer)
    {
      assert calls[if peer < me then peer else peer - 1].to == peer;
    }
  }

  /** A request of a higher term always raises the term and deposes; the vote of the term goes to the grantee. */
  lemma VoteRequestSettles(s: Server, args: VoteArgs)
    requires s.log != []
    ensures var (s', reply) := OnRequestVote(s, args);
            && s'.currentTerm == Larger(s.currentTerm, args.term)
            && s'.role == (if args.term > s.currentTerm then Follower else s.role)
            && s'.votedFor == (if reply.granted then args.candidateId
                               else if args.term > s.currentTerm then -1 else s.votedFor)
            && s' == s.(currentTerm := s'.currentTerm, role := s'.role, votedFor := s'.votedFor)
  {
  }

  /** A candidate wins exactly with the grant that makes a majority, and then starts from the end of its log. */
  lemma VoteReplySettles(s: Server, n: nat, reply: VoteReply)
    ensures var s' := OnVoteReply(s, n, reply);
            if reply.term > s.currentTerm then
              s' == s.(role := Follower, currentTerm := reply.term, votedFor := -1)
            else
              && s'.votes == s.votes + (if reply.granted then 1 else 0)
              && (s'.role == Leader <==>
                    s.role == Leader || (s.role == Candidate && reply.granted && s.votes + 1 > n / 2))
              && (s'.role != s.role ==>
                    && s'.role == Leader && |s'.nextIndex| == |s'.matchIndex| == n
                    && forall p :: 0 <= p < n ==> s'.nextIndex[p] == |s.log| && s'.matchIndex[p] == 0)
              && s' == s.(role := s'.role, votes := s'.votes,
                          nextIndex := if s'.role == s.role then s.nextIndex else s'.nextIndex,
                          matchIndex := if s'.role == s.role then s.matchIndex else s'.matchIndex)
  {
  }

  ghost predicate ZeroOnce(calls: seq<AppendCall>, me: nat, peer: nat) {
    exists k ::
      && 0 <= k < |calls| && calls[k].to == peer && calls[k].from == me && !calls[k].handled && !calls[k].consumed
      && calls[k].args == AppendArgs(0, 0, 0, 0, [], 0)
      && forall j :: 0 <= j < |calls| && calls[j].to == peer ==> j == k
  }

  /** The calls a winner makes at once: the all-zero request, once to every other peer. */
  ghost predicate ZerosToAll(calls: seq<AppendCall>, me: nat, n: nat) {
    && |calls| == n - 1
    && (forall peer: nat :: peer < n && peer != me ==> ZeroOnce(calls, me, peer))
  }

  lemma WinnerSendsZeros(me: nat, n: nat)
    requires me < n
    ensures ZerosToAll(ZeroCalls(me, n), me, n)
  {
    var calls := ZeroCalls(me, n);
    forall peer: nat | peer < n && peer != me
      ensures ZeroOnce(calls, me, peer)
    {
      assert calls[if peer < me then peer else peer - 1].to == peer;
    }
  }

  // ---------------------------------------------------------------- replication

  /** What a peer has delivered after an apply loop reached `to`. */
  ghost predicate AppliedUpTo(log: seq<Entry>, before: seq<ApplyMsg>, after: seq<ApplyMsg>, to: nat) {
    && |after| == Larger(|before|, to) && before <= after
    && forall k :: |before| <= k < |after| ==>
        k + 1 < |log| && after[k] == ApplyMsg(k + 1, log[k + 1].command)
  }

  lemma DeliveriesApply(log: seq<Entry>, before: seq<ApplyMsg>, to: nat)
    requires to < |log|
    ensures AppliedUpTo(log, before, before + Deliveries(log, |before|, to), to)
  {
  }

  lemma FollowCommitKeeps(s: Server, leaderCommit: nat)
    requires s.log != []
    ensures var s' := FollowCommit(s, leaderCommit);
            s' == s.(commitIndex := s'.commitIndex, lastApplied := s'.lastApplied, applied := s'.applied)
  {
  }

  /** Exactly when a request succeeds, and what it leaves: a rejection at most cuts the log at the conflict. */
  lemma AppendSettles(s: Server, n: nat, args: AppendArgs)
    requires WfServer(s, n)
    ensures var (s', reply) := OnAppendEntries(s, args);
            var fits := args.prevLogIndex < |s.log| && s.log[args.prevLogIndex].term == args.prevLogTerm;
            && (reply.success <==> args.term >= s.currentTerm && fits)
            && reply.term == s'.currentTerm == Larger(s.currentTerm, args.term)
            && s'.role == (if args.term > s.currentTerm then Follower else s.role)
            && s'.votedFor == (if args.term > s.currentTerm then -1 else s.votedFor)
            && s'.votes == s.votes && s'.nextIndex == s.nextIndex && s'.matchIndex == s.matchIndex
            && (reply.success ==> s'.log == s.log[..args.prevLogIndex + 1] + args.entries)
            && (!reply.success && args.term >= s.currentTerm && args.prevLogIndex < |s.log| ==>
                  s'.log == s.log[..args.prevLogIndex])
            && (args.term < s.currentTerm || args.prevLogIndex >= |s.log| ==> s'.log == s.log)
  {
    hide FollowCommit, WfLog;
    if Accepts(s, args) {
      AcceptedFollows(s, args);
      FollowCommitKeeps(Raise(s, args.term).(log := AppendedLog(s, args)), args.leaderCommit);
    }
  }

  /** An accepting peer commits and delivers as far as the leader has committed and its own log reaches. */
  lemma AppendDelivers(s: Server, n: nat, args: AppendArgs)
    requires WfServer(s, n)
    ensures var (s', reply) := OnAppendEntries(s, args);
            if reply.success && args.leaderCommit > s.commitIndex then
              && s'.commitIndex == (if args.leaderCommit < |s'.log| then args.leaderCommit else |s'.log| - 1)
              && AppliedUpTo(s'.log, s.applied, s'.applied, s'.commitIndex)
            else s'.commitIndex == s.commitIndex && s'.applied == s.applied
  {
    AppendOutcome(s, n, args);
    hide OnAppendEntries, AppliedUpTo;
    if Accepts(s, args) {
      AcceptCommits(s, n, args);
      var s' := OnAppendEntries(s, args).0;
      if args.leaderCommit > s.commitIndex {
        DeliveriesApply(s'.log, s.applied, s'.commitIndex);
      }
    }
  }

  /** More than half of the n peers are known to have entry N, which is of the leader's term. */
  ghost predicate MajorityHas(s: Server, n: nat, N: nat) {
    N < |s.log| && s.log[N].term == s.currentTerm && |Reached(s.matchIndex, N)| > n / 2
  }

  lemma CommittableIsMajority(s: Server, n: nat, N: nat)
    requires N < |s.log|
    ensures Committable(s, n, N) <==> MajorityHas(s, n, N)
  {
    CountIsCardinality(s.matchIndex, N);
  }

  /** The scan commits the last entry a majority has, if there is one at or past commitIndex, and delivers up to it. */
  ghost predicate ScanSettles(s: Server, n: nat, s': Server) {
    && s' == s.(commitIndex := s'.commitIndex, lastApplied := s'.lastApplied, applied := s'.applied)
    && s.commitIndex <= s'.commitIndex
    && (forall N: nat :: s.commitIndex <= N && MajorityHas(s, n, N) ==> N <= s'.commitIndex)
    && (s'.commitIndex != s.commitIndex ==> MajorityHas(s, n, s'.commitIndex))
    && (if MajorityHas(s, n, s'.commitIndex) then AppliedUpTo(s.log, s.applied, s'.applied, s'.commitIndex)
        else s'.applied == s.applied)
  }

  lemma MajorityInLog(s: Server, n: nat)
    ensures forall N: nat :: MajorityHas(s, n, N) ==> N < |s.log|
  {
  }

  lemma CommitSettles(s: Server, n: nat)
    requires WfServer(s, n)
    ensures ScanSettles(s, n, Commit(s, n))
  {
    hide WfServer, CommitScan, AppliedUpTo, Reached, MajorityHas;
    CommitOutcome(s, n);
    CommitScanSpec(s, n);
    var point := CommitScan(s, n, |s.log|);
    forall N: nat | N < |s.log|
      ensures Committable(s, n, N) <==> MajorityHas(s, n, N)
    {
      CommittableIsMajority(s, n, N);
    }
    hide Committable;
    assert forall N: nat :: MajorityHas(s, n, N) ==> N < |s.log| by { MajorityInLog(s, n); }
    if point >= 0 {
      DeliveriesApply(s.log, s.applied, point);
    }
  }

  /** A leader that hears a success knows exactly how far that peer has come; nothing else about peers changes. */
  ghost predicate Learns(s: Server, peer: nat, args: AppendArgs, s': Server) {
    && |s'.matchIndex| == |s.matchIndex| && |s'.nextIndex| == |s.nextIndex|
    && peer < |s.matchIndex| && peer < |s.nextIndex|
    && s'.matchIndex[peer] == args.prevLogIndex + |args.entries|
    && s'.nextIndex[peer] == args.prevLogIndex + |args.entries| + 1
    && (forall p :: 0 <= p < |s.matchIndex| && p != peer ==> s'.matchIndex[p] == s.matchIndex[p])
    && (forall p :: 0 <= p < |s.nextIndex| && p != peer ==> s'.nextIndex[p] == s.nextIndex[p])
  }

  /** All four ways in which a leader takes the reply to an append request. */
  lemma AppendReplySettles(s: Server, n: nat, peer: nat, args: AppendArgs, reply: AppendReply)
    requires WfServer(s, n) && s.role == Leader && peer < n
    ensures var s' := OnAppendReply(s, n, peer, args, reply);
            && |s.nextIndex| == n && |s.matchIndex| == n
            && if reply.term > s.currentTerm then
                 s' == s.(role := Follower, currentTerm := reply.term, votedFor := -1)
               else if reply.success then
                 && Learns(s, peer, args, s')
                 && ScanSettles(s.(nextIndex := s'.nextIndex, matchIndex := s'.matchIndex), n, s')
               else if s.nextIndex[peer] > 1 then
                 s' == s.(nextIndex := s.nextIndex[peer := s.nextIndex[peer] / 2])
               else ScanSettles(s, n, s')
  {
    hide WfServer, Commit, MajorityHas, AppliedUpTo;
    LeaderShape(s, n);
    if reply.term <= s.currentTerm && (reply.success || s.nextIndex[peer] <= 1) {
      var s1 := Acknowledged(s, peer, args, reply);
      AcknowledgedIsWf(s, n, peer, args, reply);
      CommitSettles(s1, n);
      assert s1 == s.(nextIndex := s1.nextIndex, matchIndex := s1.matchIndex);
    }
  }

  /**
   The reply that makes a majority commits: once more than half of the match indices, with the one this
   reply brings, reach an entry of the leader's term past commitIndex, the leader commits and delivers it
   with this very reply.
   */
  lemma MajorityAckCommits(s: Server, n: nat, peer: nat, args: AppendArgs, reply: AppendReply, N: nat)
    requires WfServer(s, n) && s.role == Leader && peer < n && reply.success && reply.term <= s.currentTerm
    requires s.commitIndex < N < |s.log| && s.log[N].term == s.currentTerm
    requires |set p: nat | p < |s.matchIndex|
                && (if p == peer then args.prevLogIndex + |args.entries| else s.matchIndex[p]) >= N| > n / 2
    ensures var s' := OnAppendReply(s, n, peer, args, reply);
            && s'.role == Leader && s'.commitIndex >= N
            && N <= |s'.applied| && (|s.applied| < N ==> s'.applied[N - 1] == ApplyMsg(N, s.log[N].command))
  {
    hide WfServer, OnAppendReply;
    AppendReplySettles(s, n, peer, args, reply);
    var s' := OnAppendReply(s, n, peer, args, reply);
    assert Reached(s'.matchIndex, N)
        == set p: nat | p < |s.matchIndex|
                        && (if p == peer then args.prevLogIndex + |args.entries| else s.matchIndex[p]) >= N;
    hide Reached;
    assert MajorityHas(s.(nextIndex := s'.nextIndex, matchIndex := s'.matchIndex), n, N);
  }

  // ---------------------------------------------------------------- heartbeats

  /** A request offers a peer the leader's log from the peer's next index on, with the leader's commit index. */
  ghost predicate Offers(s: Server, me: nat, next: nat, args: AppendArgs) {
    && args.term == s.currentTerm && args.leaderId == me && args.leaderCommit == s.commitIndex
    && args.prevLogIndex + 1 == next
    && (next <= |s.log| ==>
          args.prevLogTerm == s.log[args.prevLogIndex].term && args.entries == s.log[next..])
    && (next > |s.log| > 0 ==> args.prevLogTerm == s.log[|s.log| - 1].term && args.entries == [])
  }

  lemma HeartbeatOffers(s: Server, me: nat, next: nat)
    requires s.log != [] && next >= 1
    ensures Offers(s, me, next, Heartbeat(s, me, next))
  {
  }

  /** Among the calls there is exactly one to the peer, on its way, and it makes this offer. */
  ghost predicate SentOnce(calls: seq<AppendCall>, s: Server, me: nat, peer: nat) {
    peer < |s.nextIndex| &&
    exists k ::
      && 0 <= k < |calls| && calls[k].to == peer && calls[k].from == me && !calls[k].handled && !calls[k].consumed
      && Offers(s, me, s.nextIndex[peer], calls[k].args)
      && forall j :: 0 <= j < |calls| && calls[j].to == peer ==> j == k
  }

  /** The calls make an offer to every other peer and to nobody else. */
  ghost predicate OffersToAll(calls: seq<AppendCall>, s: Server, me: nat, n: nat) {
    && |calls| == n - 1
    && (forall peer: nat :: peer < n && peer != me ==> SentOnce(calls, s, me, peer))
    && (forall k :: 0 <= k < |calls| ==> calls[k].to < n && calls[k].to != me)
  }

  lemma HeartbeatsOffer(s: Server, me: nat, n: nat)
    requires WfServer(s, n) && s.role == Leader && me < n
    ensures |s.nextIndex| == n && forall p :: 0 <= p < n ==> s.nextIndex[p] >= 1
    ensures OffersToAll(HeartbeatCalls(s, me, n), s, me, n)
  {
    hide WfServer, Heartbeat, Offers;
    LeaderShape(s, n);
    var calls := HeartbeatCalls(s, me, n);
    forall peer: nat | peer < n && peer != me
      ensures SentOnce(calls, s, me, peer)
    {
      var k := if peer < me then peer else peer - 1;
      HeartbeatOffers(s, me, s.nextIndex[peer]);
      assert calls[k].to == peer;
    }
  }
}
