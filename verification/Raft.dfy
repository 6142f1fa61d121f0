/**
 A Raft peer as an object: each method is one lock-held section, updating the fields in place.
 Sending on applyCh is recorded in `applied`; RPCs to send are returned.  Every method is
 proved against the function of module `RaftServer` that gives its effect, and says outright what
 it leaves behind.
 */
module RaftPeer {
  import opened RaftServer
  import opened RaftCluster
  import opened RaftOutcomes

  class Raft {
    const n: nat
    const me: nat
    var role: Role
    var votes: nat
    var currentTerm: nat
    var votedFor: int
    var log: seq<Entry>
    var commitIndex: nat
    var lastApplied: nat
    var nextIndex: seq<nat>
    var matchIndex: seq<nat>
    var applied: seq<ApplyMsg>

    ghost function View(): Server
      reads this
    {
      Server(role, votes, currentTerm, votedFor, log, commitIndex, lastApplied, nextIndex, matchIndex, applied)
    }

    ghost predicate Valid()
      reads this
    {
      me < n && WfServer(View(), n)
    }

    constructor (n: nat, me: nat)
      requires me < n
      ensures this.n == n && this.me == me && View() == Initial() && Valid()
      ensures role == Follower && currentTerm == 0 && votedFor == -1 && log == [SENTINEL]
      ensures commitIndex == lastApplied == 0 && applied == []
    {
      this.n, this.me := n, me;
      role, votes, currentTerm, votedFor := Follower, 0, 0, -1;
      log := [SENTINEL];
      commitIndex, lastApplied := 0, 0;
      nextIndex, matchIndex, applied := [], [], [];
    }

    method Start(command: Command) returns (index: int, term: int, isLeader: bool)
      requires Valid()
      modifies this
      ensures Valid() && View() == OnStart(old(View()), me, command)
      ensures term == currentTerm && (isLeader <==> old(role) == Leader)
      ensures isLeader ==> index == |old(log)| && log == old(log) + [Entry(currentTerm, command)]
      ensures isLeader ==> |matchIndex| == |nextIndex| == n && forall p :: 0 <= p < n ==>
                && matchIndex[p] == (if p == me then index else old(matchIndex)[p])
                && nextIndex[p] == (if p == me then index + 1 else old(nextIndex)[p])
      ensures !isLeader ==> index == -1 && unchanged(this)
    {
      index, term, isLeader := -1, currentTerm, true;
      if role != Leader {
        isLeader := false;
        return;
      }
      log := log + [Entry(currentTerm, command)];
      index := |log| - 1;
      matchIndex := matchIndex[me := index];
      nextIndex := nextIndex[me := index + 1];
    }

    method BecomeCandidate() returns (calls: seq<VoteCall>)
      requires Valid()
      modifies this
      ensures Valid() && View() == RaftServer.BecomeCandidate(old(View()), me)
      ensures calls == VoteCalls(me, n, VoteRequest(View(), me))
      ensures role == Candidate && currentTerm == old(currentTerm) + 1 && votedFor == me && votes == 1
      ensures unchanged(`log, `commitIndex, `applied)
      ensures AsksAll(calls, View(), me, n)
    {
      hide AsksAll;
      role := Candidate;
      currentTerm := currentTerm + 1;
      votedFor := me;
      votes := 1;
      var args := VoteArgs(currentTerm, me, |log| - 1, log[|log| - 1].term);
      calls := [];
      for peer := 0 to n
        invariant |calls| == (if peer <= me then peer else peer - 1)
        invariant forall j :: 0 <= j < |calls| ==>
                  calls[j] == VoteCall(me, Peer(me, j), args, false, false, VoteReply(0, false))
      {
        if peer != me {
          calls := calls + [VoteCall(me, peer, args, false, false, VoteReply(0, false))];
        }
      }
      CandidacyAsks(View(), me, n);
    }

    method RequestVote(args: VoteArgs) returns (reply: VoteReply)
      requires Valid()
      modifies this
      ensures Valid() && (View(), reply) == OnRequestVote(old(View()), args)
      ensures currentTerm == Larger(old(currentTerm), args.term)
      ensures role == if args.term > old(currentTerm) then Follower else old(role)
      ensures votedFor == if reply.granted then args.candidateId
                          else if args.term > old(currentTerm) then -1 else old(votedFor)
    {
      reply := VoteReply(0, false);
      if args.term < currentTerm {
        reply := VoteReply(currentTerm, false);
        return;
      }
      if args.term > currentTerm {
        role := Follower;
        currentTerm := args.term;
        votedFor := -1;
      }
      var lastIndex := |log| - 1;
      var lastTerm := log[lastIndex].term;
      var candidateUpToDate := false;
      if args.lastLogTerm == lastTerm {
        if args.lastLogIndex >= lastIndex {
          candidateUpToDate := true;
        }
      } else {
        if args.lastLogTerm > lastTerm {
          candidateUpToDate := true;
        }
      }
      if (votedFor == -1 || votedFor == args.candidateId) && candidateUpToDate {
        votedFor := args.candidateId;
        reply := VoteReply(0, true);
      }
    }

    /** The reply half of sendRequestVote; on winning it sends the all-zero request to every peer. */
    method ReceiveVote(reply: VoteReply) returns (calls: seq<AppendCall>)
      requires Valid()
      modifies this
      ensures Valid() && View() == OnVoteReply(old(View()), n, reply)
      ensures calls == if old(role) == Candidate && role == Leader then ZeroCalls(me, n) else []
      ensures reply.term > old(currentTerm) ==> role == Follower && currentTerm == reply.term && votedFor == -1
      ensures reply.term <= old(currentTerm) && old(role) == Candidate ==>
                (role == Leader <==> reply.granted && old(votes) + 1 > n / 2)
      ensures if old(role) == Candidate && role == Leader then ZerosToAll(calls, me, n) else calls == []
    {
      hide ZerosToAll;
      WinnerSendsZeros(me, n);
      calls := [];
      if reply.term > currentTerm {
        currentTerm := reply.term;
        role := Follower;
        votedFor := -1;
        return;
      }
      if reply.granted {
        votes := votes + 1;
        if votes > n / 2 {
          if role == Candidate {
            role := Leader;
            var next, matched := seq(n, _ => 0), seq(n, _ => 0);
            for i := 0 to n
              invariant |next| == n && |matched| == n
              invariant forall p :: 0 <= p < i ==> next[p] == |log|
              invariant forall p :: 0 <= p < n ==> matched[p] == 0
            {
              next := next[i := |log|];
              matched := matched[i := 0];
            }
            nextIndex, matchIndex := next, matched;
            for peer := 0 to n
              invariant |calls| == (if peer <= me then peer else peer - 1)
              invariant forall j :: 0 <= j < |calls| ==>
                        calls[j] == AppendCall(me, Peer(me, j), ZERO_APPEND, false, false, AppendReply(0, false))
            {
              if peer != me {
                calls := calls + [AppendCall(me, peer, ZERO_APPEND, false, false, AppendReply(0, false))];
              }
            }
          }
        }
      }
    }

    /** Both apply loops: send every entry after lastApplied up to commitIndex, in order. */
    method SendCommitted()
      requires commitIndex < |log|
      modifies this`applied, this`lastApplied
      ensures View() == ApplyCommitted(old(View()))
      ensures old(Valid()) ==> Valid()
    {
      hide WfServer, Deliveries;
      ghost var v := View();
      if Valid() {
        DeliveriesGapFree(v, n);
      }
      var startIndex := lastApplied + 1;
      while startIndex <= commitIndex
        invariant v.lastApplied + 1 <= startIndex && (startIndex <= commitIndex + 1 || lastApplied == v.lastApplied)
        invariant lastApplied == startIndex - 1
        invariant applied == v.applied + if lastApplied == v.lastApplied then []
                  else Deliveries(log, v.lastApplied, lastApplied)
      {
        DeliverOneMore(log, v.lastApplied, lastApplied);
        applied := applied + [ApplyMsg(startIndex, log[startIndex].command)];
        lastApplied := startIndex;
        startIndex := startIndex + 1;
      }
      if commitIndex <= v.lastApplied {
        NothingToDeliver(log, v.lastApplied, commitIndex);
      }
    }

    /** Any request is handled as the function says; one that a leader may have sent keeps the peer well formed. */
    method AppendEntries(args: AppendArgs) returns (reply: AppendReply)
      requires Valid()
      modifies this
      ensures (View(), reply) == OnAppendEntries(old(View()), args)
      ensures WfAppend(args) ==> Valid()
      ensures reply.term == currentTerm == Larger(old(currentTerm), args.term)
      ensures reply.success ==> log == old(log)[..args.prevLogIndex + 1] + args.entries
      ensures votedFor == if args.term > old(currentTerm) then -1 else old(votedFor)
    {
      hide WfServer, WfAppend, WfLog, ApplyCommitted;
      ghost var v := View();
      AppendSettles(v, n, args);
      if WfAppend(args) {
        AppendEntriesKeepsWf(v, n, args);
      }
      WellFormedLog(v, n);
      LogStartsNonEmpty(log);
      if args.term < currentTerm {
        reply := AppendReply(currentTerm, false);
        return;
      }
      if args.term > currentTerm {
        currentTerm := args.term;
        role := Follower;
        votedFor := -1;
      }
      assert View() == Raise(v, args.term);
      reply := AppendReply(currentTerm, false);
      if args.prevLogIndex >= |log| {
        return;
      }
      if args.prevLogTerm != log[args.prevLogIndex].term {
        log := log[..args.prevLogIndex];
        return;
      }
      log := log[..args.prevLogIndex + 1];
      log := log + args.entries;
      assert View() == Raise(v, args.term).(log := AppendedLog(v, args));
      reply := AppendReply(currentTerm, true);
      if args.leaderCommit > commitIndex {
        if args.leaderCommit > |log| - 1 {
          commitIndex := |log| - 1;
        } else {
          commitIndex := args.leaderCommit;
        }
        SendCommitted();
      }
    }

    /** The inner loop of the commit scan. */
    method Count(N: nat) returns (count: nat)
      ensures count == |Reached(matchIndex, N)| == CountReached(matchIndex, N)
    {
      count := 0;
      for p := 0 to |matchIndex|
        invariant count == CountReached(matchIndex[..p], N)
      {
        assert matchIndex[..p + 1][..p] == matchIndex[..p];
        if matchIndex[p] >= N {
          count := count + 1;
        }
      }
      assert matchIndex[..|matchIndex|] == matchIndex;
      CountIsCardinality(matchIndex, N);
    }

    /** The downward scan: commits the largest committable index, if there is one, and applies up to it. */
    method ScanForCommit()
      requires Valid() && role == Leader
      modifies this`commitIndex, this`applied, this`lastApplied
      ensures Valid() && View() == Commit(old(View()), n)
      ensures commitIndex >= old(commitIndex)
      ensures commitIndex != old(commitIndex) ==> IsCommitPoint(old(View()), n, commitIndex)
      ensures commitIndex == old(commitIndex) ==>
                forall N: nat :: commitIndex < N < |log| ==> !Committable(old(View()), n, N)
    {
      hide WfServer, CommitScan, ApplyCommitted, CountReached, Reached;
      ghost var v := View();
      CommitScanSpec(v, n);
      var N := |log| - 1;
      while N >= commitIndex
        invariant -1 <= N < |log| && (commitIndex <= N + 1 || N == |log| - 1)
        invariant CommitScan(v, n, |log|) == CommitScan(v, n, N + 1)
        invariant View() == v
      {
        ScanUnfolds(v, n, N + 1);
        var count := 0;
        if log[N].term == currentTerm {
          count := Count(N);
        }
        if count > n / 2 && role == Leader {
          assert Committable(v, n, N) && CommitScan(v, n, N + 1) == N;
          CommittedIsWf(v, n, N);
          commitIndex := N;
          assert View() == v.(commitIndex := N);
          SendCommitted();
          return;
        }
        N := N - 1;
      }
      ScanUnfolds(v, n, N + 1);
    }

    /** The reply half of sendAppendEntries. */
    method ReceiveAppend(peer: nat, args: AppendArgs, reply: AppendReply)
      requires Valid() && peer < n
      modifies this
      ensures Valid() && View() == OnAppendReply(old(View()), n, peer, args, reply)
      ensures old(role) != Leader ==> unchanged(this)
      ensures old(role) == Leader && reply.success && reply.term <= old(currentTerm) ==>
                && Learns(old(View()), peer, args, View())
                && ScanSettles(old(View()).(nextIndex := nextIndex, matchIndex := matchIndex), n, View())
    {
      hide WfServer, Commit, CommitScan, IsCommitPoint, Committable, Learns, ScanSettles;
      ghost var v := View();
      if role == Leader {
        LeaderShape(v, n);
        AppendReplySettles(v, n, peer, args, reply);
      }
      RaisedIsWf(v, n, reply.term);
      if role != Leader {
        return;
      }
      if reply.term > currentTerm {
        currentTerm := reply.term;
        role := Follower;
        votedFor := -1;
        assert View() == Raise(v, reply.term);
        return;
      }
      if !reply.success && nextIndex[peer] > 1 {
        BackOffIsWf(v, n, peer);
        nextIndex := nextIndex[peer := nextIndex[peer] / 2];
        assert View() == v.(nextIndex := v.nextIndex[peer := v.nextIndex[peer] / 2]);
        return;
      }
      AcknowledgedIsWf(v, n, peer, args, reply);
      if reply.success {
        matchIndex := matchIndex[peer := |args.entries| + args.prevLogIndex];
        nextIndex := nextIndex[peer := matchIndex[peer] + 1];
      }
      assert View() == Acknowledged(v, peer, args, reply);
      ScanForCommit();
    }

    method SendHeartBeats() returns (calls: seq<AppendCall>)
      requires Valid()
      ensures calls == if role == Leader then HeartbeatCalls(View(), me, n) else []
      ensures role == Leader ==> OffersToAll(calls, View(), me, n)
    {
      hide OffersToAll;
      calls := [];
      if role != Leader {
        return;
      }
      for peer := 0 to n
        invariant |calls| == (if peer <= me then peer else peer - 1)
        invariant forall j :: 0 <= j < |calls| ==> calls[j] == HeartbeatCalls(View(), me, n)[j]
      {
        if peer != me {
          var args := AppendArgs(currentTerm, me, nextIndex[peer] - 1, 0, [], commitIndex);
          if nextIndex[peer] < |log| {
            args := args.(prevLogTerm := log[nextIndex[peer] - 1].term, entries := log[nextIndex[peer]..]);
          } else {
            args := args.(prevLogTerm := log[|log| - 1].term);
          }
          calls := calls + [AppendCall(me, peer, args, false, false, AppendReply(0, false))];
        }
      }
      HeartbeatsOffer(View(), me, n);
    }
  }
}
