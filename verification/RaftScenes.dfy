/**
 Pieces of runs from which witness runs are put together: candidacies, votes, commands, requests and
 acknowledgements, each as the code takes them.
 */
module RaftScenes {
  import opened Wrappers
  import opened RaftServer
  import opened RaftCluster

  ghost predicate Goes(premise: Premise, n: nat, steps: seq<Step>, s: Cluster) {
    Run(premise, n, steps) == Some(s)
  }

  lemma GoesWell(premise: Premise, n: nat, steps: seq<Step>, s: Cluster)
    requires Goes(premise, n, steps, s)
    ensures WfCluster(s) && |s.servers| == n
  {
    hide WfCluster;
  }

  lemma PeerShape(s: Cluster, i: nat)
    requires WfCluster(s) && i < |s.servers|
    ensures s.servers[i].log != []
    ensures s.servers[i].role == Leader ==>
              && |s.servers[i].nextIndex| == |s.servers| && |s.servers[i].matchIndex| == |s.servers|
              && forall p :: 0 <= p < |s.servers| ==> s.servers[i].nextIndex[p] >= 1
  {
  }

  lemma OneStep(premise: Premise, n: nat, steps: seq<Step>, s: Cluster, step: Step)
    returns (steps': seq<Step>, s': Cluster)
    requires Goes(premise, n, steps, s) && WfCluster(s) && Enabled(s, step) && Admits(premise, s, step)
    ensures steps <= steps'
    ensures s' == Next(s, step) && Goes(premise, n, steps', s')
  {
    hide WfCluster, Enabled, Next, Admits;
    steps', s' := steps + [step], Next(s, step);
    assert steps'[..|steps|] == steps;
  }

  /** Later states have the append calls of earlier ones, as they were. */
  ghost predicate CallsKept(s: Cluster, s': Cluster) {
    |s.appendCalls| <= |s'.appendCalls| && forall q :: 0 <= q < |s.appendCalls| ==>
        s'.appendCalls[q] == s.appendCalls[q]
  }

  /** Vote calls that were handled stay as they were. */
  ghost predicate VotesKept(s: Cluster, s': Cluster) {
    && |s.voteCalls| <= |s'.voteCalls|
    && forall q :: 0 <= q < |s.voteCalls| && s.voteCalls[q].handled ==> s'.voteCalls[q] == s.voteCalls[q]
  }

  // ---------------------------------------------------------------- elections

  /** A request of peer i's present candidacy to peer j is on its way. */
  ghost predicate Asks(s: Cluster, i: nat, j: nat) {
    && i < |s.servers| && s.servers[i].log != []
    && VoteCall(i, j, VoteRequest(s.servers[i], i), false, false, VoteReply(0, false)) in s.voteCalls
  }

  lemma AskedAll(i: nat, n: nat, args: VoteArgs, j: nat)
    requires i < n && j < n && i != j
    ensures VoteCall(i, j, args, false, false, VoteReply(0, false)) in VoteCalls(i, n, args)
  {
    var k := if j < i then j else j - 1;
    assert VoteCalls(i, n, args)[k] == VoteCall(i, j, args, false, false, VoteReply(0, false));
  }

  lemma TimesOut(premise: Premise, n: nat, steps: seq<Step>, s: Cluster, i: nat)
    returns (steps': seq<Step>, s': Cluster)
    requires Goes(premise, n, steps, s) && i < n
    ensures steps <= steps'
    ensures Goes(premise, n, steps', s') && |s.servers| == n
    ensures s'.servers == s.servers[i := BecomeCandidate(s.servers[i], i)] && s'.appendCalls == s.appendCalls
            && VotesKept(s, s')
    ensures forall j: nat :: j < n && j != i ==> Asks(s', i, j)
  {
    hide Goes, WfServer, WfVoteCall, WfAppendCall, VoteCalls;
    GoesWell(premise, n, steps, s);
    PeerShape(s, i);
    steps', s' := OneStep(premise, n, steps, s, Timeout(i));
    forall j: nat | j < n && j != i
      ensures Asks(s', i, j)
    {
      AskedAll(i, n, VoteRequest(s'.servers[i], i), j);
    }
  }

  lemma HandlesVote(premise: Premise, n: nat, steps: seq<Step>, s: Cluster, q: nat)
    returns (steps': seq<Step>, s': Cluster)
    requires Goes(premise, n, steps, s) && WfCluster(s) && q < |s.voteCalls| && !s.voteCalls[q].handled
    ensures steps <= steps'
    ensures Goes(premise, n, steps', s') && s' == DoHandleVote(s, q)
  {
    hide Goes, WfServer, WfVoteCall, WfAppendCall;
    steps', s' := OneStep(premise, n, steps, s, HandleVote(q));
  }

  lemma CountsVote(premise: Premise, n: nat, steps: seq<Step>, s: Cluster, q: nat)
    returns (steps': seq<Step>, s': Cluster)
    requires Goes(premise, n, steps, s) && WfCluster(s) && q < |s.voteCalls| && s.voteCalls[q].handled
             && !s.voteCalls[q].consumed
    requires premise.votesInTerm ==> VoteInTerm(s, ConsumeVote(q))
    ensures steps <= steps'
    ensures Goes(premise, n, steps', s') && s' == DoConsumeVote(s, q)
  {
    hide Goes, WfServer, WfVoteCall, WfAppendCall, DoConsumeVote;
    steps', s' := OneStep(premise, n, steps, s, ConsumeVote(q));
  }

  /** Counting a vote does not change what the candidate asks with. */
  lemma KeepsRequest(v: Server, n: nat, i: nat)
    requires v.log != []
    ensures var v' := OnVoteReply(v, n, VoteReply(0, true)); v'.log == v.log && VoteRequest(v', i) == VoteRequest(v, i)
  {
  }

  /** Peer j grants the request of peer i, and i counts it at once. */
  lemma GetsVote(premise: Premise, n: nat, steps: seq<Step>, s: Cluster, i: nat, j: nat)
    returns (steps': seq<Step>, s': Cluster)
    requires Goes(premise, n, steps, s) && i < n && j < n && i != j && Asks(s, i, j) && j < |s.servers|
             && s.servers[j].log != []
    requires OnRequestVote(s.servers[j], VoteRequest(s.servers[i], i)).1 == VoteReply(0, true)
    ensures steps <= steps'
    ensures Goes(premise, n, steps', s') && CallsKept(s, s') && VotesKept(s, s')
    ensures s'.servers == s.servers[j := OnRequestVote(s.servers[j], VoteRequest(s.servers[i], i)).0]
                                   [i := OnVoteReply(s.servers[i], n, VoteReply(0, true))]
    ensures forall k: nat :: k != j && Asks(s, i, k) ==> Asks(s', i, k)
  {
    hide Goes, WfServer, WfAppendCall, OnRequestVote, OnVoteReply, ZeroCalls;
    GoesWell(premise, n, steps, s);
    var request := VoteCall(i, j, VoteRequest(s.servers[i], i), false, false, VoteReply(0, false));
    var q :| 0 <= q < |s.voteCalls| && s.voteCalls[q] == request;
    var s1;
    steps', s1 := HandlesVote(premise, n, steps, s, q);
    GoesWell(premise, n, steps', s1);
    steps', s' := CountsVote(premise, n, steps', s1, q);
    KeepsRequest(s.servers[i], n, i);
    forall k: nat | k != j && Asks(s, i, k)
      ensures Asks(s', i, k)
    {
      var other := VoteCall(i, k, VoteRequest(s.servers[i], i), false, false, VoteReply(0, false));
      var p :| 0 <= p < |s.voteCalls| && s.voteCalls[p] == other;
      assert s'.voteCalls[p] == other;
    }
  }

  /** A peer that has voted for i in a new term. */
  function Voter(v: Server, term: nat, i: nat): Server {
    v.(role := Follower, currentTerm := term, votedFor := i)
  }

  /** A peer that has just won a term with so many votes. */
  function Winner(v: Server, term: nat, i: nat, votes: nat, n: nat): Server {
    Won(v.(currentTerm := term, votedFor := i, votes := votes), n)
  }

  /** Peer j would vote for peer i if i ran now. */
  ghost predicate WouldVote(s: Cluster, i: nat, j: nat) {
    && i < |s.servers| && j < |s.servers| && i != j && s.servers[i].log != [] && s.servers[j].log != []
    && s.servers[j].currentTerm <= s.servers[i].currentTerm
    && UpToDate(|s.servers[i].log| - 1, LastTerm(s.servers[i].log), s.servers[j].log)
  }

  lemma VotesFor(v: Server, args: VoteArgs)
    requires v.log != [] && args.term > v.currentTerm && UpToDate(args.lastLogIndex, args.lastLogTerm, v.log)
    ensures OnRequestVote(v, args) == (Voter(v, args.term, args.candidateId), VoteReply(0, true))
  {
  }

  lemma CountsOne(v: Server, n: nat)
    requires v.role == Candidate
    ensures OnVoteReply(v, n, VoteReply(0, true))
         == if v.votes + 1 > n / 2 then Won(v.(votes := v.votes + 1), n) else v.(votes := v.votes + 1)
  {
  }

  /** With three peers, one vote besides its own wins peer i its next term. */
  lemma WinsWithOne(premise: Premise, steps: seq<Step>, s: Cluster, i: nat, j: nat)
    returns (steps': seq<Step>, s': Cluster)
    requires Goes(premise, 3, steps, s) && |s.servers| == 3 && WouldVote(s, i, j)
    ensures steps <= steps'
    ensures Goes(premise, 3, steps', s') && CallsKept(s, s') && VotesKept(s, s')
    ensures var term := s.servers[i].currentTerm + 1;
            s'.servers == s.servers[j := Voter(s.servers[j], term, i)][i := Winner(s.servers[i], term, i, 2, 3)]
  {
    hide Goes, OnRequestVote, OnVoteReply;
    var s1;
    steps', s1 := TimesOut(premise, 3, steps, s, i);
    VotesFor(s.servers[j], VoteRequest(s1.servers[i], i));
    CountsOne(s1.servers[i], 3);
    steps', s' := GetsVote(premise, 3, steps', s1, i, j);
  }

  /** With five peers, two votes besides its own do. */
  lemma WinsWithTwo(premise: Premise, steps: seq<Step>, s: Cluster, i: nat, j: nat, k: nat)
    returns (steps': seq<Step>, s': Cluster)
    requires Goes(premise, 5, steps, s) && |s.servers| == 5 && WouldVote(s, i, j) && WouldVote(s, i, k) && j != k
    ensures steps <= steps'
    ensures Goes(premise, 5, steps', s') && CallsKept(s, s') && VotesKept(s, s')
    ensures var term := s.servers[i].currentTerm + 1;
            s'.servers == s.servers[j := Voter(s.servers[j], term, i)][k := Voter(s.servers[k], term, i)]
                                   [i := Winner(s.servers[i], term, i, 3, 5)]
  {
    hide Goes, OnRequestVote, OnVoteReply;
    var s1, s2;
    steps', s1 := TimesOut(premise, 5, steps, s, i);
    VotesFor(s.servers[j], VoteRequest(s1.servers[i], i));
    CountsOne(s1.servers[i], 5);
    steps', s2 := GetsVote(premise, 5, steps', s1, i, j);
    VotesFor(s.servers[k], VoteRequest(s2.servers[i], i));
    CountsOne(s2.servers[i], 5);
    steps', s' := GetsVote(premise, 5, steps', s2, i, k);
  }

  // ---------------------------------------------------------------- replication

  lemma Starts(premise: Premise, n: nat, steps: seq<Step>, s: Cluster, i: nat, command: Command)
    returns (steps': seq<Step>, s': Cluster)
    requires Goes(premise, n, steps, s) && i < n && i < |s.servers|
    requires s.servers[i].role == Leader ==> i < |s.servers[i].nextIndex| && i < |s.servers[i].matchIndex|
    ensures steps <= steps'
    ensures Goes(premise, n, steps', s') && s'.appendCalls == s.appendCalls
    ensures s'.servers == s.servers[i := OnStart(s.servers[i], i, command)]
  {
    hide Goes, WfServer, WfVoteCall, WfAppendCall;
    GoesWell(premise, n, steps, s);
    steps', s' := OneStep(premise, n, steps, s, ClientStart(i, command));
  }

  /** Where the request to peer j will be among the calls once peer i has sent its heartbeats. */
  function Slot(s: Cluster, i: nat, j: nat): nat
    requires i != j
  {
    |s.appendCalls| + if j < i then j else j - 1
  }

  ghost predicate LeadsWell(s: Cluster, i: nat) {
    && i < |s.servers| && s.servers[i].role == Leader && s.servers[i].log != []
    && |s.servers[i].nextIndex| == |s.servers| && |s.servers[i].matchIndex| == |s.servers|
    && forall p :: 0 <= p < |s.servers| ==> s.servers[i].nextIndex[p] >= 1
  }

  function RequestTo(v: Server, i: nat, j: nat): AppendArgs
    requires v.log != [] && j < |v.nextIndex| && v.nextIndex[j] >= 1
  {
    Heartbeat(v, i, v.nextIndex[j])
  }

  lemma Sends(premise: Premise, n: nat, steps: seq<Step>, s: Cluster, i: nat)
    returns (steps': seq<Step>, s': Cluster)
    requires Goes(premise, n, steps, s) && |s.servers| == n && LeadsWell(s, i)
    ensures steps <= steps'
    ensures Goes(premise, n, steps', s') && CallsKept(s, s') && s'.servers == s.servers
    ensures forall j: nat :: j < n && j != i ==>
              && Slot(s, i, j) < |s'.appendCalls|
              && s'.appendCalls[Slot(s, i, j)]
                  == AppendCall(i, j, RequestTo(s.servers[i], i, j), false, false, AppendReply(0, false))
    ensures forall q :: |s.appendCalls| <= q < |s'.appendCalls| ==> !s'.appendCalls[q].handled
  {
    hide Goes, WfServer, WfVoteCall, WfAppendCall, Heartbeat;
    GoesWell(premise, n, steps, s);
    steps', s' := OneStep(premise, n, steps, s, SendHeartbeats(i));
    forall j: nat | j < n && j != i
      ensures s'.appendCalls[Slot(s, i, j)]
              == AppendCall(i, j, RequestTo(s.servers[i], i, j), false, false, AppendReply(0, false))
    {
      var k := if j < i then j else j - 1;
      assert HeartbeatCalls(s.servers[i], i, n)[k]
             == AppendCall(i, j, RequestTo(s.servers[i], i, j), false, false, AppendReply(0, false));
    }
  }

  /** No request of the same leader term to the same peer that was sent later has been handled. */
  ghost predicate NoneOvertook(s: Cluster, q: nat)
    requires q < |s.appendCalls|
  {
    forall p | 0 <= p < |s.appendCalls| && SameStream(s.appendCalls[p], s.appendCalls[q])
        && s.appendCalls[p].handled :: p < q
  }

  lemma Handles(premise: Premise, n: nat, steps: seq<Step>, s: Cluster, q: nat)
    returns (steps': seq<Step>, s': Cluster)
    requires Goes(premise, n, steps, s) && q < |s.appendCalls| && !s.appendCalls[q].handled
    requires s.appendCalls[q].to < |s.servers| && s.servers[s.appendCalls[q].to].log != []
    requires premise.inOrder ==> NoneOvertook(s, q)
    ensures steps <= steps'
    ensures var c := s.appendCalls[q];
            var r := OnAppendEntries(s.servers[c.to], c.args);
            && Goes(premise, n, steps', s') && s'.servers == s.servers[c.to := r.0]
            && s'.appendCalls == s.appendCalls[q := c.(handled := true, reply := r.1)]
  {
    hide Goes, WfServer, WfVoteCall, WfAppendCall, OnAppendEntries;
    GoesWell(premise, n, steps, s);
    steps', s' := OneStep(premise, n, steps, s, HandleAppend(q));
  }

  lemma Acknowledges(premise: Premise, n: nat, steps: seq<Step>, s: Cluster, q: nat)
    returns (steps': seq<Step>, s': Cluster)
    requires Goes(premise, n, steps, s) && q < |s.appendCalls| && s.appendCalls[q].handled && !s.appendCalls[q].consumed
    requires var c := s.appendCalls[q];
             && c.from < |s.servers| && c.to < |s.servers| && LeadsWell(s, c.from)
             && (premise.acksInTerm ==> c.args.term == s.servers[c.from].currentTerm)
    ensures steps <= steps'
    ensures var c := s.appendCalls[q];
            && Goes(premise, n, steps', s') && |s.servers| == n
            && s'.servers == s.servers[c.from := OnAppendReply(s.servers[c.from], n, c.to, c.args, c.reply)]
            && s'.appendCalls == s.appendCalls[q := c.(consumed := true)]
  {
    hide Goes, WfServer, WfVoteCall, WfAppendCall, OnAppendReply;
    GoesWell(premise, n, steps, s);
    steps', s' := OneStep(premise, n, steps, s, ConsumeAppend(q));
  }

  lemma SentInTerm(v: Server, i: nat, j: nat)
    requires v.log != [] && j < |v.nextIndex| && v.nextIndex[j] >= 1
    ensures RequestTo(v, i, j).term == v.currentTerm
  {
  }

  /** Leader i sends, peer j handles its request at once, and i consumes the reply at once. */
  lemma Replicates(premise: Premise, n: nat, steps: seq<Step>, s: Cluster, i: nat, j: nat)
    returns (steps': seq<Step>, s': Cluster)
    requires Goes(premise, n, steps, s) && |s.servers| == n && LeadsWell(s, i) && j < n && j != i
             && s.servers[j].log != []
    ensures steps <= steps'
    ensures Goes(premise, n, steps', s') && CallsKept(s, s')
    ensures var args := RequestTo(s.servers[i], i, j);
            var r := OnAppendEntries(s.servers[j], args);
            s'.servers == s.servers[j := r.0][i := OnAppendReply(s.servers[i], n, j, args, r.1)]
  {
    hide Goes, OnAppendEntries, OnAppendReply;
    var s1, s2;
    steps', s1 := Sends(premise, n, steps, s, i);
    var q := Slot(s, i, j);
    SentInTerm(s.servers[i], i, j);
    steps', s2 := Handles(premise, n, steps', s1, q);
    steps', s' := Acknowledges(premise, n, steps', s2, q);
  }
}
