/**
 Voting and Election Safety (extended Raft paper, section 5.2).
 */
module RaftElection {
  import opened RaftServer
  import opened RaftCluster

  // ---------------------------------------------------------------- one vote per term, whatever the network does

  ghost predicate Remembered(ballots: map<(nat, nat), Ballot>, v: nat, server: Server) {
    server.votedFor != -1 ==>
      (server.currentTerm, v) in ballots && ballots[(server.currentTerm, v)].candidate == server.votedFor
  }

  ghost predicate Reported(ballots: map<(nat, nat), Ballot>, c: VoteCall) {
    c.handled && c.reply.granted ==>
      (c.args.term, c.to) in ballots && ballots[(c.args.term, c.to)].candidate == c.from
  }

  /** Ballots are exactly the votes peers remember and report. */
  ghost predicate Voting(s: Cluster) {
    && (forall t, v :: (t, v) in s.ballots ==>
          && v < |s.servers|
          && t <= s.servers[v].currentTerm
          && (t == s.servers[v].currentTerm ==> s.servers[v].votedFor == s.ballots[(t, v)].candidate))
    && (forall v :: 0 <= v < |s.servers| ==> Remembered(s.ballots, v, s.servers[v]))
    && (forall q :: 0 <= q < |s.voteCalls| ==> Reported(s.ballots, s.voteCalls[q]))
  }

  /** Ballots, once cast, stay as they are. */
  ghost predicate BallotsKept(s: Cluster, s': Cluster) {
    forall t, v :: (t, v) in s.ballots ==> (t, v) in s'.ballots && s'.ballots[(t, v)] == s.ballots[(t, v)]
  }

  /** Between two states a peer keeps its vote, or moves to a higher term without one. */
  ghost predicate KeepsVote(a: Server, b: Server) {
    (b.currentTerm == a.currentTerm && b.votedFor == a.votedFor) || (b.currentTerm > a.currentTerm && b.votedFor == -1)
  }

  /** A step in which nobody votes. */
  ghost predicate NoVote(s: Cluster, s': Cluster) {
    && |s'.servers| == |s.servers|
    && (forall v :: 0 <= v < |s.servers| ==> KeepsVote(s.servers[v], s'.servers[v]))
    && s'.ballots == s.ballots
    && |s'.voteCalls| == |s.voteCalls|
    && (forall q :: 0 <= q < |s.voteCalls| ==> s'.voteCalls[q].(consumed := s.voteCalls[q].consumed) == s.voteCalls[q])
  }

  lemma NoVoteKeepsVoting(s: Cluster, s': Cluster)
    requires Voting(s) && NoVote(s, s')
    ensures Voting(s') && BallotsKept(s, s')
  {
    forall v | 0 <= v < |s'.servers|
      ensures Remembered(s'.ballots, v, s'.servers[v])
    {
      assert KeepsVote(s.servers[v], s'.servers[v]);
    }
    forall q | 0 <= q < |s'.voteCalls|
      ensures Reported(s'.ballots, s'.voteCalls[q])
    {
      assert Reported(s.ballots, s.voteCalls[q]);
    }
  }

  lemma ConsumeVoteCastsNone(s: Cluster, q: nat)
    requires WfCluster(s) && Enabled(s, ConsumeVote(q))
    ensures NoVote(s, DoConsumeVote(s, q))
  {
    hide WfServer, WfAppendCall;
  }

  ghost predicate SameCall(c: VoteCall, d: VoteCall) {
    c.from == d.from && c.to == d.to && c.args.term == d.args.term
  }

  /** A term, once won, keeps its winner and its voters. */
  ghost predicate ReignsKept(s: Cluster, s': Cluster) {
    forall t :: t in s.reigns ==>
      t in s'.reigns && s'.reigns[t].leader == s.reigns[t].leader && s'.reigns[t].voters == s.reigns[t].voters
  }

  /** Between two states a peer keeps its role and votes, or follows in a higher term. */
  ghost predicate KeepsRole(a: Server, b: Server) {
    || (b.currentTerm == a.currentTerm && b.role == a.role && b.votes == a.votes)
    || (b.currentTerm > a.currentTerm && b.role == Follower)
  }

  /** A step in which nobody starts an election or counts a vote. */
  ghost predicate NoCount(s: Cluster, s': Cluster) {
    && |s'.servers| == |s.servers|
    && s'.granters == s.granters
    && (forall v :: 0 <= v < |s.servers| ==> KeepsRole(s.servers[v], s'.servers[v]))
    && |s'.voteCalls| == |s.voteCalls|
    && (forall q :: 0 <= q < |s.voteCalls| ==>
          SameCall(s'.voteCalls[q], s.voteCalls[q]) && s'.voteCalls[q].consumed == s.voteCalls[q].consumed)
    && BallotsKept(s, s')
    && ReignsKept(s, s')
    && s'.reigns.Keys == s.reigns.Keys
  }

  lemma StartIsCalm(s: Cluster, i: nat, command: Command)
    requires WfCluster(s) && i < |s.servers|
    ensures NoVote(s, DoStart(s, i, command)) && NoCount(s, DoStart(s, i, command))
  {
    hide WfLog, WfAppendCall, WfVoteCall;
  }

  lemma HeartbeatsAreCalm(s: Cluster, i: nat)
    requires WfCluster(s) && i < |s.servers|
    ensures NoVote(s, DoHeartbeats(s, i)) && NoCount(s, DoHeartbeats(s, i))
  {
  }

  lemma HandleAppendIsCalm(s: Cluster, q: nat)
    requires WfCluster(s) && Enabled(s, HandleAppend(q))
    ensures NoVote(s, DoHandleAppend(s, q)) && NoCount(s, DoHandleAppend(s, q))
  {
    hide WfLog, WfVoteCall;
  }

  lemma ConsumeAppendIsCalm(s: Cluster, q: nat)
    requires WfCluster(s) && Enabled(s, ConsumeAppend(q))
    ensures NoVote(s, DoConsumeAppend(s, q)) && NoCount(s, DoConsumeAppend(s, q))
  {
    hide WfLog, WfVoteCall;
  }

  lemma VotingTimeout(s: Cluster, i: nat)
    requires WfCluster(s) && Voting(s) && i < |s.servers|
    ensures Voting(DoTimeout(s, i)) && BallotsKept(s, DoTimeout(s, i))
  {
  }

  /** What handling a request does to the voter's vote. */
  lemma VoteOfVoter(v: Server, args: VoteArgs)
    requires v.log != []
    ensures var (v', reply) := OnRequestVote(v, args);
            && (reply.granted ==> v'.currentTerm == args.term && v'.votedFor == args.candidateId)
            && (!reply.granted ==> KeepsVote(v, v'))
            && (reply.granted && args.term == v.currentTerm ==> v.votedFor == -1 || v.votedFor == args.candidateId)
            && v.currentTerm <= v'.currentTerm
  {
  }

  lemma VotingHandleVote(s: Cluster, q: nat)
    requires WfCluster(s) && Voting(s) && Enabled(s, HandleVote(q))
    ensures Voting(DoHandleVote(s, q)) && BallotsKept(s, DoHandleVote(s, q))
  {
    hide WfServer, WfAppendCall, OnRequestVote;
    var s', c := DoHandleVote(s, q), s.voteCalls[q];
    WellFormedLog(s.servers[c.to], |s.servers|);
    LogStartsNonEmpty(s.servers[c.to].log);
    VoteOfVoter(s.servers[c.to], c.args);
    forall v | 0 <= v < |s'.servers|
      ensures Remembered(s'.ballots, v, s'.servers[v])
    {
      assert Remembered(s.ballots, v, s.servers[v]);
    }
    forall p | 0 <= p < |s'.voteCalls|
      ensures Reported(s'.ballots, s'.voteCalls[p])
    {
      assert Reported(s.ballots, s.voteCalls[p]);
    }
  }

  lemma VotingStep(s: Cluster, step: Step)
    requires WfCluster(s) && Enabled(s, step) && Voting(s)
    ensures Voting(Next(s, step)) && BallotsKept(s, Next(s, step))
  {
    var s' := Next(s, step);
    match step
    case Timeout(i) => VotingTimeout(s, i);
    case HandleVote(q) => VotingHandleVote(s, q);
    case ConsumeVote(q) => ConsumeVoteCastsNone(s, q); NoVoteKeepsVoting(s, s');
    case ClientStart(i, command) => StartIsCalm(s, i, command); NoVoteKeepsVoting(s, s');
    case SendHeartbeats(i) => HeartbeatsAreCalm(s, i); NoVoteKeepsVoting(s, s');
    case HandleAppend(q) => HandleAppendIsCalm(s, q); NoVoteKeepsVoting(s, s');
    case ConsumeAppend(q) => ConsumeAppendIsCalm(s, q); NoVoteKeepsVoting(s, s');
  }

  lemma {:induction false} VotingHolds(premise: Premise, n: nat, steps: seq<Step>)
    requires Run(premise, n, steps).Some?
    ensures Voting(Run(premise, n, steps).value)
  {
    if steps != [] {
      VotingHolds(premise, n, steps[..|steps| - 1]);
      VotingStep(Run(premise, n, steps[..|steps| - 1]).value, steps[|steps| - 1]);
    }
  }

  /** Terms never go back and a peer's vote of a term, once cast, stays; over any two moments of any run. */
  lemma {:induction false} HistoryKept(premise: Premise, n: nat, steps: seq<Step>, i: nat)
    requires i <= |steps| && Run(premise, n, steps).Some?
    ensures Run(premise, n, steps[..i]).Some?
    ensures BallotsKept(Run(premise, n, steps[..i]).value, Run(premise, n, steps).value)
    ensures forall v :: 0 <= v < n ==>
              Run(premise, n, steps[..i]).value.servers[v].currentTerm
                  <= Run(premise, n, steps).value.servers[v].currentTerm
  {
    hide WfCluster, Next, Enabled, Admits;
    if i == |steps| {
      assert steps[..i] == steps;
    } else {
      var prefix := steps[..|steps| - 1];
      HistoryKept(premise, n, prefix, i);
      assert prefix[..i] == steps[..i];
      VotingHolds(premise, n, prefix);
      VotingStep(Run(premise, n, prefix).value, steps[|steps| - 1]);
      TermsNeverDecrease(Run(premise, n, prefix).value, steps[|steps| - 1]);
    }
  }

  /**
   Exactly when a request in flight would be granted, in any state of any run: it is not stale, the
   voter has voted for nobody else in that term, and the candidate's log is up to date.
   */
  lemma GrantedIffFirst(premise: Premise, n: nat, steps: seq<Step>, q: nat)
    requires Run(premise, n, steps).Some? && q < |Run(premise, n, steps).value.voteCalls|
    ensures var s := Run(premise, n, steps).value;
            var c := s.voteCalls[q];
            && c.to < n && s.servers[c.to].log != []
            && (OnRequestVote(s.servers[c.to], c.args).1.granted <==>
                  && c.args.term >= s.servers[c.to].currentTerm
                  && ((c.args.term, c.to) in s.ballots ==> s.ballots[(c.args.term, c.to)].candidate == c.from)
                  && UpToDate(c.args.lastLogIndex, c.args.lastLogTerm, s.servers[c.to].log))
  {
    hide Run, OnRequestVote, WfServer, WfAppendCall;
    VotingHolds(premise, n, steps);
    var s := Run(premise, n, steps).value;
    var c := s.voteCalls[q];
    WellFormedLog(s.servers[c.to], n);
    LogStartsNonEmpty(s.servers[c.to].log);
    VoteGrantedIff(s.servers[c.to], c.args);
    assert Remembered(s.ballots, c.to, s.servers[c.to]);
  }

  /** In every run, any two grants a peer ever gave in one term went to the same candidate. */
  lemma SingleVotePerTerm(premise: Premise, n: nat, steps: seq<Step>, p: nat, q: nat)
    requires Run(premise, n, steps).Some?
    requires var calls := Run(premise, n, steps).value.voteCalls;
             && p < |calls| && q < |calls|
             && calls[p].handled && calls[p].reply.granted && calls[q].handled && calls[q].reply.granted
             && calls[p].to == calls[q].to && calls[p].args.term == calls[q].args.term
    ensures var calls := Run(premise, n, steps).value.voteCalls;
            calls[p].from == calls[q].from
  {
    VotingHolds(premise, n, steps);
  }

  // ---------------------------------------------------------------- Election Safety

  ghost predicate IsMajority(members: set<nat>, n: nat) {
    (forall v :: v in members ==> v < n) && |members| > n / 2
  }

  lemma {:induction false} CardinalityBelow(members: set<nat>, n: nat)
    requires forall v :: v in members ==> v < n
    ensures |members| <= n
  {
    if n == 0 {
      assert members == {};
    } else {
      CardinalityBelow(members - {n - 1}, n - 1);
    }
  }

  lemma MajoritiesIntersect(a: set<nat>, b: set<nat>, n: nat) returns (v: nat)
    requires IsMajority(a, n) && IsMajority(b, n)
    ensures v in a && v in b
  {
    if a * b == {} {
      assert |a + b| == |a| + |b|;
      CardinalityBelow(a + b, n);
      assert false;
    }
    v :| v in a * b;
  }

  ghost predicate VotedFor(ballots: map<(nat, nat), Ballot>, term: nat, voter: nat, candidate: nat) {
    (term, voter) in ballots && ballots[(term, voter)].candidate == candidate
  }

  /** The `votes` counter of a candidate or leader is the number of distinct peers that voted for it in its term. */
  ghost predicate Tally(ballots: map<(nat, nat), Ballot>, n: nat, c: nat, server: Server, granters: set<nat>) {
    server.role != Follower ==>
      && |granters| == server.votes
      && c in granters
      && forall g :: g in granters ==> g < n && VotedFor(ballots, server.currentTerm, g, c)
  }

  /** A call whose reply is still out has not been counted. */
  ghost predicate Uncounted(c: VoteCall, server: Server, granters: set<nat>) {
    && c.args.term <= server.currentTerm
    && (!c.consumed && c.args.term == server.currentTerm && server.role != Follower ==> c.to !in granters)
  }

  ghost predicate Elected(s: Cluster, term: nat, reign: Reign) {
    && IsMajority(reign.voters, |s.servers|)
    && (forall g :: g in reign.voters ==> VotedFor(s.ballots, term, g, reign.leader))
    && reign.leader < |s.servers|
    && term <= s.servers[reign.leader].currentTerm
    && (term == s.servers[reign.leader].currentTerm ==> s.servers[reign.leader].role == Leader)
  }

  ghost predicate Reigning(reigns: map<nat, Reign>, c: nat, server: Server) {
    server.role == Leader ==> server.currentTerm in reigns && reigns[server.currentTerm].leader == c
  }

  ghost predicate Tallied(s: Cluster) {
    && |s.granters| == |s.servers|
    && forall c :: 0 <= c < |s.servers| ==> Tally(s.ballots, |s.servers|, c, s.servers[c], s.granters[c])
  }

  ghost predicate CallsUncounted(s: Cluster)
    requires WfCluster(s)
  {
    forall q :: 0 <= q < |s.voteCalls| ==>
      Uncounted(s.voteCalls[q], s.servers[s.voteCalls[q].from], s.granters[s.voteCalls[q].from])
  }

  ghost predicate CallsDistinct(calls: seq<VoteCall>) {
    forall p, q :: 0 <= p < q < |calls| ==> !SameCall(calls[p], calls[q])
  }

  ghost predicate Reigns(s: Cluster) {
    && (forall t :: t in s.reigns ==> Elected(s, t, s.reigns[t]))
    && (forall c :: 0 <= c < |s.servers| ==> Reigning(s.reigns, c, s.servers[c]))
  }

  ghost predicate Election(s: Cluster)
    requires WfCluster(s)
  {
    Tallied(s) && CallsUncounted(s) && CallsDistinct(s.voteCalls) && Reigns(s)
  }

  lemma NoCountKeepsElection(s: Cluster, s': Cluster)
    requires WfCluster(s) && WfCluster(s') && Election(s) && NoCount(s, s')
    ensures Election(s')
  {
    forall c | 0 <= c < |s'.servers|
      ensures Tally(s'.ballots, |s'.servers|, c, s'.servers[c], s'.granters[c])
      ensures Reigning(s'.reigns, c, s'.servers[c])
    {
      assert KeepsRole(s.servers[c], s'.servers[c]);
      assert Tally(s.ballots, |s.servers|, c, s.servers[c], s.granters[c]);
    }
    forall q | 0 <= q < |s'.voteCalls|
      ensures Uncounted(s'.voteCalls[q], s'.servers[s'.voteCalls[q].from], s'.granters[s'.voteCalls[q].from])
    {
      var from := s.voteCalls[q].from;
      assert SameCall(s'.voteCalls[q], s.voteCalls[q]);
      assert Uncounted(s.voteCalls[q], s.servers[from], s.granters[from]);
      assert KeepsRole(s.servers[from], s'.servers[from]);
    }
    forall p, q | 0 <= p < q < |s'.voteCalls|
      ensures !SameCall(s'.voteCalls[p], s'.voteCalls[q])
    {
      assert !SameCall(s.voteCalls[p], s.voteCalls[q]);
      assert SameCall(s'.voteCalls[p], s.voteCalls[p]) && SameCall(s'.voteCalls[q], s.voteCalls[q]);
    }
    forall t | t in s'.reigns
      ensures Elected(s', t, s'.reigns[t])
    {
      assert Elected(s, t, s.reigns[t]);
      assert KeepsRole(s.servers[s.reigns[t].leader], s'.servers[s.reigns[t].leader]);
    }
  }

  lemma HandleVoteCountsNone(s: Cluster, q: nat)
    requires WfCluster(s) && Voting(s) && Enabled(s, HandleVote(q))
    ensures NoCount(s, DoHandleVote(s, q))
  {
    hide WfLog, WfAppendCall;
  }

  lemma TimeoutKeepsTallied(s: Cluster, i: nat)
    requires WfCluster(s) && Voting(s) && Tallied(s) && i < |s.servers|
    ensures Tallied(DoTimeout(s, i))
  {
    hide WfServer, WfAppendCall, WfVoteCall;
    var s' := DoTimeout(s, i);
    VotingTimeout(s, i);
    forall c | 0 <= c < |s.servers|
      ensures Tally(s'.ballots, |s.servers|, c, s'.servers[c], s'.granters[c])
    {
      assert Tally(s.ballots, |s.servers|, c, s.servers[c], s.granters[c]);
    }
  }

  lemma TimeoutKeepsCalls(s: Cluster, i: nat)
    requires WfCluster(s) && CallsUncounted(s) && CallsDistinct(s.voteCalls) && i < |s.servers|
    requires WfCluster(DoTimeout(s, i))
    ensures CallsUncounted(DoTimeout(s, i)) && CallsDistinct(DoTimeout(s, i).voteCalls)
  {
    var s' := DoTimeout(s, i);
    assert forall q :: 0 <= q < |s.voteCalls| ==> s'.voteCalls[q] == s.voteCalls[q];
    forall q | 0 <= q < |s'.voteCalls|
      ensures Uncounted(s'.voteCalls[q], s'.servers[s'.voteCalls[q].from], s'.granters[s'.voteCalls[q].from])
    {
      if q < |s.voteCalls| {
        assert Uncounted(s.voteCalls[q], s.servers[s.voteCalls[q].from], s.granters[s.voteCalls[q].from]);
      }
    }
    forall p, q | 0 <= p < q < |s'.voteCalls|
      ensures !SameCall(s'.voteCalls[p], s'.voteCalls[q])
    {
      if q < |s.voteCalls| {
        assert !SameCall(s.voteCalls[p], s.voteCalls[q]);
      } else if p < |s.voteCalls| {
        assert Uncounted(s.voteCalls[p], s.servers[s.voteCalls[p].from], s.granters[s.voteCalls[p].from]);
      }
    }
  }

  lemma TimeoutKeepsReigns(s: Cluster, i: nat)
    requires WfCluster(s) && Voting(s) && Reigns(s) && i < |s.servers|
    ensures Reigns(DoTimeout(s, i))
  {
    hide WfServer, WfAppendCall, WfVoteCall;
    var s' := DoTimeout(s, i);
    VotingTimeout(s, i);
    forall t | t in s'.reigns
      ensures Elected(s', t, s'.reigns[t])
    {
      assert Elected(s, t, s.reigns[t]);
    }
  }

  lemma ElectionTimeout(s: Cluster, i: nat)
    requires WfCluster(s) && Voting(s) && Election(s) && i < |s.servers|
    ensures WfCluster(DoTimeout(s, i)) && Election(DoTimeout(s, i))
  {
    TimeoutKeepsWf(s, i);
    TimeoutKeepsTallied(s, i);
    TimeoutKeepsCalls(s, i);
    TimeoutKeepsReigns(s, i);
  }

  /** Counting an in-term grant adds one new granter. */
  lemma CountedKeepsTally(ballots: map<(nat, nat), Ballot>, n: nat, c: VoteCall, v: Server, granters: set<nat>)
    requires Tally(ballots, n, c.from, v, granters) && Uncounted(c, v, granters) && Reported(ballots, c)
    requires c.handled && !c.consumed && c.to < n && (c.reply.granted ==> c.args.term == v.currentTerm)
    ensures var counted := if c.reply.granted && c.reply.term <= v.currentTerm then {c.to} else {};
            Tally(ballots, n, c.from, OnVoteReply(v, n, c.reply), granters + counted)
  {
    VoteReplyOutcome(v, n, c.reply);
    hide OnVoteReply;
  }

  lemma ConsumeVoteKeepsTallied(s: Cluster, q: nat)
    requires WfCluster(s) && Voting(s) && Election(s) && Enabled(s, ConsumeVote(q)) && VoteInTerm(s, ConsumeVote(q))
    ensures Tallied(DoConsumeVote(s, q))
  {
    hide WfServer, WfAppendCall, Reigns, CallsDistinct, OnVoteReply, Tally, Uncounted, Reported, ZeroCalls;
    var c, s' := s.voteCalls[q], DoConsumeVote(s, q);
    assert Uncounted(c, s.servers[c.from], s.granters[c.from]) && Reported(s.ballots, c);
    CountedKeepsTally(s.ballots, |s.servers|, c, s.servers[c.from], s.granters[c.from]);
    forall v | 0 <= v < |s.servers|
      ensures Tally(s'.ballots, |s.servers|, v, s'.servers[v], s'.granters[v])
    {
      assert Tally(s.ballots, |s.servers|, v, s.servers[v], s.granters[v]);
    }
  }

  lemma UncountedAfter(s: Cluster, q: nat, p: nat)
    requires WfCluster(s) && CallsDistinct(s.voteCalls) && p < |s.voteCalls|
    requires Enabled(s, ConsumeVote(q)) && VoteInTerm(s, ConsumeVote(q))
    requires Uncounted(s.voteCalls[p], s.servers[s.voteCalls[p].from], s.granters[s.voteCalls[p].from])
    ensures var s' := DoConsumeVote(s, q);
            Uncounted(s'.voteCalls[p], s'.servers[s.voteCalls[p].from], s'.granters[s.voteCalls[p].from])
  {
    hide WfServer, WfAppendCall, OnVoteReply, ZeroCalls;
    VoteReplyOutcome(s.servers[s.voteCalls[q].from], |s.servers|, s.voteCalls[q].reply);
    assert p < q ==> !SameCall(s.voteCalls[p], s.voteCalls[q]);
    assert q < p ==> !SameCall(s.voteCalls[q], s.voteCalls[p]);
  }

  lemma ConsumeVoteKeepsUncounted(s: Cluster, q: nat)
    requires WfCluster(s) && CallsUncounted(s) && CallsDistinct(s.voteCalls)
    requires Enabled(s, ConsumeVote(q)) && VoteInTerm(s, ConsumeVote(q)) && WfCluster(DoConsumeVote(s, q))
    ensures CallsUncounted(DoConsumeVote(s, q)) && CallsDistinct(DoConsumeVote(s, q).voteCalls)
  {
    hide WfServer, WfAppendCall, OnVoteReply, ZeroCalls, Uncounted, Wins;
    var s' := DoConsumeVote(s, q);
    forall p: nat | p < |s'.voteCalls|
      ensures Uncounted(s'.voteCalls[p], s'.servers[s'.voteCalls[p].from], s'.granters[s'.voteCalls[p].from])
    {
      UncountedAfter(s, q, p);
    }
    forall p, r | 0 <= p < r < |s'.voteCalls|
      ensures !SameCall(s'.voteCalls[p], s'.voteCalls[r])
    {
      assert !SameCall(s.voteCalls[p], s.voteCalls[r]);
    }
  }

  /** Two majorities of one term share a voter, so a winner's term had no winner before. */
  lemma WinnerIsFirst(s: Cluster, q: nat)
    requires WfCluster(s) && Reigns(s) && Enabled(s, ConsumeVote(q)) && Tallied(DoConsumeVote(s, q))
    requires Wins(s, s.voteCalls[q])
    ensures IsMajority(Counted(s, s.voteCalls[q]), |s.servers|)
    ensures s.servers[s.voteCalls[q].from].currentTerm !in s.reigns
  {
    hide WfServer, WfAppendCall, OnVoteReply, ZeroCalls;
    var c := s.voteCalls[q];
    var s' := DoConsumeVote(s, q);
    var term := s.servers[c.from].currentTerm;
    VoteReplyOutcome(s.servers[c.from], |s.servers|, c.reply);
    assert Tally(s'.ballots, |s.servers|, c.from, s'.servers[c.from], s'.granters[c.from]);
    if term in s.reigns {
      assert Elected(s, term, s.reigns[term]);
      var v := MajoritiesIntersect(Counted(s, c), s.reigns[term].voters, |s.servers|);
    }
  }

  lemma StillElected(s: Cluster, q: nat, t: nat)
    requires WfCluster(s) && Enabled(s, ConsumeVote(q)) && t in s.reigns && Elected(s, t, s.reigns[t])
    ensures Elected(DoConsumeVote(s, q), t, s.reigns[t])
  {
    hide WfServer, WfAppendCall, OnVoteReply, ZeroCalls, IsMajority;
    VoteReplyOutcome(s.servers[s.voteCalls[q].from], |s.servers|, s.voteCalls[q].reply);
  }

  lemma IsElected(s: Cluster, term: nat, reign: Reign)
    requires reign.leader < |s.servers| && s.servers[reign.leader].currentTerm == term
             && s.servers[reign.leader].role == Leader
    requires IsMajority(reign.voters, |s.servers|)
    requires forall g :: g in reign.voters ==> VotedFor(s.ballots, term, g, reign.leader)
    ensures Elected(s, term, reign)
  {
  }

  lemma NewlyElected(s: Cluster, q: nat)
    requires WfCluster(s) && Reigns(s) && Enabled(s, ConsumeVote(q)) && Tallied(DoConsumeVote(s, q))
    requires Wins(s, s.voteCalls[q])
    ensures var s', term := DoConsumeVote(s, q), s.servers[s.voteCalls[q].from].currentTerm;
            term !in s.reigns && term in s'.reigns && Elected(s', term, s'.reigns[term])
  {
    hide WfServer, WfAppendCall, OnVoteReply, ZeroCalls, IsMajority, Elected, Reigning;
    WinnerIsFirst(s, q);
    var s', c := DoConsumeVote(s, q), s.voteCalls[q];
    VoteReplyOutcome(s.servers[c.from], |s.servers|, c.reply);
    assert Tally(s'.ballots, |s.servers|, c.from, s'.servers[c.from], s'.granters[c.from]);
    IsElected(s', s.servers[c.from].currentTerm, Reign(c.from, Counted(s, c), s.servers[c.from].log));
  }

  lemma ConsumeVoteKeepsReigns(s: Cluster, q: nat)
    requires WfCluster(s) && Reigns(s) && Enabled(s, ConsumeVote(q)) && Tallied(DoConsumeVote(s, q))
    ensures Reigns(DoConsumeVote(s, q)) && ReignsKept(s, DoConsumeVote(s, q))
  {
    hide WfServer, WfAppendCall, ZeroCalls, OnVoteReply, Elected, Tallied;
    var s', c := DoConsumeVote(s, q), s.voteCalls[q];
    if Wins(s, c) {
      NewlyElected(s, q);
    }
    forall t | t in s.reigns
      ensures Elected(s', t, s.reigns[t])
    {
      StillElected(s, q, t);
    }
    VoteReplyOutcome(s.servers[c.from], |s.servers|, c.reply);
    forall v | 0 <= v < |s.servers|
      ensures Reigning(s'.reigns, v, s'.servers[v])
    {
      assert Reigning(s.reigns, v, s.servers[v]);
    }
  }

  lemma ElectionConsumeVote(s: Cluster, q: nat)
    requires WfCluster(s) && Voting(s) && Election(s) && Enabled(s, ConsumeVote(q)) && VoteInTerm(s, ConsumeVote(q))
    ensures WfCluster(DoConsumeVote(s, q)) && Election(DoConsumeVote(s, q)) && ReignsKept(s, DoConsumeVote(s, q))
  {
    ConsumeVoteKeepsWf(s, q);
    ConsumeVoteKeepsTallied(s, q);
    ConsumeVoteKeepsUncounted(s, q);
    ConsumeVoteKeepsReigns(s, q);
  }

  lemma ElectionStep(s: Cluster, step: Step)
    requires WfCluster(s) && Voting(s) && Election(s) && Enabled(s, step) && VoteInTerm(s, step)
    ensures WfCluster(Next(s, step)) && Election(Next(s, step)) && ReignsKept(s, Next(s, step))
  {
    hide WfCluster, Election, Voting, NoCount;
    var s' := Next(s, step);
    NextKeepsWf(s, step);
    match step
    case Timeout(i) => ElectionTimeout(s, i);
    case HandleVote(q) => HandleVoteCountsNone(s, q); NoCountKeepsElection(s, s');
    case ConsumeVote(q) => ElectionConsumeVote(s, q);
    case ClientStart(i, command) => StartIsCalm(s, i, command); NoCountKeepsElection(s, s');
    case SendHeartbeats(i) => HeartbeatsAreCalm(s, i); NoCountKeepsElection(s, s');
    case HandleAppend(q) => HandleAppendIsCalm(s, q); NoCountKeepsElection(s, s');
    case ConsumeAppend(q) => ConsumeAppendIsCalm(s, q); NoCountKeepsElection(s, s');
  }

  lemma {:induction false} ElectionHolds(premise: Premise, n: nat, steps: seq<Step>)
    requires premise.votesInTerm && Run(premise, n, steps).Some?
    ensures Election(Run(premise, n, steps).value)
  {
    if steps != [] {
      var prefix := steps[..|steps| - 1];
      VotingHolds(premise, n, prefix);
      ElectionHolds(premise, n, prefix);
      ElectionStep(Run(premise, n, prefix).value, steps[|steps| - 1]);
    }
  }

  lemma {:induction false} ReignsLast(premise: Premise, n: nat, steps: seq<Step>, i: nat)
    requires premise.votesInTerm && i <= |steps| && Run(premise, n, steps).Some?
    ensures Run(premise, n, steps[..i]).Some?
    ensures ReignsKept(Run(premise, n, steps[..i]).value, Run(premise, n, steps).value)
  {
    hide WfCluster, Next, Enabled;
    if i == |steps| {
      assert steps[..i] == steps;
    } else {
      var prefix := steps[..|steps| - 1];
      ReignsLast(premise, n, prefix, i);
      assert prefix[..i] == steps[..i];
      VotingHolds(premise, n, prefix);
      ElectionHolds(premise, n, prefix);
      ElectionStep(Run(premise, n, prefix).value, steps[|steps| - 1]);
    }
  }

  ghost predicate LeadsAt(premise: Premise, n: nat, steps: seq<Step>, i: nat, v: nat, term: nat) {
    && i <= |steps| && Run(premise, n, steps[..i]).Some? && v < n
    && var server := Run(premise, n, steps[..i]).value.servers[v];
       server.role == Leader && server.currentTerm == term
  }

  /** Election Safety: over a whole run at most one peer is ever leader of a term. */
  lemma ElectionSafety(premise: Premise, n: nat, steps: seq<Step>, i: nat, j: nat, a: nat, b: nat, term: nat)
    requires premise.votesInTerm && Run(premise, n, steps).Some?
    requires LeadsAt(premise, n, steps, i, a, term) && LeadsAt(premise, n, steps, j, b, term)
    ensures a == b
  {
    ReignsLast(premise, n, steps, i);
    ReignsLast(premise, n, steps, j);
    ElectionHolds(premise, n, steps[..i]);
    ElectionHolds(premise, n, steps[..j]);
  }
}
