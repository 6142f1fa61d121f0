/**
 What a vote says about logs (extended Raft paper, section 5.4.1): every voter's log was no
 more up to date than the log its candidate ran with, and a winner reigns with that log.
 */
module RaftBallots {
  import opened RaftServer
  import opened RaftCluster
  import opened RaftElection
  import opened RaftLogs

  ghost predicate RanWith(ballots: map<(nat, nat), Ballot>, term: nat, candidate: nat) {
    && (term, candidate) in ballots
    && ballots[(term, candidate)].candidate == candidate
    && ballots[(term, candidate)].log != []
    && LastTerm(ballots[(term, candidate)].log) < term
  }

  /** The candidate voted for itself first, with entries of earlier terms only, and is up to date with the voter. */
  ghost predicate GoodBallot(reigns: map<nat, Reign>, ballots: map<(nat, nat), Ballot>, term: nat, ballot: Ballot) {
    && WfLog(ballot.log)
    && Anchored(reigns, ballot.log)
    && RanWith(ballots, term, ballot.candidate)
    && var run := ballots[(term, ballot.candidate)].log;
       UpToDate(|run| - 1, LastTerm(run), ballot.log)
  }

  /** A vote request describes the log its sender ran with. */
  ghost predicate Describes(ballots: map<(nat, nat), Ballot>, from: nat, args: VoteArgs) {
    && RanWith(ballots, args.term, from)
    && var run := ballots[(args.term, from)].log;
       args.lastLogIndex == |run| - 1 && args.lastLogTerm == LastTerm(run)
  }

  /** Until its term has a leader a candidate keeps the log it ran with. */
  ghost predicate StillRuns(reigns: map<nat, Reign>, ballots: map<(nat, nat), Ballot>, v: nat, server: Server) {
    server.role == Candidate && server.currentTerm !in reigns ==>
      (server.currentTerm, v) in ballots && server.log == ballots[(server.currentTerm, v)].log
  }

  /** A reign's log starts with the log its leader ran with. */
  ghost predicate StartsWithRun(ballots: map<(nat, nat), Ballot>, t: nat, reign: Reign) {
    && RanWith(ballots, t, reign.leader)
    && var run := ballots[(t, reign.leader)].log;
       Agree(run, reign.log, |run|)
  }

  ghost predicate Candidacies(s: Cluster) {
    && (forall t, v :: (t, v) in s.ballots ==> GoodBallot(s.reigns, s.ballots, t, s.ballots[(t, v)]))
    && (forall q :: 0 <= q < |s.voteCalls| ==> Describes(s.ballots, s.voteCalls[q].from, s.voteCalls[q].args))
    && (forall v :: 0 <= v < |s.servers| ==> StillRuns(s.reigns, s.ballots, v, s.servers[v]))
    && (forall t :: t in s.reigns ==> StartsWithRun(s.ballots, t, s.reigns[t]))
  }

  // ---------------------------------------------------------------- growth

  lemma RanWithKept(s: Cluster, s': Cluster, t: nat, c: nat)
    requires BallotsKept(s, s') && RanWith(s.ballots, t, c)
    ensures RanWith(s'.ballots, t, c) && s'.ballots[(t, c)] == s.ballots[(t, c)]
  {
  }

  lemma GoodBallotKept(s: Cluster, s': Cluster, t: nat, ballot: Ballot)
    requires BallotsKept(s, s') && ReignsGrow(s.reigns, s'.reigns) && GoodBallot(s.reigns, s.ballots, t, ballot)
    ensures GoodBallot(s'.reigns, s'.ballots, t, ballot)
  {
    hide BallotsKept, ReignsGrow, Anchored, RanWith, WfLog;
    RanWithKept(s, s', t, ballot.candidate);
    AnchoredGrows(s.reigns, s'.reigns, ballot.log);
  }

  lemma StartsWithRunKept(s: Cluster, s': Cluster, t: nat)
    requires BallotsKept(s, s') && ReignsGrow(s.reigns, s'.reigns) && t in s.reigns
    requires StartsWithRun(s.ballots, t, s.reigns[t])
    ensures t in s'.reigns && StartsWithRun(s'.ballots, t, s'.reigns[t])
  {
    RanWithKept(s, s', t, s.reigns[t].leader);
    assert Agree(s.reigns[t].log, s'.reigns[t].log, |s.reigns[t].log|);
  }

  lemma BallotKept(s: Cluster, s': Cluster, t: nat, v: nat)
    requires BallotsKept(s, s') && (t, v) in s.ballots
    ensures (t, v) in s'.ballots && s'.ballots[(t, v)] == s.ballots[(t, v)]
  {
  }

  ghost predicate SameRequest(c: VoteCall, d: VoteCall) {
    c.from == d.from && c.args == d.args
  }

  /** Ballots and reigns may grow, new calls and new ballots must be good, and candidates keep their logs. */
  lemma CandidaciesGrow(s: Cluster, s': Cluster)
    requires Candidacies(s) && |s'.servers| == |s.servers| && BallotsKept(s, s') && ReignsGrow(s.reigns, s'.reigns)
    requires forall t, v :: (t, v) in s'.ballots && (t, v) !in s.ballots ==>
             GoodBallot(s'.reigns, s'.ballots, t, s'.ballots[(t, v)])
    requires |s.voteCalls| <= |s'.voteCalls|
    requires forall q :: 0 <= q < |s.voteCalls| ==> SameRequest(s'.voteCalls[q], s.voteCalls[q])
    requires forall q :: |s.voteCalls| <= q < |s'.voteCalls| ==>
             Describes(s'.ballots, s'.voteCalls[q].from, s'.voteCalls[q].args)
    requires forall v :: 0 <= v < |s.servers| ==> StillRuns(s'.reigns, s'.ballots, v, s'.servers[v])
    requires forall t :: t in s'.reigns && t !in s.reigns ==> StartsWithRun(s'.ballots, t, s'.reigns[t])
    ensures Candidacies(s')
  {
    hide GoodBallot, BallotsKept, ReignsGrow, RanWith, StartsWithRun, StillRuns;
    forall t, v | (t, v) in s'.ballots
      ensures GoodBallot(s'.reigns, s'.ballots, t, s'.ballots[(t, v)])
    {
      if (t, v) in s.ballots {
        GoodBallotKept(s, s', t, s.ballots[(t, v)]);
        BallotKept(s, s', t, v);
      }
    }
    forall q | 0 <= q < |s'.voteCalls|
      ensures Describes(s'.ballots, s'.voteCalls[q].from, s'.voteCalls[q].args)
    {
      if q < |s.voteCalls| {
        assert SameRequest(s'.voteCalls[q], s.voteCalls[q]);
        RanWithKept(s, s', s.voteCalls[q].args.term, s.voteCalls[q].from);
      }
    }
    forall t | t in s'.reigns
      ensures StartsWithRun(s'.ballots, t, s'.reigns[t])
    {
      if t in s.reigns {
        StartsWithRunKept(s, s', t);
      }
    }
  }

  // ---------------------------------------------------------------- steps

  lemma TimeoutKeepsCandidacies(s: Cluster, i: nat)
    requires WfCluster(s) && Voting(s) && Logs(s) && Candidacies(s) && i < |s.servers|
    ensures Candidacies(DoTimeout(s, i))
  {
    hide WfServer, WfLog, Anchored, GoodReign, Sliced, LeadsWith, ReignsGrow, Remembered, Reported;
    var v := s.servers[i];
    VotingTimeout(s, i);
    WellFormedLog(v, |s.servers|);
    var s' := DoTimeout(s, i);
    SameReignsGrow(s.reigns);
    assert (v.currentTerm + 1, i) !in s.ballots;
    forall u | 0 <= u < |s.servers|
      ensures StillRuns(s'.reigns, s'.ballots, u, s'.servers[u])
    {
      assert StillRuns(s.reigns, s.ballots, u, s.servers[u]);
    }
    hide Candidacies, Voting;
    CandidaciesGrow(s, s');
  }

  lemma HandleVoteKeepsRuns(s: Cluster, q: nat)
    requires WfCluster(s) && Candidacies(s) && Enabled(s, HandleVote(q)) && BallotsKept(s, DoHandleVote(s, q))
    ensures var s' := DoHandleVote(s, q);
            forall u :: 0 <= u < |s.servers| ==> StillRuns(s'.reigns, s'.ballots, u, s'.servers[u])
  {
    hide WfServer, OnRequestVote, GoodBallot, Describes;
    var c := s.voteCalls[q];
    var s' := DoHandleVote(s, q);
    VoteOutcome(s.servers[c.to], |s.servers|, c.args);
    forall u | 0 <= u < |s.servers|
      ensures StillRuns(s'.reigns, s'.ballots, u, s'.servers[u])
    {
      assert StillRuns(s.reigns, s.ballots, u, s.servers[u]);
    }
  }

  lemma NewBallotIsGood(s: Cluster, q: nat)
    requires WfCluster(s) && Logs(s) && Candidacies(s) && Enabled(s, HandleVote(q))
             && BallotsKept(s, DoHandleVote(s, q))
    ensures var s' := DoHandleVote(s, q);
            forall t, v :: (t, v) in s'.ballots && (t, v) !in s.ballots ==>
                GoodBallot(s'.reigns, s'.ballots, t, s'.ballots[(t, v)])
  {
    hide WfServer, WfLog, Anchored, GoodReign, Sliced, LeadsWith, OnRequestVote, UpToDate, StillRuns;
    var s' := DoHandleVote(s, q);
    var c := s.voteCalls[q];
    var v := s.servers[c.to];
    WellFormedLog(v, |s.servers|);
    VoteOutcome(v, |s.servers|, c.args);
    assert Describes(s.ballots, c.from, c.args);
    RanWithKept(s, s', c.args.term, c.from);
    assert Anchored(s.reigns, v.log);
  }

  lemma HandleVoteKeepsCandidacies(s: Cluster, q: nat)
    requires WfCluster(s) && Voting(s) && Logs(s) && Candidacies(s) && Enabled(s, HandleVote(q))
    ensures Candidacies(DoHandleVote(s, q))
  {
    hide WfServer, WfLog, Anchored, GoodReign, Sliced, LeadsWith, ReignsGrow, Voting, OnRequestVote, UpToDate,
        BallotsKept;
    var s' := DoHandleVote(s, q);
    VotingHandleVote(s, q);
    SameReignsGrow(s.reigns);
    HandleVoteKeepsRuns(s, q);
    NewBallotIsGood(s, q);
    hide Candidacies, GoodBallot, Describes, StillRuns;
    CandidaciesGrow(s, s');
  }

  lemma WinnerRan(s: Cluster, c: VoteCall)
    requires WfCluster(s) && Voting(s) && Tallied(s) && Candidacies(s) && WfVoteCall(s, c) && Wins(s, c)
    requires s.servers[c.from].currentTerm !in s.reigns
    ensures var v := s.servers[c.from];
            StartsWithRun(s.ballots, v.currentTerm, Reign(c.from, Counted(s, c), v.log))
  {
    hide WfServer, WfLog, Anchored;
    var v := s.servers[c.from];
    assert StillRuns(s.reigns, s.ballots, c.from, v);
    assert Tally(s.ballots, |s.servers|, c.from, v, s.granters[c.from]);
    var ballot := s.ballots[(v.currentTerm, c.from)];
    assert GoodBallot(s.reigns, s.ballots, v.currentTerm, ballot);
  }

  lemma ConsumeVoteKeepsCandidacies(s: Cluster, q: nat)
    requires WfCluster(s) && Voting(s) && Tallied(s) && Candidacies(s) && Enabled(s, ConsumeVote(q))
    requires Wins(s, s.voteCalls[q]) ==> s.servers[s.voteCalls[q].from].currentTerm !in s.reigns
    requires ReignsGrow(s.reigns, DoConsumeVote(s, q).reigns)
    ensures Candidacies(DoConsumeVote(s, q))
  {
    hide WfServer, WfLog, Anchored, GoodReign, Sliced, LeadsWith, ReignsGrow, Remembered, Reported, Tally, Voting;
    var s' := DoConsumeVote(s, q);
    var c := s.voteCalls[q];
    assert Describes(s.ballots, c.from, c.args);
    forall u | 0 <= u < |s.servers|
      ensures StillRuns(s'.reigns, s'.ballots, u, s'.servers[u])
    {
      assert StillRuns(s.reigns, s.ballots, u, s.servers[u]);
    }
    if Wins(s, c) {
      WinnerRan(s, c);
    }
    hide Candidacies;
    CandidaciesGrow(s, s');
  }

  // The remaining steps cast no vote; a candidate's log changes only once its term has a leader.

  ghost predicate CandidateKept(reigns: map<nat, Reign>, a: Server, b: Server) {
    b.role == Candidate && b.currentTerm !in reigns ==>
      a.role == Candidate && a.currentTerm == b.currentTerm && b.log == a.log
  }

  ghost predicate CandidatesKept(s: Cluster, s': Cluster) {
    && |s'.servers| == |s.servers|
    && s'.ballots == s.ballots
    && s'.voteCalls == s.voteCalls
    && s'.reigns.Keys == s.reigns.Keys
    && forall v :: 0 <= v < |s.servers| ==> CandidateKept(s.reigns, s.servers[v], s'.servers[v])
  }

  lemma KeptCandidatesKeepCandidacies(s: Cluster, s': Cluster)
    requires Candidacies(s) && CandidatesKept(s, s') && ReignsGrow(s.reigns, s'.reigns)
    ensures Candidacies(s')
  {
    hide GoodBallot, ReignsGrow, RanWith, StartsWithRun;
    forall v | 0 <= v < |s.servers|
      ensures StillRuns(s'.reigns, s'.ballots, v, s'.servers[v])
    {
      assert CandidateKept(s.reigns, s.servers[v], s'.servers[v]) && StillRuns(s.reigns, s.ballots, v, s.servers[v]);
    }
    CandidaciesGrow(s, s');
  }

  lemma StartKeepsCandidates(s: Cluster, i: nat, command: Command)
    requires WfCluster(s) && i < |s.servers|
    ensures CandidatesKept(s, DoStart(s, i, command))
  {
    hide WfVoteCall, WfAppendCall, WfLog;
  }

  lemma HeartbeatsKeepCandidates(s: Cluster, i: nat)
    requires WfCluster(s) && i < |s.servers|
    ensures CandidatesKept(s, DoHeartbeats(s, i))
  {
    hide WfVoteCall, WfAppendCall, WfLog;
  }

  lemma CandidateTermPositive(v: Server, n: nat)
    requires WfServer(v, n)
    ensures v.role == Candidate ==> v.currentTerm > 0
  {
  }

  lemma HandleAppendKeepsCandidates(s: Cluster, q: nat)
    requires WfCluster(s) && Logs(s) && Enabled(s, HandleAppend(q))
    ensures CandidatesKept(s, DoHandleAppend(s, q))
  {
    hide WfServer, WfLog, Anchored, GoodReign, LeadsWith, OnAppendEntries;
    var c := s.appendCalls[q];
    AppendOutcome(s.servers[c.to], |s.servers|, c.args);
    CandidateTermPositive(s.servers[c.to], |s.servers|);
    assert Sliced(s.reigns, c.from, c.args);
  }

  lemma ConsumeAppendKeepsCandidates(s: Cluster, q: nat)
    requires WfCluster(s) && Enabled(s, ConsumeAppend(q))
    ensures CandidatesKept(s, DoConsumeAppend(s, q))
  {
    hide WfLog, WfVoteCall;
  }

  lemma CandidaciesStep(s: Cluster, step: Step)
    requires WfCluster(s) && Voting(s) && Election(s) && Logs(s) && Candidacies(s) && Enabled(s, step)
             && VoteInTerm(s, step)
    ensures Candidacies(Next(s, step))
  {
    hide WfServer, WfVoteCall, WfAppendCall, Voting, Election, Logs, Candidacies, ReignsGrow, CandidatesKept, Reigns;
    var s' := Next(s, step);
    LogsStep(s, step);
    match step
    case Timeout(i) => TimeoutKeepsCandidacies(s, i);
    case HandleVote(q) => HandleVoteKeepsCandidacies(s, q);
    case ConsumeVote(q) =>
      ElectionParts(s);
      if Wins(s, s.voteCalls[q]) {
        ConsumeVoteKeepsTallied(s, q);
        WinnerIsFirst(s, q);
      }
      ConsumeVoteKeepsCandidacies(s, q);
    case ClientStart(i, command) => StartKeepsCandidates(s, i, command); KeptCandidatesKeepCandidacies(s, s');
    case SendHeartbeats(i) => HeartbeatsKeepCandidates(s, i); KeptCandidatesKeepCandidacies(s, s');
    case HandleAppend(q) => HandleAppendKeepsCandidates(s, q); KeptCandidatesKeepCandidacies(s, s');
    case ConsumeAppend(q) => ConsumeAppendKeepsCandidates(s, q); KeptCandidatesKeepCandidacies(s, s');
  }
}
