/**
 State Machine Safety (extended Raft paper, section 5.4.3): peers never apply different commands
 at the same index.
 */
module RaftSafety {
  import opened RaftServer
  import opened RaftCluster
  import opened RaftElection
  import opened RaftLogs
  import opened RaftBallots
  import opened RaftAcks
  import opened RaftCompleteness

  /** A majority held entry k of term t during term t. */
  ghost predicate Chosen(s: Cluster, t: nat, k: nat) {
    exists quorum :: HeldByMajority(s, t, k, quorum)
  }

  ghost predicate Covers(s: Cluster, t: nat, k: nat, c: nat) {
    Chosen(s, t, k) && c <= k
  }

  /** Index c is covered by an entry chosen in term `term` or before. */
  ghost predicate Known(s: Cluster, c: nat, term: nat) {
    c == 0 || exists t: nat, k: nat :: Covers(s, t, k, c) && t <= term
  }

  ghost predicate DeliveredFrom(s: Cluster, t: nat, k: nat, applied: seq<ApplyMsg>) {
    && Covers(s, t, k, |applied|)
    && t in s.reigns && k < |s.reigns[t].log|
    && forall i :: 0 <= i < |applied| ==> applied[i].command == s.reigns[t].log[i + 1].command
  }

  /** The commands sent on applyCh are those of a prefix chosen in term `term` or before. */
  ghost predicate Delivered(s: Cluster, applied: seq<ApplyMsg>, term: nat) {
    applied == [] || exists t: nat, k: nat :: DeliveredFrom(s, t, k, applied) && t <= term
  }

  ghost predicate Commits(s: Cluster) {
    && (forall v :: 0 <= v < |s.servers| ==> Known(s, s.servers[v].commitIndex, s.servers[v].currentTerm))
    && (forall v :: 0 <= v < |s.servers| ==> Delivered(s, s.servers[v].applied, s.servers[v].currentTerm))
    && (forall q :: 0 <= q < |s.appendCalls| ==>
        Known(s, s.appendCalls[q].args.leaderCommit, s.appendCalls[q].args.term))
  }

  // ---------------------------------------------------------------- chosen entries

  /** Any two chosen entries lie on one log: their leaders' logs agree up to the lower index. */
  lemma ChosenAgree(s: Cluster, t: nat, k: nat, t': nat, k': nat, i: nat)
    requires Sound(s) && Chosen(s, t, k) && Chosen(s, t', k') && i <= k && i <= k'
    ensures t in s.reigns && t' in s.reigns && i < |s.reigns[t].log| && i < |s.reigns[t'].log|
    ensures s.reigns[t].log[i] == s.reigns[t'].log[i]
  {
    hide Sound, IsMajority, Held;
    var quorum :| HeldByMajority(s, t, k, quorum);
    var quorum' :| HeldByMajority(s, t', k', quorum');
    if t < t' {
      LaterLeadersHave(s, t, k, quorum, t');
    } else if t' < t {
      LaterLeadersHave(s, t', k', quorum', t);
    }
  }

  /** A leader's log contains every entry chosen in its term or before. */
  lemma LeaderHasChosen(s: Cluster, t: nat, k: nat, u: nat)
    requires Sound(s) && Chosen(s, t, k) && u in s.reigns && t <= u
    ensures t in s.reigns && Agree(s.reigns[t].log, s.reigns[u].log, k + 1)
  {
    hide Sound, IsMajority, Held;
    var quorum :| HeldByMajority(s, t, k, quorum);
    if t < u {
      LaterLeadersHave(s, t, k, quorum, u);
    }
  }

  lemma ChosenGrows(s: Cluster, s': Cluster, x: nat, t: nat, k: nat)
    requires Chosen(s, t, k) && ReignsGrow(s.reigns, s'.reigns) && HeldKept(s, s', x) && |s'.servers| == |s.servers|
    ensures Chosen(s', t, k)
  {
    hide Held;
    var quorum :| HeldByMajority(s, t, k, quorum);
    assert Agree(s.reigns[t].log, s'.reigns[t].log, |s.reigns[t].log|);
    assert HeldByMajority(s', t, k, quorum);
  }

  lemma KnownGrows(s: Cluster, s': Cluster, x: nat, c: nat, term: nat, term': nat)
    requires Known(s, c, term) && ReignsGrow(s.reigns, s'.reigns) && HeldKept(s, s', x) && |s'.servers| == |s.servers|
    requires term <= term'
    ensures Known(s', c, term')
  {
    hide ReignsGrow, HeldKept, Chosen;
    if c > 0 {
      var t: nat, k: nat :| Covers(s, t, k, c) && t <= term;
      ChosenGrows(s, s', x, t, k);
      assert Covers(s', t, k, c);
    }
  }

  lemma DeliveredGrows(s: Cluster, s': Cluster, x: nat, applied: seq<ApplyMsg>, term: nat, term': nat)
    requires Delivered(s, applied, term) && ReignsGrow(s.reigns, s'.reigns) && HeldKept(s, s', x)
    requires |s'.servers| == |s.servers| && term <= term'
    ensures Delivered(s', applied, term')
  {
    hide HeldKept, Chosen;
    if applied != [] {
      var t: nat, k: nat :| DeliveredFrom(s, t, k, applied) && t <= term;
      assert Covers(s, t, k, |applied|);
      ChosenGrows(s, s', x, t, k);
      assert Agree(s.reigns[t].log, s'.reigns[t].log, |s.reigns[t].log|);
      assert DeliveredFrom(s', t, k, applied);
    }
  }

  // ---------------------------------------------------------------- applying

  /** Applying a known prefix of a leader's log extends a chosen prefix. */
  lemma DeliverMore(s: Cluster, applied: seq<ApplyMsg>, log: seq<Entry>, c: nat, term: nat)
    requires Sound(s) && Delivered(s, applied, term) && Known(s, c, term)
    requires term in s.reigns && Agree(log, s.reigns[term].log, |log|) && c < |log|
    ensures Delivered(s, applied + Deliveries(log, |applied|, c), term)
  {
    hide Sound, Chosen;
    var applied' := applied + Deliveries(log, |applied|, c);
    if c > |applied| {
      var t: nat, k: nat :| Covers(s, t, k, c) && t <= term;
      LeaderHasChosen(s, t, k, term);
      forall i | 0 <= i < |applied'|
        ensures applied'[i].command == s.reigns[t].log[i + 1].command
      {
        if i < |applied| {
          var t0: nat, k0: nat :| DeliveredFrom(s, t0, k0, applied) && t0 <= term;
          assert Covers(s, t0, k0, |applied|);
          ChosenAgree(s, t, k, t0, k0, i + 1);
        }
      }
      assert Covers(s, t, k, |applied'|);
      assert DeliveredFrom(s, t, k, applied');
    } else {
      assert applied' == applied;
    }
  }

  // ---------------------------------------------------------------- steps

  ghost predicate KeepsCommits(a: Server, b: Server) {
    b.commitIndex == a.commitIndex && b.applied == a.applied && a.currentTerm <= b.currentTerm
  }

  /** Peers other than x commit and apply nothing, and new calls carry known commit indices. */
  lemma CommitsGrow(s: Cluster, s': Cluster, x: nat)
    requires Commits(s) && ReignsGrow(s.reigns, s'.reigns) && HeldKept(s, s', x) && |s'.servers| == |s.servers|
    requires forall v :: 0 <= v < |s.servers| && v != x ==> KeepsCommits(s.servers[v], s'.servers[v])
    requires x < |s.servers| ==>
               && Known(s', s'.servers[x].commitIndex, s'.servers[x].currentTerm)
               && Delivered(s', s'.servers[x].applied, s'.servers[x].currentTerm)
    requires |s.appendCalls| <= |s'.appendCalls|
    requires forall q :: 0 <= q < |s.appendCalls| ==> SameSend(s'.appendCalls[q], s.appendCalls[q])
    requires forall q :: |s.appendCalls| <= q < |s'.appendCalls| ==>
               Known(s, s'.appendCalls[q].args.leaderCommit, s'.appendCalls[q].args.term)
    ensures Commits(s')
  {
    hide Known, Delivered, ReignsGrow, HeldKept;
    forall v | 0 <= v < |s.servers|
      ensures Known(s', s'.servers[v].commitIndex, s'.servers[v].currentTerm)
      ensures Delivered(s', s'.servers[v].applied, s'.servers[v].currentTerm)
    {
      if v != x {
        assert KeepsCommits(s.servers[v], s'.servers[v]);
        KnownGrows(s, s', x, s.servers[v].commitIndex, s.servers[v].currentTerm, s'.servers[v].currentTerm);
        DeliveredGrows(s, s', x, s.servers[v].applied, s.servers[v].currentTerm, s'.servers[v].currentTerm);
      }
    }
    forall q | 0 <= q < |s'.appendCalls|
      ensures Known(s', s'.appendCalls[q].args.leaderCommit, s'.appendCalls[q].args.term)
    {
      assert q < |s.appendCalls| ==> SameSend(s'.appendCalls[q], s.appendCalls[q]);
      KnownGrows(s, s', x, s'.appendCalls[q].args.leaderCommit, s'.appendCalls[q].args.term,
          s'.appendCalls[q].args.term);
    }
  }

  /** These steps leave every commit index alone. */
  ghost predicate NoCommit(s: Cluster, s': Cluster) {
    && |s'.servers| == |s.servers|
    && (forall v :: 0 <= v < |s.servers| ==> KeepsCommits(s.servers[v], s'.servers[v]))
    && |s.appendCalls| <= |s'.appendCalls|
    && (forall q :: 0 <= q < |s.appendCalls| ==> SameSend(s'.appendCalls[q], s.appendCalls[q]))
    && (forall q :: |s.appendCalls| <= q < |s'.appendCalls| ==>
          Known(s, s'.appendCalls[q].args.leaderCommit, s'.appendCalls[q].args.term))
  }

  lemma TimeoutCommitsNothing(s: Cluster, i: nat)
    requires WfCluster(s) && i < |s.servers|
    ensures NoCommit(s, DoTimeout(s, i))
  {
    hide WfServer, VoteCalls;
  }

  lemma HandleVoteCommitsNothing(s: Cluster, q: nat)
    requires WfCluster(s) && Enabled(s, HandleVote(q))
    ensures NoCommit(s, DoHandleVote(s, q))
  {
    hide WfServer, OnRequestVote;
    VoteOutcome(s.servers[s.voteCalls[q].to], |s.servers|, s.voteCalls[q].args);
  }

  lemma ConsumeVoteCommitsNothing(s: Cluster, q: nat)
    requires WfCluster(s) && Enabled(s, ConsumeVote(q))
    ensures NoCommit(s, DoConsumeVote(s, q))
  {
    hide WfServer, OnVoteReply;
    VoteReplyOutcome(s.servers[s.voteCalls[q].from], |s.servers|, s.voteCalls[q].reply);
  }

  lemma VotingStepsCommitNothing(s: Cluster, step: Step)
    requires WfCluster(s) && Enabled(s, step) && (step.Timeout? || step.HandleVote? || step.ConsumeVote?)
    ensures NoCommit(s, Next(s, step))
  {
    hide WfCluster, NoCommit, DoTimeout, DoHandleVote, DoConsumeVote;
    match step
    case Timeout(i) => TimeoutCommitsNothing(s, i);
    case HandleVote(q) => HandleVoteCommitsNothing(s, q);
    case ConsumeVote(q) => ConsumeVoteCommitsNothing(s, q);
  }

  lemma StartCommitsNothing(s: Cluster, i: nat, command: Command)
    requires WfCluster(s) && i < |s.servers|
    ensures NoCommit(s, DoStart(s, i, command))
  {
    hide WfLog, WfVoteCall, WfAppendCall;
  }

  lemma HeartbeatsCommitNothing(s: Cluster, i: nat)
    requires WfCluster(s) && Commits(s) && i < |s.servers|
    ensures NoCommit(s, DoHeartbeats(s, i))
  {
    hide WfServer, WfVoteCall, WfAppendCall, Known, Delivered;
    if s.servers[i].role == Leader {
      LeaderShape(s.servers[i], |s.servers|);
    }
  }

  lemma KnownBelow(s: Cluster, c: nat, c': nat, term: nat, term': nat)
    requires Known(s, c, term) && c' <= c && term <= term'
    ensures Known(s, c', term')
  {
    hide Chosen;
    if c' > 0 {
      var t: nat, k: nat :| Covers(s, t, k, c) && t <= term;
      assert Covers(s, t, k, c');
    }
  }

  lemma DeliveredBefore(s: Cluster, applied: seq<ApplyMsg>, term: nat, term': nat)
    requires Delivered(s, applied, term) && term <= term'
    ensures Delivered(s, applied, term')
  {
    hide DeliveredFrom;
  }

  lemma AcceptedLogAgrees(r: map<nat, Reign>, v: Server, args: AppendArgs)
    requires WfLog(v.log) && Anchored(r, v.log) && Accepts(v, args) && args.term > 0 && FullSlice(r, args)
    requires GoodReign(r, args.term, r[args.term].log)
    ensures var log := AppendedLog(v, args);
            log != [] && Agree(log, r[args.term].log, |log|)
  {
    SpliceAgrees(r, v.log, r[args.term].log, args);
  }

  /** A follower that accepts a request commits and applies a known prefix of its leader's log. */
  lemma AcceptingIsSafe(s: Cluster, q: nat)
    requires Sound(s) && Commits(s) && Enabled(s, HandleAppend(q))
    ensures var c := s.appendCalls[q];
            var v' := OnAppendEntries(s.servers[c.to], c.args).0;
            Known(s, v'.commitIndex, v'.currentTerm) && Delivered(s, v'.applied, v'.currentTerm)
  {
    hide WfServer, WfVoteCall, Voting, Election, Candidacies, Retention, Known, Delivered, Agree, Anchored, WfLog;
    hide Ordered, NextBounded, AckNames, AckRecorded, Matched, LeadsWith, OnAppendEntries, Deliveries, IsSlice, OwnTail;
    hide AppendedLog;
    var c := s.appendCalls[q];
    var v := s.servers[c.to];
    var args := c.args;
    LogNotEmpty(s, c.to);
    var v' := OnAppendEntries(v, args).0;
    WellFormedLog(v, |s.servers|);
    AppendOutcome(v, |s.servers|, args);
    assert Sliced(s.reigns, c.from, args) && FullSlice(s.reigns, args);
    DeliveredBefore(s, v.applied, v.currentTerm, v'.currentTerm);
    if Accepts(v, args) && args.leaderCommit > v.commitIndex {
      AcceptCommits(v, |s.servers|, args);
      assert GoodReign(s.reigns, args.term, s.reigns[args.term].log);
      AcceptedLogAgrees(s.reigns, v, args);
      KnownBelow(s, args.leaderCommit, v'.commitIndex, args.term, args.term);
      DeliverMore(s, v.applied, v'.log, v'.commitIndex, args.term);
    } else {
      if Accepts(v, args) {
        AcceptCommits(v, |s.servers|, args);
      }
      KnownBelow(s, v.commitIndex, v'.commitIndex, v.currentTerm, v'.currentTerm);
    }
  }

  /** An index the commit scan selects is held by the majority whose match indices reach it. */
  lemma ScanChooses(s: Cluster, v: Server, N: nat)
    requires WfCluster(s) && Logs(s) && Matched(s, v) && v.role == Leader && |v.matchIndex| == |s.servers|
    requires LeadsWith(s.reigns, v) && N < |v.log| && Committable(v, |s.servers|, N)
    ensures Chosen(s, v.currentTerm, N)
  {
    hide WfCluster, Logs, Held;
    CountIsCardinality(v.matchIndex, N);
    assert HeldByMajority(s, v.currentTerm, N, Reached(v.matchIndex, N));
  }

  lemma SameMatched(s: Cluster, a: Server, b: Server)
    requires Matched(s, b) && a.role == b.role && a.currentTerm == b.currentTerm && a.matchIndex == b.matchIndex
    ensures Matched(s, a)
  {
  }

  lemma KnownFromChosen(s: Cluster, t: nat, k: nat)
    requires Chosen(s, t, k)
    ensures Known(s, k, t)
  {
    assert Covers(s, t, k, k);
  }

  lemma ScanningIsSafe(s: Cluster, q: nat)
    requires Sound(s) && Commits(s) && Enabled(s, ConsumeAppend(q)) && AckInTerm(s, ConsumeAppend(q))
    requires var c := s.appendCalls[q];
             var v := s.servers[c.from];
             v.role == Leader && c.to < |v.nextIndex| && c.to < |v.matchIndex| && Scans(v, c.to, c.reply)
    ensures var c := s.appendCalls[q];
            var v1 := Acknowledged(s.servers[c.from], c.to, c.args, c.reply);
            var v' := Commit(v1, |s.servers|);
            && Known(s, v'.commitIndex, v'.currentTerm) && Delivered(s, v'.applied, v'.currentTerm)
            && var point := CommitScan(v1, |s.servers|, |v1.log|);
               point >= 0 ==> Chosen(s, v1.currentTerm, point)
  {
    hide WfServer, WfVoteCall, Voting, Election, Candidacies, Retention, Replication, Known, Delivered, Deliveries;
    hide Sliced, GoodReign, Anchored, NextBounded, Matched, Chosen;
    var c := s.appendCalls[q];
    var v := s.servers[c.from];
    var v1 := Acknowledged(v, c.to, c.args, c.reply);
    var v' := Commit(v1, |s.servers|);
    LeaderShape(v, |s.servers|);
    AcknowledgedIsWf(v, |s.servers|, c.to, c.args, c.reply);
    CommitOutcome(v1, |s.servers|);
    AckKeepsBounds(s, q);
    assert LeadsWith(s.reigns, v);
    var point := CommitScan(v1, |s.servers|, |v1.log|);
    if point >= 0 {
      SameMatched(s, v1, v');
      ScanChooses(s, v1, point);
      KnownFromChosen(s, v1.currentTerm, point);
      DeliverMore(s, v.applied, v.log, point, v.currentTerm);
    }
  }

  /** A leader that consumes an acknowledgement commits only chosen entries of its own term. */
  lemma ConsumingIsSafe(s: Cluster, q: nat)
    requires Sound(s) && Commits(s) && Enabled(s, ConsumeAppend(q)) && AckInTerm(s, ConsumeAppend(q))
    ensures var c := s.appendCalls[q];
            var v' := OnAppendReply(s.servers[c.from], |s.servers|, c.to, c.args, c.reply);
            Known(s, v'.commitIndex, v'.currentTerm) && Delivered(s, v'.applied, v'.currentTerm)
  {
    hide WfServer, WfVoteCall, Voting, Election, Candidacies, Retention, Replication, Known, Delivered, Agree,
        Deliveries, Sliced;
    var c := s.appendCalls[q];
    var v := s.servers[c.from];
    if v.role == Leader {
      LeaderShape(v, |s.servers|);
      if Scans(v, c.to, c.reply) {
        ScanningIsSafe(s, q);
      }
    }
    hide Commit;
    var term := if c.reply.term > v.currentTerm then c.reply.term else v.currentTerm;
    KnownBelow(s, v.commitIndex, v.commitIndex, v.currentTerm, term);
    DeliveredBefore(s, v.applied, v.currentTerm, term);
  }

  lemma StarterCommits(s: Cluster, s': Cluster, i: nat)
    requires Commits(s) && NoCommit(s, s') && i < |s.servers| && ReignsGrow(s.reigns, s'.reigns) && HeldKept(s, s', i)
    ensures Known(s', s'.servers[i].commitIndex, s'.servers[i].currentTerm)
    ensures Delivered(s', s'.servers[i].applied, s'.servers[i].currentTerm)
  {
    hide Known, Delivered, ReignsGrow, HeldKept;
    assert KeepsCommits(s.servers[i], s'.servers[i]);
    KnownGrows(s, s', i, s.servers[i].commitIndex, s.servers[i].currentTerm, s'.servers[i].currentTerm);
    DeliveredGrows(s, s', i, s.servers[i].applied, s.servers[i].currentTerm, s'.servers[i].currentTerm);
  }

  lemma HandleAppendCommits(s: Cluster, q: nat)
    requires Sound(s) && Commits(s) && Enabled(s, HandleAppend(q))
    requires var s' := DoHandleAppend(s, q);
             ReignsGrow(s.reigns, s'.reigns) && HeldKept(s, s', s.appendCalls[q].to)
    ensures Commits(DoHandleAppend(s, q))
  {
    hide WfServer, WfVoteCall, Voting, Election, Logs, Candidacies, Replication, Retention;
    hide Known, Delivered, Commits, ReignsGrow, HeldKept, OnAppendEntries;
    var s' := DoHandleAppend(s, q);
    var x := s.appendCalls[q].to;
    AcceptingIsSafe(s, q);
    KnownGrows(s, s', x, s'.servers[x].commitIndex, s'.servers[x].currentTerm, s'.servers[x].currentTerm);
    DeliveredGrows(s, s', x, s'.servers[x].applied, s'.servers[x].currentTerm, s'.servers[x].currentTerm);
    CommitsGrow(s, s', x);
  }

  lemma HeldKeptBy(s: Cluster, s': Cluster, x: nat)
    requires HeldKept(s, s', |s.servers|)
    ensures HeldKept(s, s', x)
  {
  }

  lemma ConsumeAppendCommits(s: Cluster, q: nat)
    requires Sound(s) && Commits(s) && Enabled(s, ConsumeAppend(q)) && AckInTerm(s, ConsumeAppend(q))
    requires var s' := DoConsumeAppend(s, q);
             ReignsGrow(s.reigns, s'.reigns) && HeldKept(s, s', |s.servers|)
    ensures Commits(DoConsumeAppend(s, q))
  {
    hide WfServer, WfVoteCall, Voting, Election, Logs, Candidacies, Replication, Retention;
    hide Known, Delivered, Commits, ReignsGrow, HeldKept, OnAppendReply;
    var s' := DoConsumeAppend(s, q);
    var x := s.appendCalls[q].from;
    ConsumingIsSafe(s, q);
    HeldKeptBy(s, s', x);
    KnownGrows(s, s', x, s'.servers[x].commitIndex, s'.servers[x].currentTerm, s'.servers[x].currentTerm);
    DeliveredGrows(s, s', x, s'.servers[x].applied, s'.servers[x].currentTerm, s'.servers[x].currentTerm);
    CommitsGrow(s, s', x);
  }

  lemma CommitsStep(s: Cluster, step: Step)
    requires Sound(s) && Commits(s) && Enabled(s, step) && Admits(IN_TERM_AND_ORDER, s, step)
    ensures Commits(Next(s, step))
  {
    hide WfServer, Voting, Election, Logs, Candidacies, Replication, Retention;
    hide Known, Delivered, Commits, ReignsGrow, HeldKept;
    var s' := Next(s, step);
    LogsStep(s, step);
    ReplicationStep(s, step);
    TermsNeverDecrease(s, step);
    NextKeepsWf(s, step);
    match step
    case Timeout(i) => VotingStepsCommitNothing(s, step); CommitsGrow(s, s', |s.servers|);
    case HandleVote(q) => VotingStepsCommitNothing(s, step); CommitsGrow(s, s', |s.servers|);
    case ConsumeVote(q) => VotingStepsCommitNothing(s, step); CommitsGrow(s, s', |s.servers|);
    case ClientStart(i, command) =>
      StartCommitsNothing(s, i, command);
      StarterCommits(s, s', i);
      CommitsGrow(s, s', i);
    case SendHeartbeats(i) => HeartbeatsCommitNothing(s, i); CommitsGrow(s, s', |s.servers|);
    case HandleAppend(q) => HandleAppendCommits(s, q);
    case ConsumeAppend(q) => ConsumeAppendCommits(s, q);
  }

  lemma {:induction false} CommitsHold(n: nat, steps: seq<Step>)
    requires Run(IN_TERM_AND_ORDER, n, steps).Some?
    ensures Commits(Run(IN_TERM_AND_ORDER, n, steps).value)
  {
    if steps != [] {
      hide Sound, Commits, Enabled, Next;
      var prefix := steps[..|steps| - 1];
      SoundHolds(n, prefix);
      CommitsHold(n, prefix);
      CommitsStep(Run(IN_TERM_AND_ORDER, n, prefix).value, steps[|steps| - 1]);
    }
  }

  // ---------------------------------------------------------------- over whole runs

  lemma AppendExtends(v: Server, args: AppendArgs)
    requires v.log != []
    ensures v.applied <= OnAppendEntries(v, args).0.applied
  {
  }

  lemma ReplyExtends(v: Server, n: nat, peer: nat, args: AppendArgs, reply: AppendReply)
    requires v.role == Leader ==> peer < |v.nextIndex| && peer < |v.matchIndex|
    ensures v.applied <= OnAppendReply(v, n, peer, args, reply).applied
  {
    hide CommitScan;
  }

  ghost predicate Extends(s: Cluster, s': Cluster) {
    |s'.servers| == |s.servers| && forall v :: 0 <= v < |s.servers| ==> s.servers[v].applied <= s'.servers[v].applied
  }

  lemma HandleAppendExtends(s: Cluster, q: nat)
    requires WfCluster(s) && Enabled(s, HandleAppend(q))
    ensures Extends(s, DoHandleAppend(s, q))
  {
    hide OnAppendEntries, WfVoteCall;
    AppendExtends(s.servers[s.appendCalls[q].to], s.appendCalls[q].args);
  }

  lemma ConsumeAppendExtends(s: Cluster, q: nat)
    requires WfCluster(s) && Enabled(s, ConsumeAppend(q))
    ensures Extends(s, DoConsumeAppend(s, q))
  {
    hide OnAppendReply, WfVoteCall, WfLog;
    var c := s.appendCalls[q];
    ReplyExtends(s.servers[c.from], |s.servers|, c.to, c.args, c.reply);
  }

  lemma OtherStepsExtend(s: Cluster, step: Step)
    requires WfCluster(s) && Enabled(s, step) && !step.HandleAppend? && !step.ConsumeAppend?
    ensures Extends(s, Next(s, step))
  {
    hide WfLog, WfServer, VoteCalls, HeartbeatCalls, ZeroCalls;
  }

  lemma DeliveriesExtend(s: Cluster, step: Step)
    requires WfCluster(s) && Enabled(s, step)
    ensures Extends(s, Next(s, step))
  {
    hide WfCluster, Extends, DoHandleAppend, DoConsumeAppend;
    match step
    case HandleAppend(q) => HandleAppendExtends(s, q);
    case ConsumeAppend(q) => ConsumeAppendExtends(s, q);
    case _ => OtherStepsExtend(s, step);
  }

  /** What a peer has sent on applyCh is never retracted. */
  lemma {:induction false} AppliedForever(premise: Premise, n: nat, steps: seq<Step>, i: nat, v: nat)
    requires i <= |steps| && Run(premise, n, steps).Some? && v < n
    ensures Run(premise, n, steps[..i]).Some?
    ensures Run(premise, n, steps[..i]).value.servers[v].applied <= Run(premise, n, steps).value.servers[v].applied
  {
    hide WfCluster, Next, Enabled, Admits;
    if i == |steps| {
      assert steps[..i] == steps;
    } else {
      var prefix := steps[..|steps| - 1];
      AppliedForever(premise, n, prefix, i, v);
      assert prefix[..i] == steps[..i];
      DeliveriesExtend(Run(premise, n, prefix).value, steps[|steps| - 1]);
    }
  }

  lemma SameDeliveries(s: Cluster, a: nat, b: nat, index: nat)
    requires Sound(s) && Commits(s) && a < |s.servers| && b < |s.servers|
    requires index < |s.servers[a].applied| && index < |s.servers[b].applied|
    ensures s.servers[a].applied[index] == s.servers[b].applied[index]
  {
    hide Voting, Election, Logs, Candidacies, Replication, Retention, Chosen, WfLog;
    var t: nat, k: nat :| DeliveredFrom(s, t, k, s.servers[a].applied) && t <= s.servers[a].currentTerm;
    var t': nat, k': nat :| DeliveredFrom(s, t', k', s.servers[b].applied) && t' <= s.servers[b].currentTerm;
    assert Covers(s, t, k, |s.servers[a].applied|) && Covers(s, t', k', |s.servers[b].applied|);
    ChosenAgree(s, t, k, t', k', index + 1);
    assert WfServer(s.servers[a], |s.servers|) && WfServer(s.servers[b], |s.servers|);
  }

  /** State Machine Safety: whatever two peers apply at an index, at whatever moments, is the same command. */
  lemma StateMachineSafety(n: nat, steps: seq<Step>, i: nat, j: nat, a: nat, b: nat, index: nat)
    requires Run(IN_TERM_AND_ORDER, n, steps).Some? && i <= |steps| && j <= |steps| && a < n && b < n
    requires Run(IN_TERM_AND_ORDER, n, steps[..i]).Some? && Run(IN_TERM_AND_ORDER, n, steps[..j]).Some?
    requires index < |Run(IN_TERM_AND_ORDER, n, steps[..i]).value.servers[a].applied|
    requires index < |Run(IN_TERM_AND_ORDER, n, steps[..j]).value.servers[b].applied|
    ensures Run(IN_TERM_AND_ORDER, n, steps[..i]).value.servers[a].applied[index]
         == Run(IN_TERM_AND_ORDER, n, steps[..j]).value.servers[b].applied[index]
  {
    AppliedForever(IN_TERM_AND_ORDER, n, steps, i, a);
    AppliedForever(IN_TERM_AND_ORDER, n, steps, j, b);
    SoundHolds(n, steps);
    CommitsHold(n, steps);
    hide Run;
    SameDeliveries(Run(IN_TERM_AND_ORDER, n, steps).value, a, b, index);
  }

  ghost predicate AllApplyFrom(servers: seq<Server>, k: nat, log: seq<ApplyMsg>)
    requires k <= |servers|
  {
    forall v :: 0 <= v < k ==> servers[v].applied <= log
  }

  lemma {:induction false} Longest(servers: seq<Server>, k: nat) returns (log: seq<ApplyMsg>)
    requires k <= |servers|
    requires forall a: nat, b: nat, index: nat ::
      a < k && b < k && index < |servers[a].applied| && index < |servers[b].applied|
      ==> servers[a].applied[index] == servers[b].applied[index]
    ensures AllApplyFrom(servers, k, log)
    ensures log == [] || exists v :: 0 <= v < k && servers[v].applied == log
  {
    if k == 0 {
      log := [];
    } else {
      log := Longest(servers, k - 1);
      if |log| < |servers[k - 1].applied| {
        log := servers[k - 1].applied;
      }
    }
  }

  /** What the peers have applied are prefixes of one log. */
  lemma OneAppliedLog(n: nat, steps: seq<Step>)
    requires Run(IN_TERM_AND_ORDER, n, steps).Some?
    ensures exists log :: AllApplyFrom(Run(IN_TERM_AND_ORDER, n, steps).value.servers, n, log)
  {
    SoundHolds(n, steps);
    CommitsHold(n, steps);
    hide Run, Sound, Commits;
    var s := Run(IN_TERM_AND_ORDER, n, steps).value;
    forall a: nat, b: nat, index: nat
      | a < n && b < n && index < |s.servers[a].applied| && index < |s.servers[b].applied|
      ensures s.servers[a].applied[index] == s.servers[b].applied[index]
    {
      SameDeliveries(s, a, b, index);
    }
    var log := Longest(s.servers, n);
  }

  lemma ReignsGrowTransitively(r0: map<nat, Reign>, r1: map<nat, Reign>, r2: map<nat, Reign>)
    requires ReignsGrow(r0, r1) && ReignsGrow(r1, r2)
    ensures ReignsGrow(r0, r2)
  {
    forall t | t in r0
      ensures Agree(r0[t].log, r2[t].log, |r0[t].log|) && OwnTail(r2[t].log, t, |r0[t].log|)
    {
      assert Agree(r0[t].log, r1[t].log, |r0[t].log|) && Agree(r1[t].log, r2[t].log, |r1[t].log|);
      forall k | |r0[t].log| <= k < |r2[t].log|
        ensures r2[t].log[k].term == t
      {
        assert k < |r1[t].log| ==> r1[t].log[k].term == t;
      }
    }
  }

  lemma SoundParts(s: Cluster)
    requires Sound(s)
    ensures WfCluster(s) && Voting(s) && Election(s) && Logs(s) && Replication(s)
  {
    hide WfCluster, Voting, Election, Logs, Candidacies, Replication, Retention;
  }

  /** Leaders' logs only grow, and what was chosen stays chosen. */
  lemma {:induction false} ChosenForever(n: nat, steps: seq<Step>, i: nat)
    requires i <= |steps| && Run(IN_TERM_AND_ORDER, n, steps).Some?
    ensures Run(IN_TERM_AND_ORDER, n, steps[..i]).Some?
    ensures ReignsGrow(Run(IN_TERM_AND_ORDER, n, steps[..i]).value.reigns,
                       Run(IN_TERM_AND_ORDER, n, steps).value.reigns)
    ensures forall t, k :: Chosen(Run(IN_TERM_AND_ORDER, n, steps[..i]).value, t, k) ==>
            Chosen(Run(IN_TERM_AND_ORDER, n, steps).value, t, k)
  {
    hide Sound, Chosen, ReignsGrow, Enabled, Next, WfCluster, HeldKept, Logs, Voting, Election, Replication,
        Candidacies, Retention;
    if i == |steps| {
      assert steps[..i] == steps;
      SameReignsGrow(Run(IN_TERM_AND_ORDER, n, steps).value.reigns);
    } else {
      var prefix := steps[..|steps| - 1];
      var step := steps[|steps| - 1];
      ChosenForever(n, prefix, i);
      assert prefix[..i] == steps[..i];
      SoundHolds(n, prefix);
      var s, s' := Run(IN_TERM_AND_ORDER, n, prefix).value, Run(IN_TERM_AND_ORDER, n, steps).value;
      SoundParts(s);
      LogsStep(s, step);
      ReplicationStep(s, step);
      ReignsGrowTransitively(Run(IN_TERM_AND_ORDER, n, steps[..i]).value.reigns, s.reigns, s'.reigns);
      forall t, k | Chosen(s, t, k)
        ensures Chosen(s', t, k)
      {
        ChosenGrows(s, s', Holder(s, step), t, k);
      }
    }
  }

  ghost predicate SelectsIndex(s: Cluster, c: AppendCall, N: nat)
    requires c.from < |s.servers|
  {
    var v := s.servers[c.from];
    && v.role == Leader && c.to < |v.nextIndex| && c.to < |v.matchIndex|
    && Scans(v, c.to, c.reply)
    && CommitScan(Acknowledged(v, c.to, c.args, c.reply), |s.servers|, |v.log|) == N
  }

  /** Step i of the run is a leader's commit scan that selects index N. */
  ghost predicate CommitsAt(n: nat, steps: seq<Step>, i: nat, a: nat, N: nat) {
    && i < |steps| && steps[i].ConsumeAppend? && Run(IN_TERM_AND_ORDER, n, steps[..i]).Some?
    && var s := Run(IN_TERM_AND_ORDER, n, steps[..i]).value;
       && steps[i].q < |s.appendCalls| && s.appendCalls[steps[i].q].from == a && a < n
       && SelectsIndex(s, s.appendCalls[steps[i].q], N)
  }

  lemma SelectedIsChosen(s: Cluster, q: nat, N: nat)
    requires Sound(s) && Commits(s) && Enabled(s, ConsumeAppend(q)) && AckInTerm(s, ConsumeAppend(q))
    requires SelectsIndex(s, s.appendCalls[q], N)
    ensures var v := s.servers[s.appendCalls[q].from];
            && N < |v.log| && v.log[N].term == v.currentTerm && Chosen(s, v.currentTerm, N)
            && v.currentTerm in s.reigns && s.reigns[v.currentTerm].log == v.log
  {
    hide Sound, Commits, WfServer, WfVoteCall, Chosen, Known, Delivered, Commit, Deliveries, CommitScan;
    SoundParts(s);
    hide Voting, Election, Replication, Anchored, Sliced, GoodReign;
    var c := s.appendCalls[q];
    ScanningIsSafe(s, q);
    assert LeadsWith(s.reigns, s.servers[c.from]);
  }

  lemma LaterLogHas(early: seq<Entry>, grown: seq<Entry>, later: seq<Entry>, laterGrown: seq<Entry>, t: nat, u: nat,
                    N: nat)
    requires Agree(early, grown, |early|) && Agree(later, laterGrown, |later|) && OwnTail(laterGrown, u, |later|)
    requires N < |early| && early[N].term == t && t != u && Agree(grown, laterGrown, N + 1)
    ensures N < |later| && later[..N + 1] == early[..N + 1]
  {
  }

  lemma LaterLeaderHasSelected(si: Cluster, q: nat, N: nat, sj: Cluster, b: nat, s: Cluster)
    requires Sound(si) && Commits(si) && Enabled(si, ConsumeAppend(q)) && AckInTerm(si, ConsumeAppend(q))
    requires SelectsIndex(si, si.appendCalls[q], N)
    requires Sound(s) && ReignsGrow(si.reigns, s.reigns) && ReignsGrow(sj.reigns, s.reigns)
    requires forall t, k :: Chosen(si, t, k) ==> Chosen(s, t, k)
    requires Logs(sj) && b < |sj.servers| && sj.servers[b].role == Leader
    requires si.servers[si.appendCalls[q].from].currentTerm < sj.servers[b].currentTerm
    ensures var committed, later := si.servers[si.appendCalls[q].from].log, sj.servers[b].log;
            N < |committed| && N < |later| && later[..N + 1] == committed[..N + 1]
  {
    hide Sound, Commits, WfServer, WfVoteCall, Chosen, Agree, OwnTail, Anchored, Sliced, GoodReign, SelectsIndex,
        AckInTerm;
    hide Voting, Election, Replication;
    SoundParts(si);
    var v, w := si.servers[si.appendCalls[q].from], sj.servers[b];
    SelectedIsChosen(si, q, N);
    assert LeadsWith(sj.reigns, w);
    LeaderHasChosen(s, v.currentTerm, N, w.currentTerm);
    LaterLogHas(v.log, s.reigns[v.currentTerm].log, w.log, s.reigns[w.currentTerm].log, v.currentTerm, w.currentTerm,
        N);
  }

  /** Leader Completeness: what a leader's scan commits is in the log of every leader of every later term. */
  lemma LeaderCompleteness(n: nat, steps: seq<Step>, i: nat, a: nat, N: nat, j: nat, b: nat, term: nat)
    requires Run(IN_TERM_AND_ORDER, n, steps).Some? && CommitsAt(n, steps, i, a, N)
    requires LeadsAt(IN_TERM_AND_ORDER, n, steps, j, b, term)
    requires Run(IN_TERM_AND_ORDER, n, steps[..i]).value.servers[a].currentTerm < term
    ensures var committed := Run(IN_TERM_AND_ORDER, n, steps[..i]).value.servers[a].log;
            var later := Run(IN_TERM_AND_ORDER, n, steps[..j]).value.servers[b].log;
            N < |committed| && N < |later| && later[..N + 1] == committed[..N + 1]
  {
    hide Run, Sound, Commits, ReignsGrow, WfCluster, Logs, Voting, Election, Replication, Chosen, Enabled, SelectsIndex;
    StepHappened(IN_TERM_AND_ORDER, n, steps, i);
    ChosenForever(n, steps, i);
    ChosenForever(n, steps, j);
    SoundHolds(n, steps[..i]);
    CommitsHold(n, steps[..i]);
    SoundHolds(n, steps[..j]);
    SoundHolds(n, steps);
    SoundParts(Run(IN_TERM_AND_ORDER, n, steps[..j]).value);
    LaterLeaderHasSelected(Run(IN_TERM_AND_ORDER, n, steps[..i]).value, steps[i].q, N,
                           Run(IN_TERM_AND_ORDER, n, steps[..j]).value, b, Run(IN_TERM_AND_ORDER, n, steps).value);
  }

  lemma LaterLeaderHasApplied(si: Cluster, a: nat, index: nat, sj: Cluster, b: nat, s: Cluster)
    requires Sound(s) && Commits(si) && a < |si.servers| && index < |si.servers[a].applied|
    requires ReignsGrow(si.reigns, s.reigns) && ReignsGrow(sj.reigns, s.reigns)
    requires forall t, k :: Chosen(si, t, k) ==> Chosen(s, t, k)
    requires Logs(sj) && b < |sj.servers| && sj.servers[b].role == Leader
    requires si.servers[a].currentTerm < sj.servers[b].currentTerm
    ensures index + 1 < |sj.servers[b].log|
    ensures sj.servers[b].log[index + 1].command == si.servers[a].applied[index].command
  {
    hide Sound, Known, WfServer, WfVoteCall, OwnTail, Anchored, Sliced, GoodReign, Held, IsMajority;
    var v, w := si.servers[a], sj.servers[b];
    var t: nat, k: nat :| DeliveredFrom(si, t, k, v.applied) && t <= v.currentTerm;
    assert Covers(si, t, k, |v.applied|);
    assert si.reigns[t].log[k].term == t;
    assert LeadsWith(sj.reigns, w);
    LeaderHasChosen(s, t, k, w.currentTerm);
    LaterLogHas(si.reigns[t].log, s.reigns[t].log, w.log, s.reigns[w.currentTerm].log, t, w.currentTerm, k);
    assert w.log[index + 1] == w.log[..k + 1][index + 1];
  }

  /** What a peer has applied, whenever it did, is in the log of every leader of every later term. */
  lemma AppliedIsComplete(n: nat, steps: seq<Step>, i: nat, a: nat, index: nat, j: nat, b: nat, term: nat)
    requires Run(IN_TERM_AND_ORDER, n, steps).Some? && i <= |steps| && a < n
    requires Run(IN_TERM_AND_ORDER, n, steps[..i]).Some?
    requires index < |Run(IN_TERM_AND_ORDER, n, steps[..i]).value.servers[a].applied|
    requires LeadsAt(IN_TERM_AND_ORDER, n, steps, j, b, term)
    requires Run(IN_TERM_AND_ORDER, n, steps[..i]).value.servers[a].currentTerm < term
    ensures var applied := Run(IN_TERM_AND_ORDER, n, steps[..i]).value.servers[a].applied;
            var later := Run(IN_TERM_AND_ORDER, n, steps[..j]).value.servers[b].log;
            index + 1 < |later| && later[index + 1].command == applied[index].command
  {
    hide Run, Sound, Commits, ReignsGrow, WfCluster, Logs, Voting, Election, Replication, Chosen;
    ChosenForever(n, steps, i);
    ChosenForever(n, steps, j);
    CommitsHold(n, steps[..i]);
    SoundHolds(n, steps[..j]);
    SoundHolds(n, steps);
    SoundParts(Run(IN_TERM_AND_ORDER, n, steps[..j]).value);
    LaterLeaderHasApplied(Run(IN_TERM_AND_ORDER, n, steps[..i]).value, a, index,
                          Run(IN_TERM_AND_ORDER, n, steps[..j]).value, b, Run(IN_TERM_AND_ORDER, n, steps).value);
  }
}
