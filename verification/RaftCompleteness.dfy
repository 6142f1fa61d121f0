/**
 Leader Completeness (extended Raft paper, section 5.4): what a majority has held in a term is
 in the log of every leader of every later term.

 The invariant is stated for every entry, committed or not: a peer that held entry k of term t
 still has it, or some leader since then did not.  Quorum intersection with the votes of a later
 leader then rules out the second case for entries a majority held.
 */
module RaftCompleteness {
  import opened RaftServer
  import opened RaftCluster
  import opened RaftElection
  import opened RaftLogs
  import opened RaftBallots
  import opened RaftAcks

  /** Index k of the log of term t's leader was created by that leader. */
  ghost predicate Own(reigns: map<nat, Reign>, t: nat, k: nat) {
    t in reigns && k < |reigns[t].log| && reigns[t].log[k].term == t
  }

  /** Some leader between term t and term hi lacks entry k of term t. */
  ghost predicate Overwritten(reigns: map<nat, Reign>, t: nat, k: nat, hi: nat)
    requires t in reigns
  {
    exists u :: t < u < hi && u in reigns && !Agree(reigns[t].log, reigns[u].log, k + 1)
  }

  ghost predicate KeptAt(reigns: map<nat, Reign>, t: nat, k: nat, log: seq<Entry>, hi: nat)
    requires t in reigns
  {
    Agree(reigns[t].log, log, k + 1) || Overwritten(reigns, t, k, hi)
  }

  /** Whatever peer v held in terms below `bound` is in `log`, unless overwritten by a leader below `hi`. */
  ghost predicate Keeps(s: Cluster, v: nat, log: seq<Entry>, bound: nat, hi: nat) {
    forall t: nat, k: nat :: Own(s.reigns, t, k) && t < bound && k < Held(s, t, v) ==> KeptAt(s.reigns, t, k, log, hi)
  }

  ghost predicate KeepsNow(s: Cluster, v: nat, server: Server) {
    Keeps(s, v, server.log, server.currentTerm + 1, server.currentTerm + 1)
  }

  /** A voter of a winner had kept what it held, unless a leader before the winner overwrote it. */
  ghost predicate ElectedOver(s: Cluster, t: nat, v: nat) {
    (t, v) in s.ballots && Keeps(s, v, s.ballots[(t, v)].log, t, t)
  }

  ghost predicate Retention(s: Cluster) {
    && (forall v :: 0 <= v < |s.servers| ==> KeepsNow(s, v, s.servers[v]))
    && (forall t, v :: (t, v) in s.ballots ==> Keeps(s, v, s.ballots[(t, v)].log, t, t + 1))
    && (forall t, v :: t in s.reigns && v in s.reigns[t].voters ==> ElectedOver(s, t, v))
  }

  // ---------------------------------------------------------------- growth

  lemma OverwrittenGrows(r: map<nat, Reign>, r': map<nat, Reign>, t: nat, k: nat, hi: nat, hi': nat)
    requires ReignsGrow(r, r') && Own(r, t, k) && Overwritten(r, t, k, hi) && hi <= hi'
    ensures Overwritten(r', t, k, hi')
  {
    var u :| t < u < hi && u in r && !Agree(r[t].log, r[u].log, k + 1);
    assert Agree(r[t].log, r'[t].log, |r[t].log|) && Agree(r[u].log, r'[u].log, |r[u].log|);
    assert OwnTail(r'[u].log, u, |r[u].log|);
    assert !Agree(r'[t].log, r'[u].log, k + 1);
  }

  lemma KeptAtGrows(r: map<nat, Reign>, r': map<nat, Reign>, t: nat, k: nat, log: seq<Entry>, hi: nat, hi': nat)
    requires ReignsGrow(r, r') && Own(r, t, k) && KeptAt(r, t, k, log, hi) && hi <= hi'
    ensures Own(r', t, k) && KeptAt(r', t, k, log, hi')
  {
    assert Agree(r[t].log, r'[t].log, |r[t].log|);
    if !Agree(r[t].log, log, k + 1) {
      OverwrittenGrows(r, r', t, k, hi, hi');
    }
  }

  /** Below `bound` peer v holds no more than before, and new reigns have no entries of their own yet. */
  ghost predicate HoldsNoMore(s: Cluster, s': Cluster, v: nat, bound: nat) {
    && (forall t :: t in s.reigns && t < bound ==>
        Held(s', t, v) == Held(s, t, v) && Held(s, t, v) <= |s.reigns[t].log|)
    && (forall t: nat, k: nat :: Own(s'.reigns, t, k) ==> t in s.reigns)
  }

  lemma KeepsGrows(s: Cluster, s': Cluster, v: nat, log: seq<Entry>, bound: nat, hi: nat, hi': nat)
    requires Keeps(s, v, log, bound, hi) && ReignsGrow(s.reigns, s'.reigns) && HoldsNoMore(s, s', v, bound) && hi <= hi'
    ensures Keeps(s', v, log, bound, hi')
  {
    hide Held, KeptAt;
    forall t: nat, k: nat | Own(s'.reigns, t, k) && t < bound && k < Held(s', t, v)
      ensures KeptAt(s'.reigns, t, k, log, hi')
    {
      assert Agree(s.reigns[t].log, s'.reigns[t].log, |s.reigns[t].log|);
      assert Own(s.reigns, t, k);
      KeptAtGrows(s.reigns, s'.reigns, t, k, log, hi, hi');
    }
  }

  /** A peer holds nothing of terms it has not reached. */
  lemma NothingHeldAhead(s: Cluster, t: nat, k: nat, v: nat)
    requires Reigns(s) && Logs(s) && Replication(s) && v < |s.servers|
    requires Own(s.reigns, t, k) && s.servers[v].currentTerm < t
    ensures k >= Held(s, t, v)
  {
    hide Anchored, FullSlice, Ordered, NextBounded, Matched, AckRecorded, Sliced, LeadsWith;
    assert Elected(s, t, s.reigns[t]) && GoodReign(s.reigns, t, s.reigns[t].log);
    assert (t, v) in s.lastAck ==> AckNames(s, t, v, s.lastAck[(t, v)]);
  }

  lemma HeldWithinReign(s: Cluster, t: nat, v: nat)
    requires Logs(s) && Replication(s) && t in s.reigns
    ensures Held(s, t, v) <= |s.reigns[t].log|
  {
    hide Anchored, Ordered, NextBounded, Matched, AckRecorded, Sliced, LeadsWith;
    assert GoodReign(s.reigns, t, s.reigns[t].log);
    if (t, v) in s.lastAck {
      assert AckNames(s, t, v, s.lastAck[(t, v)]);
      assert FullSlice(s.reigns, s.appendCalls[s.lastAck[(t, v)]].args);
    }
  }

  /** Moving to a higher term keeps what is kept. */
  lemma KeepsRaised(s: Cluster, v: nat, term: nat)
    requires Reigns(s) && Logs(s) && Replication(s) && v < |s.servers| && KeepsNow(s, v, s.servers[v])
    requires s.servers[v].currentTerm <= term
    ensures Keeps(s, v, s.servers[v].log, term + 1, term + 1)
  {
    hide Reigns, Logs, Replication, Held;
    var server := s.servers[v];
    forall t: nat, k: nat | Own(s.reigns, t, k) && t < term + 1 && k < Held(s, t, v)
      ensures KeptAt(s.reigns, t, k, server.log, term + 1)
    {
      if t > server.currentTerm {
        NothingHeldAhead(s, t, k, v);
      } else {
        assert KeptAt(s.reigns, t, k, server.log, server.currentTerm + 1);
      }
    }
  }

  // ---------------------------------------------------------------- the theorem about one state

  ghost predicate HeldByMajority(s: Cluster, t: nat, k: nat, quorum: set<nat>) {
    && Own(s.reigns, t, k)
    && IsMajority(quorum, |s.servers|)
    && forall v :: v in quorum ==> k < Held(s, t, v)
  }

  ghost predicate Sound(s: Cluster) {
    WfCluster(s) && Voting(s) && Election(s) && Logs(s) && Candidacies(s) && Replication(s) && Retention(s)
  }

  /** A log at least as up to date as one that has the entry has it too, if the leader of its last term does. */
  lemma UpToDateLogHasEntry(reigns: map<nat, Reign>, t: nat, k: nat, run: seq<Entry>, voted: seq<Entry>)
    requires WfLog(run) && Anchored(reigns, run) && WfLog(voted) && Anchored(reigns, voted)
    requires Own(reigns, t, k) && t > 0 && Agree(reigns[t].log, voted, k + 1)
    requires UpToDate(|run| - 1, LastTerm(run), voted)
    requires LastTerm(run) in reigns ==> WfLog(reigns[LastTerm(run)].log)
    requires LastTerm(run) in reigns && t < LastTerm(run) ==> Agree(reigns[t].log, reigns[LastTerm(run)].log, k + 1)
    ensures Agree(reigns[t].log, run, k + 1)
  {
    assert voted[k].term == t && k > 0 && LastTerm(voted) >= t;
    var w := LastTerm(run);
    assert |run| > 1;
    assert Agree(run, reigns[w].log, |run|);
    if w == LastTerm(voted) {
      assert Agree(voted, reigns[w].log, |voted|);
    } else {
      assert reigns[w].log[|run| - 1].term == w && reigns[w].log[k].term == t;
      assert k < |run|;
    }
  }

  lemma AgreeThrough(a: seq<Entry>, b: seq<Entry>, c: seq<Entry>, k: nat)
    requires Agree(a, b, k) && Agree(b, c, |b|)
    ensures Agree(a, c, k)
  {
  }

  lemma {:induction false} LaterLeadersHave(s: Cluster, t: nat, k: nat, quorum: set<nat>, u: nat)
    requires Sound(s) && HeldByMajority(s, t, k, quorum) && u in s.reigns && t < u
    ensures Agree(s.reigns[t].log, s.reigns[u].log, k + 1)
    decreases u
  {
    hide WfCluster, Voting, Tallied, CallsUncounted, CallsDistinct, Replication, Held, Agree, WfLog, Anchored, UpToDate;
    hide Describes, StillRuns, LeadsWith, Sliced, Remembered;
    assert Elected(s, u, s.reigns[u]) && StartsWithRun(s.ballots, u, s.reigns[u]);
    var v := MajoritiesIntersect(quorum, s.reigns[u].voters, |s.servers|);
    assert ElectedOver(s, u, v) && VotedFor(s.ballots, u, v, s.reigns[u].leader);
    var run, voted := s.ballots[(u, s.reigns[u].leader)].log, s.ballots[(u, v)].log;
    assert GoodBallot(s.reigns, s.ballots, u, s.ballots[(u, v)]);
    assert GoodBallot(s.reigns, s.ballots, u, s.ballots[(u, s.reigns[u].leader)]);
    assert KeptAt(s.reigns, t, k, voted, u);
    if !Agree(s.reigns[t].log, voted, k + 1) {
      var w :| t < w < u && w in s.reigns && !Agree(s.reigns[t].log, s.reigns[w].log, k + 1);
      LaterLeadersHave(s, t, k, quorum, w);
    }
    var w := LastTerm(run);
    if w in s.reigns {
      assert GoodReign(s.reigns, w, s.reigns[w].log);
      if t < w {
        LaterLeadersHave(s, t, k, quorum, w);
      }
    }
    assert GoodReign(s.reigns, t, s.reigns[t].log);
    UpToDateLogHasEntry(s.reigns, t, k, run, voted);
    AgreeThrough(s.reigns[t].log, run, s.reigns[u].log, k + 1);
  }

  // ---------------------------------------------------------------- what every step retains

  ghost predicate NoNewOwn(r: map<nat, Reign>, r': map<nat, Reign>) {
    forall t: nat, k: nat :: Own(r', t, k) ==> t in r
  }

  lemma OthersHoldNoMore(s: Cluster, s': Cluster, x: nat, v: nat, bound: nat)
    requires Logs(s) && Replication(s) && HeldKept(s, s', x) && NoNewOwn(s.reigns, s'.reigns) && v < |s.servers|
    requires v != x || bound <= s.servers[v].currentTerm
    ensures HoldsNoMore(s, s', v, bound)
  {
    hide Logs, Replication, Held;
    forall t | t in s.reigns && t < bound
      ensures Held(s', t, v) == Held(s, t, v) && Held(s, t, v) <= |s.reigns[t].log|
    {
      HeldWithinReign(s, t, v);
    }
  }

  /** Peers other than x, past ballots and past elections retain what they retained. */
  lemma OthersRetain(s: Cluster, s': Cluster, x: nat)
    requires Voting(s) && Reigns(s) && Logs(s) && Replication(s) && Retention(s)
    requires ReignsGrow(s.reigns, s'.reigns) && NoNewOwn(s.reigns, s'.reigns) && HeldKept(s, s', x)
             && BallotsKept(s, s')
    requires |s'.servers| == |s.servers|
    requires forall v :: 0 <= v < |s.servers| && v != x ==>
               s'.servers[v].log == s.servers[v].log && s.servers[v].currentTerm <= s'.servers[v].currentTerm
    ensures forall v :: 0 <= v < |s.servers| && v != x ==> KeepsNow(s', v, s'.servers[v])
    ensures forall t, v :: (t, v) in s.ballots ==> Keeps(s', v, s'.ballots[(t, v)].log, t, t + 1)
    ensures forall t, v :: t in s.reigns && v in s.reigns[t].voters ==> ElectedOver(s', t, v)
  {
    hide Reigns, Logs, Replication, ReignsGrow, NoNewOwn, HeldKept, Keeps, HoldsNoMore, Remembered, Reported;
    forall v | 0 <= v < |s.servers| && v != x
      ensures KeepsNow(s', v, s'.servers[v])
    {
      var term := s'.servers[v].currentTerm;
      KeepsRaised(s, v, term);
      OthersHoldNoMore(s, s', x, v, term + 1);
      KeepsGrows(s, s', v, s.servers[v].log, term + 1, term + 1, term + 1);
    }
    forall t, v | (t, v) in s.ballots
      ensures Keeps(s', v, s'.ballots[(t, v)].log, t, t + 1)
    {
      OthersHoldNoMore(s, s', x, v, t);
      KeepsGrows(s, s', v, s.ballots[(t, v)].log, t, t + 1, t + 1);
    }
    forall t, v | t in s.reigns && v in s.reigns[t].voters
      ensures ElectedOver(s', t, v)
    {
      assert ElectedOver(s, t, v);
      OthersHoldNoMore(s, s', x, v, t);
      KeepsGrows(s, s', v, s.ballots[(t, v)].log, t, t, t);
    }
  }

  /** Only the holder of a step has its log changed. */
  lemma OthersKeepLogs(s: Cluster, step: Step)
    requires WfCluster(s) && Enabled(s, step)
    ensures |Next(s, step).servers| == |s.servers|
    ensures forall v :: 0 <= v < |s.servers| && v != Holder(s, step) ==>
            Next(s, step).servers[v].log == s.servers[v].log
  {
    hide WfServer;
    match step
    case Timeout(i) => TimeoutKeepsLogs(s, i);
    case HandleVote(q) => HandleVoteKeepsLogs(s, q);
    case ConsumeVote(q) => {}
    case ClientStart(i, command) => {}
    case SendHeartbeats(i) => {}
    case HandleAppend(q) => {}
    case ConsumeAppend(q) => ConsumeAppendKeepsLogs(s, q);
  }

  /** A new reign begins without entries of its own term. */
  lemma NoOwnOnWinning(s: Cluster, q: nat)
    requires WfCluster(s) && Logs(s) && Tallied(s) && Voting(s) && Candidacies(s) && Enabled(s, ConsumeVote(q))
    requires Wins(s, s.voteCalls[q]) ==> s.servers[s.voteCalls[q].from].currentTerm !in s.reigns
    ensures NoNewOwn(s.reigns, DoConsumeVote(s, q).reigns)
  {
    hide Anchored, WfServer, GoodReign, Describes, Sliced, LeadsWith, Tally, Voting;
    if Wins(s, s.voteCalls[q]) {
      var c := s.voteCalls[q];
      var v := s.servers[c.from];
      WinnerRan(s, c);
      assert StillRuns(s.reigns, s.ballots, c.from, v);
      WellFormedLog(v, |s.servers|);
      assert forall k :: 0 <= k < |v.log| ==> v.log[k].term <= LastTerm(v.log) < v.currentTerm;
    }
  }

  lemma NoOwnOtherwise(s: Cluster, step: Step)
    requires WfCluster(s) && Enabled(s, step) && !step.ConsumeVote?
    ensures NoNewOwn(s.reigns, Next(s, step).reigns)
  {
    hide WfServer, WfAppendCall, WfVoteCall;
    assert Next(s, step).reigns.Keys == s.reigns.Keys;
  }

  /** The new ballot of a step is by a voter that kept what it held. */
  lemma NewBallotsRetain(s: Cluster, step: Step)
    requires WfCluster(s) && Voting(s) && Reigns(s) && Logs(s) && Replication(s) && Retention(s) && Enabled(s, step)
    requires step.Timeout? || step.HandleVote?
    ensures var s' := Next(s, step);
            forall t, v :: (t, v) in s'.ballots && (t, v) !in s.ballots ==>
              v < |s.servers| && Keeps(s, v, s'.ballots[(t, v)].log, t, t + 1)
  {
    hide WfServer, WfAppendCall, Voting, Reigns, Logs, Replication, Held;
    var s' := Next(s, step);
    match step
    case Timeout(i) =>
      KeepsRaised(s, i, s.servers[i].currentTerm + 1);
    case HandleVote(q) =>
      var c := s.voteCalls[q];
      var v := s.servers[c.to];
      VoteOutcome(v, |s.servers|, c.args);
      hide OnRequestVote;
      if v.currentTerm <= c.args.term {
        KeepsRaised(s, c.to, c.args.term);
      }
  }

  /** The voters of a new reign had kept what they held, up to leaders before it. */
  lemma NewReignRetains(s: Cluster, q: nat)
    requires WfCluster(s) && Retention(s) && Enabled(s, ConsumeVote(q)) && Tallied(DoConsumeVote(s, q))
    requires Wins(s, s.voteCalls[q]) && s.servers[s.voteCalls[q].from].currentTerm !in s.reigns
    ensures var c := s.voteCalls[q];
            var t := s.servers[c.from].currentTerm;
            forall v :: v in Counted(s, c) ==>
                v < |s.servers| && (t, v) in s.ballots && Keeps(s, v, s.ballots[(t, v)].log, t, t)
  {
    hide WfServer, WfAppendCall, Held;
    var s' := DoConsumeVote(s, q);
    var c := s.voteCalls[q];
    var t := s.servers[c.from].currentTerm;
    assert Tally(s'.ballots, |s.servers|, c.from, s'.servers[c.from], s'.granters[c.from]);
    forall v | v in Counted(s, c)
      ensures v < |s.servers| && (t, v) in s.ballots && Keeps(s, v, s.ballots[(t, v)].log, t, t)
    {
      assert VotedFor(s'.ballots, t, v, c.from);
      assert Keeps(s, v, s.ballots[(t, v)].log, t, t + 1);
    }
  }

  /** A leader that starts a command holds its own log entirely. */
  lemma StarterRetains(s: Cluster, i: nat, command: Command)
    requires WfCluster(s) && Reigns(s) && Logs(s) && Replication(s) && Retention(s) && i < |s.servers|
    requires ReignsGrow(s.reigns, DoStart(s, i, command).reigns) && HeldKept(s, DoStart(s, i, command), i)
    ensures KeepsNow(DoStart(s, i, command), i, DoStart(s, i, command).servers[i])
  {
    hide WfServer, WfAppendCall, WfVoteCall, Replication, GoodReign, Sliced, Anchored, Elected, ReignsGrow;
    var s' := DoStart(s, i, command);
    var v, v' := s.servers[i], s'.servers[i];
    assert KeepsNow(s, i, v);
    if v.role == Leader {
      assert LeadsWith(s.reigns, v) && Reigning(s.reigns, i, v);
      forall t: nat, k: nat | Own(s'.reigns, t, k) && t < v'.currentTerm + 1 && k < Held(s', t, i)
        ensures KeptAt(s'.reigns, t, k, v'.log, v'.currentTerm + 1)
      {
        if t < v.currentTerm {
          assert Own(s.reigns, t, k);
          assert KeptAt(s.reigns, t, k, v.log, v.currentTerm + 1);
          hide Overwritten;
          KeptAtGrows(s.reigns, s'.reigns, t, k, v.log, v.currentTerm + 1, v.currentTerm + 1);
        }
      }
    } else {
      assert s' == s;
    }
  }

  // Accepting and rejecting requests.

  /** An entry kept before a request is kept after it, or the sender lacks it. */
  lemma AppendKeepsEarlier(r: map<nat, Reign>, v: Server, args: AppendArgs, t: nat, k: nat)
    requires Own(r, t, k) && t < args.term && KeptAt(r, t, k, v.log, args.term + 1)
    requires WfLog(v.log) && Anchored(r, v.log) && FullSlice(r, args)
    requires WfLog(r[args.term].log) && Anchored(r, r[args.term].log)
    ensures KeptAt(r, t, k, AppendedLog(v, args), args.term + 1)
  {
    if Agree(r[t].log, v.log, k + 1) {
      var sent := r[args.term].log;
      if !Agree(r[t].log, sent, k + 1) {
        assert Overwritten(r, t, k, args.term + 1);
      } else if Accepts(v, args) {
        SpliceAgrees(r, v.log, sent, args);
        assert sent[k].term == t;
        assert k < End(args);
      } else if Conflicts(v, args) {
        assert sent[args.prevLogIndex].term == args.prevLogTerm;
      }
    }
  }

  /** What a follower held in the sender's term survives a request that reaches at least as far. */
  lemma AppendKeepsCurrent(r: map<nat, Reign>, v: Server, args: AppendArgs, k: nat)
    requires args.term in r && k < |r[args.term].log|
    requires WfLog(v.log) && Anchored(r, v.log) && FullSlice(r, args) && args.term > 0
    requires WfLog(r[args.term].log) && Anchored(r, r[args.term].log)
    requires if Accepts(v, args) then k < End(args) else Agree(r[args.term].log, v.log, k + 1)
    ensures Agree(r[args.term].log, AppendedLog(v, args), k + 1)
  {
    if Accepts(v, args) {
      SpliceAgrees(r, v.log, r[args.term].log, args);
    }
  }

  /** What a peer is known to hold after handling a request. */
  lemma HeldAfterAppend(s: Cluster, q: nat, t: nat)
    requires WfCluster(s) && Enabled(s, HandleAppend(q)) && s.appendCalls[q].args.term > 0
    ensures var s', c := DoHandleAppend(s, q), s.appendCalls[q];
            && (t != c.args.term ==> Held(s', t, c.to) == Held(s, t, c.to))
            && (!Accepts(s.servers[c.to], c.args) ==> Held(s', t, c.to) == Held(s, t, c.to))
            && (Accepts(s.servers[c.to], c.args) && t == c.args.term && (t in s.reigns ==> s.reigns[t].leader != c.to)
                ==> Held(s', t, c.to) == End(c.args))
  {
    hide WfServer, OnAppendEntries, Accepts;
    AppendOutcome(s.servers[s.appendCalls[q].to], |s.servers|, s.appendCalls[q].args);
  }

  lemma AppenderKeeps(s: Cluster, q: nat, t: nat, k: nat)
    requires WfCluster(s) && Reigns(s) && Enabled(s, HandleAppend(q))
    requires var s' := DoHandleAppend(s, q);
             var c := s.appendCalls[q];
             && Own(s.reigns, t, k) && t <= c.args.term && k < Held(s', t, c.to) && c.args.term > 0
             && (k < Held(s, t, c.to) ==> KeptAt(s.reigns, t, k, s.servers[c.to].log, c.args.term + 1))
             && s.servers[c.to].currentTerm <= c.args.term
             && WfLog(s.servers[c.to].log) && Anchored(s.reigns, s.servers[c.to].log)
             && FullSlice(s.reigns, c.args) && s.reigns[c.args.term].leader == c.from
             && WfLog(s.reigns[c.args.term].log) && Anchored(s.reigns, s.reigns[c.args.term].log)
    ensures var c := s.appendCalls[q];
            KeptAt(s.reigns, t, k, AppendedLog(s.servers[c.to], c.args), c.args.term + 1)
  {
    hide WfServer, WfLog, OnAppendEntries, Anchored, Elected, IsSlice, OwnTail, AppendedLog, Reigns, Held,
        DoHandleAppend;
    var c := s.appendCalls[q];
    var v := s.servers[c.to];
    HeldAfterAppend(s, q, t);
    if t < c.args.term {
      hide KeptAt, Accepts;
      AppendKeepsEarlier(s.reigns, v, c.args, t, k);
    } else {
      assert !Overwritten(s.reigns, t, k, t + 1);
      AppendKeepsCurrent(s.reigns, v, c.args, k);
    }
  }

  lemma AppenderRetains(s: Cluster, q: nat)
    requires WfCluster(s) && Reigns(s) && Logs(s) && Replication(s) && Retention(s) && Enabled(s, HandleAppend(q))
    requires HeldKept(s, DoHandleAppend(s, q), s.appendCalls[q].to)
    ensures var s' := DoHandleAppend(s, q);
            KeepsNow(s', s.appendCalls[q].to, s'.servers[s.appendCalls[q].to])
  {
    hide WfServer, WfLog, OnAppendEntries, AppendedLog, Anchored, LeadsWith, Elected, KeptAt, IsSlice, OwnTail;
    var s' := DoHandleAppend(s, q);
    var c := s.appendCalls[q];
    var i, args := c.to, c.args;
    var v := s.servers[i];
    WellFormedLog(v, |s.servers|);
    AppendOutcome(v, |s.servers|, args);
    assert Sliced(s.reigns, c.from, args) && FullSlice(s.reigns, args) && KeepsNow(s, i, v);
    if args.term < v.currentTerm {
      StaleKeepsLog(v, args);
      assert forall t :: Held(s', t, i) == Held(s, t, i);
    } else {
      KeepsRaised(s, i, args.term);
      forall t: nat, k: nat | Own(s'.reigns, t, k) && t < args.term + 1 && k < Held(s', t, i)
        ensures KeptAt(s'.reigns, t, k, s'.servers[i].log, args.term + 1)
      {
        assert GoodReign(s.reigns, t, s.reigns[t].log) && GoodReign(s.reigns, args.term, s.reigns[args.term].log);
        AppenderKeeps(s, q, t, k);
      }
    }
  }

  // ---------------------------------------------------------------- every run

  lemma KeepsInNextState(s: Cluster, s': Cluster, v: nat, log: seq<Entry>, t: nat, hi: nat)
    requires Logs(s) && Replication(s) && v < |s.servers| && Keeps(s, v, log, t, hi)
    requires ReignsGrow(s.reigns, s'.reigns) && NoNewOwn(s.reigns, s'.reigns) && HeldKept(s, s', |s.servers|)
    ensures Keeps(s', v, log, t, hi)
  {
    hide Logs, Replication, Keeps, ReignsGrow, NoNewOwn, HeldKept, HoldsNoMore;
    OthersHoldNoMore(s, s', |s.servers|, v, t);
    KeepsGrows(s, s', v, log, t, hi, hi);
  }

  lemma VoteRetains(s: Cluster, step: Step)
    requires WfCluster(s) && Voting(s) && Reigns(s) && Logs(s) && Replication(s) && Retention(s) && Enabled(s, step)
    requires step.Timeout? || step.HandleVote?
    requires var s' := Next(s, step);
             ReignsGrow(s.reigns, s'.reigns) && NoNewOwn(s.reigns, s'.reigns) && HeldKept(s, s', |s.servers|)
    ensures var s' := Next(s, step);
            forall t, v :: (t, v) in s'.ballots && (t, v) !in s.ballots ==>
                Keeps(s', v, s'.ballots[(t, v)].log, t, t + 1)
  {
    hide WfCluster, Voting, Reigns, Logs, Replication, Keeps, ReignsGrow, NoNewOwn, HeldKept, Next;
    var s' := Next(s, step);
    NewBallotsRetain(s, step);
    forall t, v | (t, v) in s'.ballots && (t, v) !in s.ballots
      ensures Keeps(s', v, s'.ballots[(t, v)].log, t, t + 1)
    {
      KeepsInNextState(s, s', v, s'.ballots[(t, v)].log, t, t + 1);
    }
  }

  lemma ConsumeVoteRetains(s: Cluster, q: nat)
    requires Sound(s) && Enabled(s, ConsumeVote(q)) && Admits(IN_TERM_AND_ORDER, s, ConsumeVote(q))
    requires var s' := DoConsumeVote(s, q);
             && ReignsGrow(s.reigns, s'.reigns) && HeldKept(s, s', |s.servers|) && BallotsKept(s, s')
             && |s'.servers| == |s.servers|
             && (forall v :: 0 <= v < |s.servers| ==>
                   s'.servers[v].log == s.servers[v].log && s.servers[v].currentTerm <= s'.servers[v].currentTerm)
    ensures Retention(DoConsumeVote(s, q))
  {
    hide WfServer, WfAppendCall, Voting, Election, Logs, Candidacies, Replication, Reigns, Tallied;
    hide ReignsGrow, HeldKept, NoNewOwn, Keeps, OnVoteReply, ZeroCalls, VotedFor, Held;
    var s' := DoConsumeVote(s, q);
    var c := s.voteCalls[q];
    var t0 := s.servers[c.from].currentTerm;
    ElectionParts(s);
    ConsumeVoteKeepsTallied(s, q);
    if Wins(s, c) {
      WinnerIsFirst(s, q);
      NewReignRetains(s, q);
    }
    NoOwnOnWinning(s, q);
    OthersRetain(s, s', |s.servers|);
    forall t, v | t in s'.reigns && v in s'.reigns[t].voters
      ensures ElectedOver(s', t, v)
    {
      if Wins(s, c) && t == t0 {
        KeepsInNextState(s, s', v, s.ballots[(t, v)].log, t, t);
      }
    }
  }

  lemma RetentionStep(s: Cluster, step: Step)
    requires Sound(s) && Enabled(s, step) && Admits(IN_TERM_AND_ORDER, s, step)
    ensures Retention(Next(s, step))
  {
    hide WfServer, WfVoteCall, WfAppendCall, Voting, Election, Logs, Candidacies, Replication, Reigns, Tallied;
    hide ReignsGrow, HeldKept, BallotsKept, NoNewOwn, Keeps;
    var s' := Next(s, step);
    ElectionParts(s);
    VotingStep(s, step);
    LogsStep(s, step);
    ReplicationStep(s, step);
    TermsNeverDecrease(s, step);
    OthersKeepLogs(s, step);
    match step
    case ConsumeVote(q) =>
      ConsumeVoteRetains(s, q);
    case Timeout(i) =>
      NoOwnOtherwise(s, step);
      OthersRetain(s, s', |s.servers|);
      VoteRetains(s, step);
    case HandleVote(q) =>
      NoOwnOtherwise(s, step);
      OthersRetain(s, s', |s.servers|);
      VoteRetains(s, step);
    case ClientStart(i, command) =>
      NoOwnOtherwise(s, step);
      OthersRetain(s, s', i);
      StarterRetains(s, i, command);
    case SendHeartbeats(i) =>
      NoOwnOtherwise(s, step);
      OthersRetain(s, s', |s.servers|);
    case HandleAppend(q) =>
      NoOwnOtherwise(s, step);
      OthersRetain(s, s', s.appendCalls[q].to);
      AppenderRetains(s, q);
    case ConsumeAppend(q) =>
      NoOwnOtherwise(s, step);
      OthersRetain(s, s', |s.servers|);
  }

  lemma SoundStep(s: Cluster, step: Step)
    requires Sound(s) && Enabled(s, step) && Admits(IN_TERM_AND_ORDER, s, step)
    ensures Sound(Next(s, step))
  {
    hide WfCluster, Voting, Election, Logs, Candidacies, Replication, Retention, Next, Enabled;
    NextKeepsWf(s, step);
    VotingStep(s, step);
    ElectionStep(s, step);
    LogsStep(s, step);
    CandidaciesStep(s, step);
    ReplicationStep(s, step);
    RetentionStep(s, step);
  }

  lemma {:induction false} SoundHolds(n: nat, steps: seq<Step>)
    requires Run(IN_TERM_AND_ORDER, n, steps).Some?
    ensures Sound(Run(IN_TERM_AND_ORDER, n, steps).value)
  {
    if steps == [] {
      var s := InitialCluster(n);
      assert Voting(s) && Election(s) && Logs(s) && Candidacies(s) && Replication(s) && Retention(s);
    } else {
      hide Sound;
      SoundHolds(n, steps[..|steps| - 1]);
      SoundStep(Run(IN_TERM_AND_ORDER, n, steps[..|steps| - 1]).value, steps[|steps| - 1]);
    }
  }
}
