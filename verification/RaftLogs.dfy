/**
 Log Matching (extended Raft paper, section 5.3), under any loss, delay and reordering of
 append calls, given that granted votes are consumed in their term.

 Every log is anchored: what it holds up to an entry of term t is what the leader of
 term t held up to that index.
 */
module RaftLogs {
  import opened RaftServer
  import opened RaftCluster
  import opened RaftElection

  /** Both logs reach length k and hold the same entries below it. */
  ghost predicate Agree(a: seq<Entry>, b: seq<Entry>, k: nat) {
    k <= |a| && k <= |b| && forall j :: 0 <= j < k ==> a[j] == b[j]
  }

  ghost predicate Anchored(reigns: map<nat, Reign>, log: seq<Entry>) {
    forall i :: 0 < i < |log| ==> log[i].term in reigns && Agree(log, reigns[log[i].term].log, i + 1)
  }

  /** From index `from` on, every entry was created by the leader itself. */
  ghost predicate OwnTail(log: seq<Entry>, t: nat, from: nat) {
    forall k :: from <= k < |log| ==> log[k].term == t
  }

  /** Reigns keep their leader and their log, which grows only by entries of the leader's own. */
  ghost predicate ReignsGrow(r: map<nat, Reign>, r': map<nat, Reign>) {
    forall t :: t in r ==>
      && t in r' && r'[t].leader == r[t].leader && r'[t].voters == r[t].voters
      && Agree(r[t].log, r'[t].log, |r[t].log|)
      && OwnTail(r'[t].log, t, |r[t].log|)
  }

  lemma AnchoredGrows(r: map<nat, Reign>, r': map<nat, Reign>, log: seq<Entry>)
    requires Anchored(r, log) && ReignsGrow(r, r')
    ensures Anchored(r', log)
  {
    forall i | 0 < i < |log|
      ensures log[i].term in r' && Agree(log, r'[log[i].term].log, i + 1)
    {
      var t := log[i].term;
      assert Agree(log, r[t].log, i + 1);
      assert Agree(r[t].log, r'[t].log, |r[t].log|);
    }
  }

  /** Logs that agree on the term at an index are the same up to it. */
  lemma AnchoredMatch(reigns: map<nat, Reign>, a: seq<Entry>, b: seq<Entry>, i: nat)
    requires WfLog(a) && WfLog(b) && Anchored(reigns, a) && Anchored(reigns, b)
    requires i < |a| && i < |b| && a[i].term == b[i].term
    ensures Agree(a, b, i + 1)
  {
    if i > 0 {
      var r := reigns[a[i].term].log;
      assert Agree(a, r, i + 1) && Agree(b, r, i + 1);
    }
  }

  /** A reign's log is well formed, ends within its term and is anchored. */
  ghost predicate GoodReign(reigns: map<nat, Reign>, t: nat, log: seq<Entry>) {
    t > 0 && WfLog(log) && LastTerm(log) <= t && Anchored(reigns, log)
  }

  /** The length a follower's log reaches by accepting the request. */
  function End(args: AppendArgs): nat {
    args.prevLogIndex + 1 + |args.entries|
  }

  ghost predicate IsSlice(log: seq<Entry>, args: AppendArgs) {
    && End(args) <= |log|
    && log[args.prevLogIndex].term == args.prevLogTerm
    && forall j :: 0 <= j < |args.entries| ==> log[args.prevLogIndex + 1 + j] == args.entries[j]
  }

  /** The entries of a request are a slice of its leader's log; an election's first request carries nothing. */
  ghost predicate Sliced(reigns: map<nat, Reign>, from: nat, args: AppendArgs) {
    if args.term == 0 then
      args == ZERO_APPEND
    else
      args.term in reigns && reigns[args.term].leader == from
          && (args.entries != [] ==> IsSlice(reigns[args.term].log, args))
  }

  ghost predicate LeadsWith(reigns: map<nat, Reign>, server: Server) {
    server.role == Leader ==> server.currentTerm in reigns && server.log == reigns[server.currentTerm].log
  }

  ghost predicate Logs(s: Cluster) {
    && (forall v :: 0 <= v < |s.servers| ==> Anchored(s.reigns, s.servers[v].log))
    && (forall v :: 0 <= v < |s.servers| ==> LeadsWith(s.reigns, s.servers[v]))
    && (forall t :: t in s.reigns ==> GoodReign(s.reigns, t, s.reigns[t].log))
    && (forall q :: 0 <= q < |s.appendCalls| ==> Sliced(s.reigns, s.appendCalls[q].from, s.appendCalls[q].args))
  }

  // ---------------------------------------------------------------- steps that leave every log alone

  ghost predicate KeepsLog(a: Server, b: Server) {
    b.log == a.log && (b.role == Leader ==> a.role == Leader && b.currentTerm == a.currentTerm)
  }

  ghost predicate SameSend(c: AppendCall, d: AppendCall) {
    c.from == d.from && c.to == d.to && c.args == d.args
  }

  ghost predicate SameLogs(s: Cluster, s': Cluster) {
    && |s'.servers| == |s.servers|
    && (forall v :: 0 <= v < |s.servers| ==> KeepsLog(s.servers[v], s'.servers[v]))
    && s'.reigns == s.reigns
    && |s'.appendCalls| == |s.appendCalls|
    && (forall q :: 0 <= q < |s.appendCalls| ==> SameSend(s'.appendCalls[q], s.appendCalls[q]))
  }

  lemma SameLogsKeepLogs(s: Cluster, s': Cluster)
    requires Logs(s) && SameLogs(s, s')
    ensures Logs(s')
  {
    forall v | 0 <= v < |s'.servers|
      ensures Anchored(s'.reigns, s'.servers[v].log) && LeadsWith(s'.reigns, s'.servers[v])
    {
      assert KeepsLog(s.servers[v], s'.servers[v]);
      assert Anchored(s.reigns, s.servers[v].log) && LeadsWith(s.reigns, s.servers[v]);
    }
  }

  lemma TimeoutKeepsLogs(s: Cluster, i: nat)
    requires WfCluster(s) && i < |s.servers|
    ensures SameLogs(s, DoTimeout(s, i))
  {
    hide WfServer;
  }

  lemma RequestVoteKeepsLog(server: Server, n: nat, args: VoteArgs)
    requires WfServer(server, n)
    ensures KeepsLog(server, OnRequestVote(server, args).0)
  {
  }

  lemma HandleVoteKeepsLogs(s: Cluster, q: nat)
    requires WfCluster(s) && Enabled(s, HandleVote(q))
    ensures SameLogs(s, DoHandleVote(s, q))
  {
    hide WfServer;
    var c := s.voteCalls[q];
    RequestVoteKeepsLog(s.servers[c.to], |s.servers|, c.args);
  }

  lemma ConsumeVoteKeepsLogs(s: Cluster, q: nat)
    requires WfCluster(s) && Enabled(s, ConsumeVote(q)) && !Wins(s, s.voteCalls[q])
    ensures SameLogs(s, DoConsumeVote(s, q))
  {
    hide WfServer;
  }

  lemma ConsumeAppendKeepsLogs(s: Cluster, q: nat)
    requires WfCluster(s) && Enabled(s, ConsumeAppend(q))
    ensures SameLogs(s, DoConsumeAppend(s, q))
  {
  }

  // ---------------------------------------------------------------- steps that touch logs

  lemma SlicedGrows(r: map<nat, Reign>, r': map<nat, Reign>, from: nat, args: AppendArgs)
    requires Sliced(r, from, args) && ReignsGrow(r, r')
    ensures Sliced(r', from, args)
  {
    if args.term > 0 {
      assert Agree(r[args.term].log, r'[args.term].log, |r[args.term].log|);
    }
  }

  /** Logs survive growth of the reigns, given the new reigns, new calls and the changed peer are good. */
  lemma LogsGrow(s: Cluster, s': Cluster, i: nat)
    requires Logs(s) && |s'.servers| == |s.servers| && ReignsGrow(s.reigns, s'.reigns)
    requires i < |s.servers| && s'.servers == s.servers[i := s'.servers[i]]
    requires Anchored(s'.reigns, s'.servers[i].log)
    requires forall v :: 0 <= v < |s.servers| ==> LeadsWith(s'.reigns, s'.servers[v])
    requires forall t :: t in s'.reigns ==>
             GoodReign(s.reigns, t, s'.reigns[t].log) || GoodReign(s'.reigns, t, s'.reigns[t].log)
    requires |s.appendCalls| <= |s'.appendCalls|
    requires forall q :: 0 <= q < |s.appendCalls| ==> SameSend(s'.appendCalls[q], s.appendCalls[q])
    requires forall q :: |s.appendCalls| <= q < |s'.appendCalls| ==>
             Sliced(s'.reigns, s'.appendCalls[q].from, s'.appendCalls[q].args)
    ensures Logs(s')
  {
    hide Agree, Anchored, Sliced, WfLog, ReignsGrow, LeadsWith;
    forall v | 0 <= v < |s'.servers|
      ensures Anchored(s'.reigns, s'.servers[v].log)
    {
      if v != i {
        AnchoredGrows(s.reigns, s'.reigns, s.servers[v].log);
      }
    }
    forall t | t in s'.reigns
      ensures GoodReign(s'.reigns, t, s'.reigns[t].log)
    {
      if GoodReign(s.reigns, t, s'.reigns[t].log) {
        AnchoredGrows(s.reigns, s'.reigns, s'.reigns[t].log);
      }
    }
    forall q | 0 <= q < |s'.appendCalls|
      ensures Sliced(s'.reigns, s'.appendCalls[q].from, s'.appendCalls[q].args)
    {
      if q < |s.appendCalls| {
        assert SameSend(s'.appendCalls[q], s.appendCalls[q]);
        SlicedGrows(s.reigns, s'.reigns, s.appendCalls[q].from, s.appendCalls[q].args);
      }
    }
  }

  lemma NewReignGrows(r: map<nat, Reign>, t: nat, reign: Reign)
    requires t !in r
    ensures ReignsGrow(r, r[t := reign])
  {
  }

  /** A winner's log becomes the log of its reign. */
  lemma WinKeepsLogs(s: Cluster, q: nat)
    requires WfCluster(s) && Logs(s) && Enabled(s, ConsumeVote(q)) && Wins(s, s.voteCalls[q])
    requires s.servers[s.voteCalls[q].from].currentTerm !in s.reigns
    ensures Logs(DoConsumeVote(s, q)) && ReignsGrow(s.reigns, DoConsumeVote(s, q).reigns)
  {
    hide WfLog, Agree, Anchored, ReignsGrow, IsSlice;
    var s' := DoConsumeVote(s, q);
    var i := s.voteCalls[q].from;
    var term := s.servers[i].currentTerm;
    assert WfServer(s.servers[i], |s.servers|);
    hide WfServer;
    NewReignGrows(s.reigns, term, s'.reigns[term]);
    AnchoredGrows(s.reigns, s'.reigns, s.servers[i].log);
    assert GoodReign(s.reigns, term, s'.reigns[term].log);
    LogsGrow(s, s', i);
  }

  lemma SameReignsGrow(r: map<nat, Reign>)
    ensures ReignsGrow(r, r)
  {
  }

  lemma ExtendedReignIsGood(r: map<nat, Reign>, t: nat, command: Command, r': map<nat, Reign>)
    requires t in r && GoodReign(r, t, r[t].log) && r' == r[t := r[t].(log := r[t].log + [Entry(t, command)])]
    ensures GoodReign(r', t, r'[t].log) && Anchored(r', r'[t].log) && ReignsGrow(r, r')
  {
    var log := r[t].log;
    AnchoredGrows(r, r', log);
    var log' := r'[t].log;
    forall i | 0 < i < |log'|
      ensures log'[i].term in r' && Agree(log', r'[log'[i].term].log, i + 1)
    {
      if i < |log| {
        assert Agree(log, r'[log[i].term].log, i + 1);
      }
    }
  }

  /** Start extends the log of the leader and of its reign alike. */
  lemma StartKeepsLogs(s: Cluster, i: nat, command: Command)
    requires WfCluster(s) && Reigns(s) && Logs(s) && i < |s.servers|
    ensures Logs(DoStart(s, i, command)) && ReignsGrow(s.reigns, DoStart(s, i, command).reigns)
  {
    hide WfServer, WfLog, Agree, Anchored, ReignsGrow, Sliced, Elected;
    var s' := DoStart(s, i, command);
    var v := s.servers[i];
    if v.role == Leader {
      assert LeadsWith(s.reigns, v) && Reigning(s.reigns, i, v);
      ExtendedReignIsGood(s.reigns, v.currentTerm, command, s'.reigns);
      forall u | 0 <= u < |s.servers|
        ensures LeadsWith(s'.reigns, s'.servers[u])
      {
        assert LeadsWith(s.reigns, s.servers[u]) && Reigning(s.reigns, u, s.servers[u]);
      }
      LogsGrow(s, s', i);
    } else {
      assert s' == s;
      SameReignsGrow(s.reigns);
    }
  }

  lemma HeartbeatIsSliced(reigns: map<nat, Reign>, v: Server, me: nat, next: nat)
    requires v.log != [] && v.role == Leader && v.currentTerm > 0 && LeadsWith(reigns, v) && next >= 1
    requires reigns[v.currentTerm].leader == me
    ensures Sliced(reigns, me, Heartbeat(v, me, next))
  {
  }

  lemma HeartbeatsKeepLogs(s: Cluster, i: nat)
    requires WfCluster(s) && Reigns(s) && Logs(s) && i < |s.servers|
    ensures Logs(DoHeartbeats(s, i))
  {
    hide WfServer, Agree, Anchored, Sliced, Heartbeat, GoodReign, Elected, ReignsGrow;
    var v := s.servers[i];
    if v.role == Leader {
      LeaderShape(v, |s.servers|);
      var s' := DoHeartbeats(s, i);
      assert LeadsWith(s.reigns, v) && Reigning(s.reigns, i, v);
      forall q | |s.appendCalls| <= q < |s'.appendCalls|
        ensures Sliced(s'.reigns, s'.appendCalls[q].from, s'.appendCalls[q].args)
      {
        HeartbeatIsSliced(s.reigns, v, i, v.nextIndex[Peer(i, q - |s.appendCalls|)]);
      }
      SameReignsGrow(s.reigns);
      LogsGrow(s, s', i);
    }
  }

  lemma StaleKeepsLog(v: Server, args: AppendArgs)
    ensures args.term < v.currentTerm ==> AppendedLog(v, args) == v.log
  {
  }

  lemma SpliceAgrees(reigns: map<nat, Reign>, log: seq<Entry>, r: seq<Entry>, args: AppendArgs)
    requires WfLog(log) && WfLog(r) && Anchored(reigns, log) && Anchored(reigns, r) && IsSlice(r, args)
    requires args.prevLogIndex < |log| && log[args.prevLogIndex].term == args.prevLogTerm
    ensures Agree(log[..args.prevLogIndex + 1] + args.entries, r, End(args))
  {
    hide Anchored, WfLog;
    AnchoredMatch(reigns, log, r, args.prevLogIndex);
    var p := args.prevLogIndex + 1;
    forall j | 0 <= j < End(args)
      ensures (log[..p] + args.entries)[j] == r[j]
    {
      assert p <= j ==> r[p + (j - p)] == args.entries[j - p];
    }
  }

  lemma PrefixIsAnchored(reigns: map<nat, Reign>, r: seq<Entry>, log: seq<Entry>)
    requires Anchored(reigns, r) && Agree(log, r, |log|)
    ensures Anchored(reigns, log)
  {
    forall i | 0 < i < |log|
      ensures log[i].term in reigns && Agree(log, reigns[log[i].term].log, i + 1)
    {
      assert Agree(r, reigns[r[i].term].log, i + 1);
    }
  }

  lemma CutIsAnchored(reigns: map<nat, Reign>, log: seq<Entry>, k: nat)
    requires Anchored(reigns, log) && k <= |log|
    ensures Anchored(reigns, log[..k])
  {
    PrefixIsAnchored(reigns, log, log[..k]);
  }

  lemma AppendedIsAnchored(reigns: map<nat, Reign>, v: Server, from: nat, args: AppendArgs)
    requires WfLog(v.log) && Anchored(reigns, v.log) && Sliced(reigns, from, args)
    requires args.term in reigns ==> GoodReign(reigns, args.term, reigns[args.term].log)
    ensures Anchored(reigns, AppendedLog(v, args))
  {
    hide Anchored, Agree, WfLog, IsSlice;
    var log' := AppendedLog(v, args);
    if Accepts(v, args) && args.entries != [] {
      SpliceAgrees(reigns, v.log, reigns[args.term].log, args);
      PrefixIsAnchored(reigns, reigns[args.term].log, log');
    } else {
      assert log' == v.log[..|log'|];
      CutIsAnchored(reigns, v.log, |log'|);
    }
  }

  /** Accepting a request splices a slice of the leader's log onto a prefix that agrees with it. */
  lemma HandleAppendKeepsLogs(s: Cluster, q: nat)
    requires WfCluster(s) && Reigns(s) && Logs(s) && Enabled(s, HandleAppend(q))
    ensures Logs(DoHandleAppend(s, q))
  {
    hide WfServer, Anchored, Agree, GoodReign, OnAppendEntries, ReignsGrow, Elected, AppendedLog;
    var s' := DoHandleAppend(s, q);
    var c := s.appendCalls[q];
    var v := s.servers[c.to];
    assert Sliced(s.reigns, c.from, c.args) && Reigning(s.reigns, c.to, v);
    AppendOutcome(v, |s.servers|, c.args);
    assert WfLog(v.log) by { WellFormedLog(v, |s.servers|); }
    AppendedIsAnchored(s.reigns, v, c.from, c.args);
    if v.role == Leader {
      LeaderShape(v, |s.servers|);
      StaleKeepsLog(v, c.args);
    }
    forall u | 0 <= u < |s.servers|
      ensures LeadsWith(s'.reigns, s'.servers[u])
    {
      assert LeadsWith(s.reigns, s.servers[u]);
    }
    SameReignsGrow(s.reigns);
    LogsGrow(s, s', c.to);
  }

  // ---------------------------------------------------------------- Log Matching over runs

  lemma ElectionParts(s: Cluster)
    requires WfCluster(s) && Election(s)
    ensures Tallied(s) && Reigns(s)
  {
  }

  lemma LogsStep(s: Cluster, step: Step)
    requires WfCluster(s) && Voting(s) && Election(s) && Logs(s) && Enabled(s, step) && VoteInTerm(s, step)
    ensures Logs(Next(s, step)) && ReignsGrow(s.reigns, Next(s, step).reigns)
  {
    hide WfServer, WfVoteCall, WfAppendCall, Voting, Election, Logs, ReignsGrow, Reigns, CallsUncounted;
    var s' := Next(s, step);
    SameReignsGrow(s.reigns);
    ElectionParts(s);
    match step
    case Timeout(i) => TimeoutKeepsLogs(s, i); SameLogsKeepLogs(s, s');
    case HandleVote(q) => HandleVoteKeepsLogs(s, q); SameLogsKeepLogs(s, s');
    case ConsumeVote(q) =>
      if Wins(s, s.voteCalls[q]) {
        ConsumeVoteKeepsTallied(s, q);
        WinnerIsFirst(s, q);
        WinKeepsLogs(s, q);
      } else {
        ConsumeVoteKeepsLogs(s, q); SameLogsKeepLogs(s, s');
      }
    case ClientStart(i, command) => StartKeepsLogs(s, i, command);
    case SendHeartbeats(i) => HeartbeatsKeepLogs(s, i);
    case HandleAppend(q) => HandleAppendKeepsLogs(s, q);
    case ConsumeAppend(q) => ConsumeAppendKeepsLogs(s, q); SameLogsKeepLogs(s, s');
  }

  lemma {:induction false} LogsHold(premise: Premise, n: nat, steps: seq<Step>)
    requires premise.votesInTerm && Run(premise, n, steps).Some?
    ensures Logs(Run(premise, n, steps).value)
  {
    if steps != [] {
      var prefix := steps[..|steps| - 1];
      VotingHolds(premise, n, prefix);
      ElectionHolds(premise, n, prefix);
      LogsHold(premise, n, prefix);
      LogsStep(Run(premise, n, prefix).value, steps[|steps| - 1]);
    }
  }

  /** Log Matching: two logs that agree on the term at an index are identical up to that index. */
  lemma LogMatching(premise: Premise, n: nat, steps: seq<Step>, a: nat, b: nat, i: nat)
    requires premise.votesInTerm && Run(premise, n, steps).Some? && a < n && b < n
    requires var servers := Run(premise, n, steps).value.servers;
             i < |servers[a].log| && i < |servers[b].log| && servers[a].log[i].term == servers[b].log[i].term
    ensures var servers := Run(premise, n, steps).value.servers;
            servers[a].log[..i + 1] == servers[b].log[..i + 1]
  {
    LogsHold(premise, n, steps);
    var s := Run(premise, n, steps).value;
    AnchoredMatch(s.reigns, s.servers[a].log, s.servers[b].log, i);
  }
}
