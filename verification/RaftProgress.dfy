/**
 No run of the cluster is a dead end: whatever was lost, delayed or reordered before, it can be carried
 on so that every peer delivers a given command, exactly when the cluster does not consist of one peer.
 */
module RaftProgress {
  import opened Wrappers
  import opened RaftServer
  import opened RaftCluster
  import opened RaftOutcomes
  import opened RaftScenes

  // ---------------------------------------------------------------- one leader and one follower

  /** Peer `me` leads `term` with this log, whose last entry is the command, of that term. */
  datatype Goal = Goal(n: nat, me: nat, term: nat, log: seq<Entry>, command: Command)

  ghost predicate WfGoal(g: Goal) {
    && g.n >= 2 && g.me < g.n && g.term > 0 && |g.log| >= 2
    && g.log[|g.log| - 1] == Entry(g.term, g.command)
  }

  /** The peer has neither committed nor delivered as far as the command. */
  ghost predicate Pending(g: Goal, v: Server) {
    v.commitIndex + 1 < |g.log| && |v.applied| + 1 < |g.log|
  }

  /** The command is the last that the peer has committed and delivered. */
  ghost predicate Delivers(g: Goal, v: Server) {
    && |g.log| >= 2 && v.commitIndex == |v.applied| == |g.log| - 1
    && v.applied[|g.log| - 2] == ApplyMsg(|g.log| - 1, g.command)
  }

  ghost predicate Behind(g: Goal, v: Server) {
    v.currentTerm == g.term && Pending(g, v)
  }

  /** The follower's log ends with the command. */
  ghost predicate Caught(g: Goal, v: Server) {
    && v.currentTerm == g.term && |v.log| == |g.log| >= 1 && v.log[|g.log| - 1] == Entry(g.term, g.command)
    && (Pending(g, v) || Delivers(g, v))
  }

  /** Every peer is below k or is the leader. */
  predicate Complete(g: Goal, k: nat) {
    k >= g.n || (k + 1 == g.n && g.me == k)
  }

  /** Peers below k, and the leader itself, are known to have the whole log. */
  ghost predicate Leads(g: Goal, v: Server, k: nat) {
    && v.role == Leader && v.currentTerm == g.term && v.log == g.log
    && |v.nextIndex| == |v.matchIndex| == g.n
    && (Pending(g, v) || Delivers(g, v))
    && (forall p :: 0 <= p < g.n ==> v.matchIndex[p] == if p < k || p == g.me then |g.log| - 1 else 0)
    && (forall p :: 0 <= p < g.n && p != g.me ==>
          if p < k then v.nextIndex[p] == |g.log| else 1 <= v.nextIndex[p] < |g.log|)
    && (Complete(g, k) ==> Delivers(g, v))
  }

  lemma {:induction false} AllReach(matchIndex: seq<nat>, N: nat)
    requires forall p :: 0 <= p < |matchIndex| ==> matchIndex[p] >= N
    ensures |Reached(matchIndex, N)| == |matchIndex|
  {
    CountIsCardinality(matchIndex, N);
    if matchIndex != [] {
      AllReach(matchIndex[..|matchIndex| - 1], N);
      CountIsCardinality(matchIndex[..|matchIndex| - 1], N);
    }
  }

  /** As match indices are 0 or the end of the log, a majority that has any entry of the term has the last. */
  lemma ScanFindsLast(g: Goal, v: Server, v': Server, k: nat)
    requires WfGoal(g) && WfServer(v, g.n) && ScanSettles(v, g.n, v')
    requires v.role == Leader && v.currentTerm == g.term && v.log == g.log && |v.matchIndex| == g.n
    requires Pending(g, v) || Delivers(g, v)
    requires forall p :: 0 <= p < g.n ==> v.matchIndex[p] == if p < k || p == g.me then |g.log| - 1 else 0
    ensures Pending(g, v') || Delivers(g, v')
    ensures Complete(g, k) ==> Delivers(g, v')
  {
    hide WfServer;
    var N := |g.log| - 1;
    var c := v'.commitIndex;
    WellFormedLog(v, g.n);
    if MajorityHas(v, g.n, c) {
      assert c > 0;
      assert Reached(v.matchIndex, c) == Reached(v.matchIndex, N);
      assert MajorityHas(v, g.n, N);
    }
    if Complete(g, k) {
      AllReach(v.matchIndex, N);
      assert MajorityHas(v, g.n, N);
    }
  }

  /** The offer reaches from below the peer's next index to the end of the log. */
  lemma OfferToBehind(g: Goal, leader: Server, j: nat, k: nat)
    requires WfGoal(g) && WfServer(leader, g.n) && Leads(g, leader, k) && j < g.n && j != g.me
    ensures leader.log != [] && leader.nextIndex[j] >= 1
    ensures var args, next := RequestTo(leader, g.me, j), leader.nextIndex[j];
            && args.term == g.term && args.leaderCommit == leader.commitIndex && args.prevLogIndex + 1 == next
            && args.prevLogTerm == g.log[next - 1].term && args.entries == g.log[next..]
  {
    hide WfServer;
    LeaderShape(leader, g.n);
    HeartbeatOffers(leader, g.me, leader.nextIndex[j]);
  }

  /** A rejection brings the next index down and loses nothing else. */
  lemma RejectedRound(g: Goal, leader: Server, follower: Server, j: nat)
    requires WfGoal(g) && WfServer(leader, g.n) && WfServer(follower, g.n) && j < g.n && j != g.me
    requires Leads(g, leader, j) && Behind(g, follower)
    requires leader.log != [] && leader.nextIndex[j] >= 1
    requires !OnAppendEntries(follower, RequestTo(leader, g.me, j)).1.success
    ensures var args := RequestTo(leader, g.me, j);
            var (follower', reply) := OnAppendEntries(follower, args);
            var leader' := OnAppendReply(leader, g.n, j, args, reply);
            && Leads(g, leader', j) && leader'.nextIndex[j] < leader.nextIndex[j] && Behind(g, follower')
  {
    var args := RequestTo(leader, g.me, j);
    OfferToBehind(g, leader, j, j);
    AppendSettles(follower, g.n, args);
    AppendDelivers(follower, g.n, args);
    WellFormedLog(leader, g.n);
    WellFormedLog(follower, g.n);
    hide OnAppendEntries, OnAppendReply, RequestTo, WfServer;
    AppendReplySettles(leader, g.n, j, args, OnAppendEntries(follower, args).1);
  }

  /** A success brings the leader one peer further; hearing it again changes nothing. */
  lemma LeaderHears(g: Goal, leader: Server, k: nat, j: nat, args: AppendArgs, reply: AppendReply)
    requires WfGoal(g) && WfServer(leader, g.n) && Leads(g, leader, k) && j < g.n && j != g.me && j <= k
    requires reply.success && reply.term == g.term && args.prevLogIndex + |args.entries| == |g.log| - 1
    ensures Leads(g, OnAppendReply(leader, g.n, j, args, reply), if k == j then k + 1 else k)
  {
    hide OnAppendReply, MajorityHas, AppliedUpTo;
    AppendReplySettles(leader, g.n, j, args, reply);
    var leader' := OnAppendReply(leader, g.n, j, args, reply);
    var leader1 := leader.(nextIndex := leader'.nextIndex, matchIndex := leader'.matchIndex);
    ScanFindsLast(g, leader1, leader', if k == j then k + 1 else k);
  }

  /** An accepted request gives the follower the command, and the leader the knowledge of it. */
  lemma AcceptedRound(g: Goal, leader: Server, follower: Server, j: nat)
    requires WfGoal(g) && WfServer(leader, g.n) && WfServer(follower, g.n) && j < g.n && j != g.me
    requires Leads(g, leader, j) && Behind(g, follower)
    requires leader.log != [] && leader.nextIndex[j] >= 1
    requires OnAppendEntries(follower, RequestTo(leader, g.me, j)).1.success
    ensures var args := RequestTo(leader, g.me, j);
            var (follower', reply) := OnAppendEntries(follower, args);
            Leads(g, OnAppendReply(leader, g.n, j, args, reply), j + 1) && Caught(g, follower')
  {
    var args := RequestTo(leader, g.me, j);
    OfferToBehind(g, leader, j, j);
    AppendSettles(follower, g.n, args);
    AppendDelivers(follower, g.n, args);
    hide OnAppendEntries, OnAppendReply, RequestTo, WfServer, MajorityHas, ScanSettles;
    var (follower', reply) := OnAppendEntries(follower, args);
    LeaderHears(g, leader, j, j, args, reply);
    assert follower'.log[|g.log| - 1] == args.entries[|args.entries| - 1];
  }

  /** Once the leader has committed the command, one more request tells a follower that has it. */
  lemma FinalRound(g: Goal, leader: Server, follower: Server, j: nat)
    requires WfGoal(g) && WfServer(leader, g.n) && WfServer(follower, g.n) && j < g.n && j != g.me
    requires Leads(g, leader, g.n) && Caught(g, follower)
    requires leader.log != [] && leader.nextIndex[j] >= 1
    ensures var args := RequestTo(leader, g.me, j);
            var (follower', reply) := OnAppendEntries(follower, args);
            Leads(g, OnAppendReply(leader, g.n, j, args, reply), g.n) && Delivers(g, follower')
  {
    var args := RequestTo(leader, g.me, j);
    OfferToBehind(g, leader, j, g.n);
    AppendSettles(follower, g.n, args);
    AppendDelivers(follower, g.n, args);
    hide OnAppendEntries, OnAppendReply, RequestTo, WfServer, MajorityHas, ScanSettles;
    LeaderHears(g, leader, g.n, j, args, OnAppendEntries(follower, args).1);
  }

  // ---------------------------------------------------------------- replication to all

  lemma PeerIsWf(premise: Premise, n: nat, steps: seq<Step>, s: Cluster, v: nat)
    requires Goes(premise, n, steps, s) && v < n
    ensures |s.servers| == n && WfServer(s.servers[v], n) && s.servers[v].log != []
  {
    hide Goes, WfServer, WfVoteCall, WfAppendCall, WfLog;
    GoesWell(premise, n, steps, s);
    WellFormedLog(s.servers[v], n);
    LogStartsNonEmpty(s.servers[v].log);
  }

  lemma LeaderRole(g: Goal, v: Server, k: nat)
    requires Leads(g, v, k)
    ensures v.role == Leader && |v.nextIndex| == g.n
  {
  }

  lemma LeaderIsReady(premise: Premise, g: Goal, steps: seq<Step>, s: Cluster, k: nat)
    requires WfGoal(g) && Goes(premise, g.n, steps, s) && |s.servers| == g.n && Leads(g, s.servers[g.me], k)
    ensures LeadsWell(s, g.me)
  {
    hide Goes, WfServer, Leads;
    PeerIsWf(premise, g.n, steps, s, g.me);
    LeaderRole(g, s.servers[g.me], k);
    LeaderShape(s.servers[g.me], g.n);
  }

  /** Round after round, the leader brings peer j to the end of its log. */
  lemma CatchesUp(premise: Premise, g: Goal, steps: seq<Step>, s: Cluster, j: nat)
    returns (steps': seq<Step>, s': Cluster)
    requires WfGoal(g) && Goes(premise, g.n, steps, s) && |s.servers| == g.n && j < g.n && j != g.me
    requires Leads(g, s.servers[g.me], j) && Behind(g, s.servers[j])
    ensures steps <= steps' && Goes(premise, g.n, steps', s') && |s'.servers| == g.n
    ensures Leads(g, s'.servers[g.me], j + 1) && Caught(g, s'.servers[j])
    ensures forall p :: 0 <= p < g.n && p != j && p != g.me ==> s'.servers[p] == s.servers[p]
    decreases if j < |s.servers[g.me].nextIndex| then s.servers[g.me].nextIndex[j] else 0
  {
    hide Goes, WfServer, Leads, Behind, Caught, OnAppendEntries, OnAppendReply, RequestTo;
    PeerIsWf(premise, g.n, steps, s, g.me);
    PeerIsWf(premise, g.n, steps, s, j);
    LeaderIsReady(premise, g, steps, s, j);
    var leader, follower := s.servers[g.me], s.servers[j];
    var args := RequestTo(leader, g.me, j);
    steps', s' := Replicates(premise, g.n, steps, s, g.me, j);
    if OnAppendEntries(follower, args).1.success {
      AcceptedRound(g, leader, follower, j);
    } else {
      RejectedRound(g, leader, follower, j);
      LeaderRole(g, s'.servers[g.me], j);
      var steps1, s1 := steps', s';
      steps', s' := CatchesUp(premise, g, steps1, s1, j);
    }
  }

  lemma SkipsItself(g: Goal, v: Server)
    requires Leads(g, v, g.me)
    ensures Leads(g, v, g.me + 1)
  {
  }

  ghost predicate AllFrom(g: Goal, servers: seq<Server>, k: nat) {
    && |servers| == g.n && g.me < g.n && Leads(g, servers[g.me], k)
    && (forall p :: 0 <= p < g.n && p != g.me ==> if p < k then Caught(g, servers[p]) else Behind(g, servers[p]))
  }

  lemma {:induction false} AllCatchUp(premise: Premise, g: Goal, steps: seq<Step>, s: Cluster, k: nat)
    returns (steps': seq<Step>, s': Cluster)
    requires WfGoal(g) && Goes(premise, g.n, steps, s) && k <= g.n && AllFrom(g, s.servers, k)
    ensures steps <= steps' && Goes(premise, g.n, steps', s') && AllFrom(g, s'.servers, g.n)
    decreases g.n - k
  {
    hide Goes, Leads, Behind, Caught;
    if k == g.n {
      steps', s' := steps, s;
    } else if k == g.me {
      SkipsItself(g, s.servers[g.me]);
      steps', s' := AllCatchUp(premise, g, steps, s, k + 1);
    } else {
      var steps1, s1 := CatchesUp(premise, g, steps, s, k);
      steps', s' := AllCatchUp(premise, g, steps1, s1, k + 1);
    }
  }

  ghost predicate AllToldFrom(g: Goal, servers: seq<Server>, k: nat) {
    && |servers| == g.n && g.me < g.n && Leads(g, servers[g.me], g.n)
    && (forall p :: 0 <= p < g.n && p != g.me ==> if p < k then Delivers(g, servers[p]) else Caught(g, servers[p]))
  }

  /** One more request to each peer tells it that the command is committed. */
  lemma {:induction false} AllAreTold(premise: Premise, g: Goal, steps: seq<Step>, s: Cluster, k: nat)
    returns (steps': seq<Step>, s': Cluster)
    requires WfGoal(g) && Goes(premise, g.n, steps, s) && k <= g.n && AllToldFrom(g, s.servers, k)
    ensures steps <= steps' && Goes(premise, g.n, steps', s') && AllToldFrom(g, s'.servers, g.n)
    decreases g.n - k
  {
    hide Goes, WfServer, Leads, Delivers, Caught, OnAppendEntries, OnAppendReply, RequestTo;
    if k == g.n {
      steps', s' := steps, s;
    } else if k == g.me {
      steps', s' := AllAreTold(premise, g, steps, s, k + 1);
    } else {
      PeerIsWf(premise, g.n, steps, s, g.me);
      PeerIsWf(premise, g.n, steps, s, k);
      LeaderIsReady(premise, g, steps, s, g.n);
      FinalRound(g, s.servers[g.me], s.servers[k], k);
      var steps1, s1 := Replicates(premise, g.n, steps, s, g.me, k);
      steps', s' := AllAreTold(premise, g, steps1, s1, k + 1);
    }
  }

  lemma LeaderDelivers(g: Goal, v: Server)
    requires Leads(g, v, g.n)
    ensures Delivers(g, v)
  {
  }

  /** A leader with the command at the end of its log gets it delivered everywhere. */
  lemma CommandSpreads(premise: Premise, g: Goal, steps: seq<Step>, s: Cluster)
    returns (steps': seq<Step>, s': Cluster)
    requires WfGoal(g) && Goes(premise, g.n, steps, s) && AllFrom(g, s.servers, 0)
    ensures steps <= steps' && Goes(premise, g.n, steps', s') && |s'.servers| == g.n
    ensures forall p :: 0 <= p < g.n ==> Delivers(g, s'.servers[p])
  {
    hide Goes, Leads, Behind, Caught, Delivers;
    var steps1, s1 := AllCatchUp(premise, g, steps, s, 0);
    steps', s' := AllAreTold(premise, g, steps1, s1, 0);
    LeaderDelivers(g, s'.servers[g.me]);
  }

  // ---------------------------------------------------------------- an election

  /** A bound on all terms, commit indices and deliveries. */
  ghost function Highest(servers: seq<Server>): (h: nat)
    ensures forall v :: 0 <= v < |servers| ==>
              servers[v].currentTerm <= h && servers[v].commitIndex <= h && |servers[v].applied| <= h
  {
    if servers == [] then 0
    else
      var v := servers[|servers| - 1];
      Larger(Larger(Highest(servers[..|servers| - 1]), v.currentTerm), Larger(v.commitIndex, |v.applied|))
  }

  /** The log of peer i is at least as up to date as the first k logs. */
  ghost predicate BestOf(servers: seq<Server>, i: nat, k: nat) {
    && i < |servers| && k <= |servers| && servers[i].log != []
    && forall j :: 0 <= j < k ==>
        servers[j].log != [] && UpToDate(|servers[i].log| - 1, LastTerm(servers[i].log), servers[j].log)
  }

  lemma {:induction false} SomeLogIsBest(servers: seq<Server>, k: nat) returns (i: nat)
    requires 0 < k <= |servers| && forall v :: 0 <= v < |servers| ==> servers[v].log != []
    ensures i < k && BestOf(servers, i, k)
  {
    if k == 1 {
      i := 0;
    } else {
      i := SomeLogIsBest(servers, k - 1);
      if !UpToDate(|servers[i].log| - 1, LastTerm(servers[i].log), servers[k - 1].log) {
        i := k - 1;
      }
    }
  }

  /** Peer i has run for a term above all others, and everything else is as it was. */
  ghost predicate Runs(servers: seq<Server>, i: nat, servers': seq<Server>, h: nat) {
    && i < |servers| == |servers'|
    && servers' == servers[i := servers[i].(role := Candidate, currentTerm := servers'[i].currentTerm, votedFor := i,
                                            votes := 1)]
    && servers'[i].currentTerm > h
  }

  lemma {:induction false} RunsAboveAll(premise: Premise, n: nat, steps: seq<Step>, s: Cluster, i: nat, h: nat)
    returns (steps': seq<Step>, s': Cluster)
    requires Goes(premise, n, steps, s) && |s.servers| == n && i < n
    ensures steps <= steps' && Goes(premise, n, steps', s') && Runs(s.servers, i, s'.servers, h)
    ensures forall j: nat :: j < n && j != i ==> Asks(s', i, j)
    decreases h + 1 - s.servers[i].currentTerm
  {
    hide Goes, Asks;
    var steps1, s1 := TimesOut(premise, n, steps, s, i);
    if s1.servers[i].currentTerm > h {
      steps', s' := steps1, s1;
    } else {
      steps', s' := RunsAboveAll(premise, n, steps1, s1, i, h);
    }
  }

  /** A candidate after it has counted so many votes. */
  function Polled(v: Server, votes: nat, n: nat): Server {
    if votes > n / 2 then Won(v.(votes := votes), n) else v.(votes := votes)
  }

  lemma CountsMore(v: Server, votes: nat, n: nat, i: nat)
    requires v.role == Candidate && v.log != []
    ensures OnVoteReply(Polled(v, votes, n), n, VoteReply(0, true)) == Polled(v, votes + 1, n)
    ensures Polled(v, votes, n).log == v.log && VoteRequest(Polled(v, votes, n), i) == VoteRequest(v, i)
  {
  }

  /** Peers below k have voted for candidate i, which stood as v. */
  ghost predicate VotedBelow(before: seq<Server>, i: nat, v: Server, servers: seq<Server>, k: nat) {
    && i < |before| == |servers| && k <= |before|
    && servers[i] == Polled(v, 1 + if k <= i then k else k - 1, |before|)
    && forall j :: 0 <= j < |before| && j != i ==>
        servers[j] == if j < k then Voter(before[j], v.currentTerm, i) else before[j]
  }

  /** The candidate's log is the best, and its term is new to all others. */
  ghost predicate Electable(before: seq<Server>, i: nat, v: Server) {
    && BestOf(before, i, |before|) && v.role == Candidate && v.log == before[i].log
    && forall j :: 0 <= j < |before| ==> before[j].currentTerm < v.currentTerm
  }

  lemma RequestDescribes(v: Server, i: nat)
    requires v.log != []
    ensures VoteRequest(v, i) == VoteArgs(v.currentTerm, i, |v.log| - 1, LastTerm(v.log))
  {
  }

  lemma {:induction false} AllVote(premise: Premise, n: nat, steps: seq<Step>, s: Cluster, before: seq<Server>, i: nat,
                                   v: Server, k: nat)
    returns (steps': seq<Step>, s': Cluster)
    requires Goes(premise, n, steps, s) && |before| == n && i < n && Electable(before, i, v)
    requires VotedBelow(before, i, v, s.servers, k)
    requires forall j: nat :: k <= j < n && j != i ==> Asks(s, i, j)
    ensures steps <= steps' && Goes(premise, n, steps', s') && VotedBelow(before, i, v, s'.servers, n)
    decreases n - k
  {
    hide Goes, Asks, OnRequestVote, OnVoteReply, Polled, VoteRequest;
    if k == n {
      steps', s' := steps, s;
    } else if k == i {
      steps', s' := AllVote(premise, n, steps, s, before, i, v, k + 1);
    } else {
      var votes := 1 + if k <= i then k else k - 1;
      CountsMore(v, votes, n, i);
      RequestDescribes(v, i);
      VotesFor(before[k], VoteRequest(v, i));
      var steps1, s1 := GetsVote(premise, n, steps, s, i, k);
      steps', s' := AllVote(premise, n, steps1, s1, before, i, v, k + 1);
    }
  }

  // ---------------------------------------------------------------- the command

  /** The leader has started the command, so often that its log has grown to `length`. */
  ghost predicate Started(v: Server, i: nat, command: Command, v': Server, length: nat) {
    && i < |v.nextIndex| && i < |v.matchIndex| && |v'.log| == length > |v.log|
    && v' == v.(log := v'.log, nextIndex := v.nextIndex[i := length], matchIndex := v.matchIndex[i := length - 1])
    && v'.log[length - 1] == Entry(v.currentTerm, command)
  }

  lemma {:induction false} StartsOften(premise: Premise, n: nat, steps: seq<Step>, s: Cluster, i: nat, command: Command,
                                       more: nat)
    returns (steps': seq<Step>, s': Cluster)
    requires Goes(premise, n, steps, s) && |s.servers| == n && i < n && s.servers[i].role == Leader
    requires |s.servers[i].nextIndex| == |s.servers[i].matchIndex| == n && more >= 1
    ensures steps <= steps' && Goes(premise, n, steps', s') && |s'.servers| == n
    ensures s'.servers == s.servers[i := s'.servers[i]]
    ensures Started(s.servers[i], i, command, s'.servers[i], |s.servers[i].log| + more)
    decreases more
  {
    hide Goes;
    var steps1, s1 := Starts(premise, n, steps, s, i, command);
    if more == 1 {
      steps', s' := steps1, s1;
    } else {
      steps', s' := StartsOften(premise, n, steps1, s1, i, command, more - 1);
      assert s.servers[i].nextIndex[i := |s1.servers[i].log|][i := |s'.servers[i].log|]
          == s.servers[i].nextIndex[i := |s'.servers[i].log|];
      assert s.servers[i].matchIndex[i := |s1.servers[i].log| - 1][i := |s'.servers[i].log| - 1]
          == s.servers[i].matchIndex[i := |s'.servers[i].log| - 1];
    }
  }

  lemma AllVotesWin(v: Server, c: Server, i: nat, n: nat)
    requires c == v.(role := Candidate, currentTerm := c.currentTerm, votedFor := i, votes := 1) && n >= 2
    ensures Polled(c, n, n) == Winner(v, c.currentTerm, i, n, n)
  {
    assert seq(n, _ => |c.log|) == seq(n, _ => |v.log|);
  }

  /** Some peer comes to lead a new term, with the votes of all. */
  lemma SomebodyLeads(premise: Premise, n: nat, steps: seq<Step>, s: Cluster)
    returns (steps': seq<Step>, s': Cluster, i: nat, term: nat)
    requires Goes(premise, n, steps, s) && |s.servers| == n && n >= 2
    ensures steps <= steps' && Goes(premise, n, steps', s') && |s'.servers| == n && i < n && term > 0
    ensures s'.servers[i] == Winner(s.servers[i], term, i, n, n)
    ensures forall j :: 0 <= j < n && j != i ==> s'.servers[j] == Voter(s.servers[j], term, i)
  {
    hide Goes, Asks, UpToDate, Won, WfServer, Winner;
    forall v: nat | v < n
      ensures s.servers[v].log != []
    {
      PeerIsWf(premise, n, steps, s, v);
    }
    i := SomeLogIsBest(s.servers, n);
    var steps1, s1 := RunsAboveAll(premise, n, steps, s, i, Highest(s.servers));
    var v := s1.servers[i];
    assert v.(votes := 1) == v;
    steps', s' := AllVote(premise, n, steps1, s1, s.servers, i, v, 0);
    term := v.currentTerm;
    AllVotesWin(s.servers[i], v, i, n);
  }

  lemma ReadyToSpread(g: Goal, before: seq<Server>, servers: seq<Server>)
    requires WfGoal(g) && |before| == |servers| == g.n && |g.log| > Highest(before) + 1
    requires before[g.me].log != [] && |g.log| > |before[g.me].log|
    requires Started(Winner(before[g.me], g.term, g.me, g.n, g.n), g.me, g.command, servers[g.me], |g.log|)
    requires servers[g.me].log == g.log
    requires forall j :: 0 <= j < g.n && j != g.me ==> servers[j] == Voter(before[j], g.term, g.me)
    ensures AllFrom(g, servers, 0)
  {
    hide Highest;
  }

  ghost predicate LastDelivered(v: Server, k: nat, command: Command) {
    |v.applied| == k >= 1 && v.applied[k - 1] == ApplyMsg(k, command)
  }

  /** From any state of any run of two or more peers, all can be brought to deliver the command. */
  lemma CanBeDelivered(premise: Premise, n: nat, steps: seq<Step>, s: Cluster, command: Command)
    returns (steps': seq<Step>, s': Cluster, k: nat)
    requires Goes(premise, n, steps, s) && n >= 2
    ensures steps <= steps' && Goes(premise, n, steps', s') && k >= 1 && |s'.servers| == n
    ensures forall v :: 0 <= v < n ==> LastDelivered(s'.servers[v], k, command)
  {
    hide Goes, WfServer, Highest;
    PeerIsWf(premise, n, steps, s, 0);
    var steps1, s1, i, term := SomebodyLeads(premise, n, steps, s);
    PeerIsWf(premise, n, steps, s, i);
    var steps2, s2 := StartsOften(premise, n, steps1, s1, i, command, Highest(s.servers) + 2);
    var g := Goal(n, i, term, s2.servers[i].log, command);
    ReadyToSpread(g, s.servers, s2.servers);
    hide AllFrom;
    steps', s' := CommandSpreads(premise, g, steps2, s2);
    k := |g.log| - 1;
    assert forall v :: 0 <= v < n ==> Delivers(g, s'.servers[v]);
  }

  // ---------------------------------------------------------------- exactly when

  ghost predicate AllDelivered(servers: seq<Server>, k: nat, command: Command) {
    forall v :: 0 <= v < |servers| ==> LastDelivered(servers[v], k, command)
  }

  /** The run ends with every peer having delivered the command last, at one index. */
  ghost predicate DeliversIn(premise: Premise, n: nat, steps: seq<Step>, command: Command) {
    Run(premise, n, steps).Some? && exists k: nat :: AllDelivered(Run(premise, n, steps).value.servers, k, command)
  }

  ghost predicate CanDeliver(premise: Premise, n: nat, steps: seq<Step>, command: Command) {
    exists steps' :: steps <= steps' && DeliversIn(premise, n, steps', command)
  }

  /** A peer that is alone is asked for no vote and consumes none, so it never leads and never delivers. */
  ghost predicate Idle(s: Cluster) {
    && s.voteCalls == [] && s.appendCalls == []
    && |s.servers| == 1 && s.servers[0].role != Leader && s.servers[0].applied == []
  }

  lemma IdleStep(s: Cluster, step: Step)
    requires WfCluster(s) && Enabled(s, step) && Idle(s)
    ensures Idle(Next(s, step))
  {
    hide WfServer;
  }

  lemma {:induction false} AloneIsIdle(premise: Premise, steps: seq<Step>)
    requires Run(premise, 1, steps).Some?
    ensures Idle(Run(premise, 1, steps).value)
  {
    if steps != [] {
      hide Next, Enabled, Admits, WfCluster, Idle;
      var before := steps[..|steps| - 1];
      AloneIsIdle(premise, before);
      IdleStep(Run(premise, 1, before).value, steps[|steps| - 1]);
    }
  }

  lemma ManyCanDeliver(premise: Premise, n: nat, steps: seq<Step>, command: Command)
    requires n >= 2 && Run(premise, n, steps).Some?
    ensures CanDeliver(premise, n, steps, command)
  {
    hide Run;
    var steps', s', k := CanBeDelivered(premise, n, steps, Run(premise, n, steps).value, command);
    assert AllDelivered(s'.servers, k, command);
    assert DeliversIn(premise, n, steps', command);
  }

  lemma AloneCannotDeliver(premise: Premise, steps: seq<Step>, command: Command)
    ensures !DeliversIn(premise, 1, steps, command)
  {
    if Run(premise, 1, steps).Some? {
      AloneIsIdle(premise, steps);
      var s := Run(premise, 1, steps).value;
      assert forall k: nat :: AllDelivered(s.servers, k, command) ==> LastDelivered(s.servers[0], k, command);
    }
  }

  lemma NoneDeliver(premise: Premise, steps: seq<Step>, command: Command)
    requires Run(premise, 0, steps).Some?
    ensures CanDeliver(premise, 0, steps, command)
  {
    assert AllDelivered(Run(premise, 0, steps).value.servers, 1, command);
    assert DeliversIn(premise, 0, steps, command);
  }

  /**
   Under every premise, every run can be carried on until all peers deliver any given command, if and only
   if the cluster does not consist of one peer.
   */
  lemma AlwaysDeliverableIff(premise: Premise, n: nat)
    ensures (forall steps, command | Run(premise, n, steps).Some? :: CanDeliver(premise, n, steps, command)) <==> n != 1
  {
    if n == 1 {
      assert Run(premise, 1, []).Some?;
      forall steps
        ensures !DeliversIn(premise, 1, steps, Nil)
      {
        AloneCannotDeliver(premise, steps, Nil);
      }
      assert !CanDeliver(premise, 1, [], Nil);
    } else {
      hide CanDeliver;
      forall steps, command | Run(premise, n, steps).Some?
        ensures CanDeliver(premise, n, steps, command)
      {
        if n == 0 {
          NoneDeliver(premise, steps, command);
        } else {
          ManyCanDeliver(premise, n, steps, command);
        }
      }
    }
  }
}
