/**
 n Raft peers and the RPCs between them.  One lock-held section of a peer is one step.
 A call is sent once, handled at most once and its reply consumed at most once, in any
 order and after any delay; a lost request or reply is one that is never handled or
 consumed.  Timeouts may fire at any time, in any role.  Peers do not crash.

 `reigns`, `ballots`, `granters` and `lastAck` are history: no step reads them.
 */
module RaftCluster {
  import opened Wrappers
  import opened RaftServer

  datatype VoteCall = VoteCall(from: nat, to: nat, args: VoteArgs, handled: bool, consumed: bool, reply: VoteReply)
  datatype AppendCall = AppendCall(from: nat, to: nat, args: AppendArgs, handled: bool, consumed: bool,
                                   reply: AppendReply)

  /** A vote cast, with the voter's log at that moment. */
  datatype Ballot = Ballot(candidate: nat, log: seq<Entry>)

  /** An election won: by whom, with whose votes, and the leader's log during its term. */
  datatype Reign = Reign(leader: nat, voters: set<nat>, log: seq<Entry>)

  datatype Cluster = Cluster(
    servers: seq<Server>,
    voteCalls: seq<VoteCall>,
    appendCalls: seq<AppendCall>,
    reigns: map<nat, Reign>,             // by term
    ballots: map<(nat, nat), Ballot>,    // by term and voter
    granters: seq<set<nat>>,             // whose grants each peer has counted since its last candidacy
    lastAck: map<(nat, nat), nat>)       // by term and follower: the last accepted append call

  datatype Step =
    | Timeout(i: nat)
    | HandleVote(q: nat)
    | ConsumeVote(q: nat)
    | ClientStart(i: nat, command: Command)
    | SendHeartbeats(i: nat)
    | HandleAppend(q: nat)
    | ConsumeAppend(q: nat)

  /** The j-th peer other than `me`. */
  function Peer(me: nat, j: nat): nat {
    if j < me then j else j + 1
  }

  function VoteCalls(me: nat, n: nat, args: VoteArgs): seq<VoteCall>
    requires n >= 1
  {
    seq(n - 1, (j: nat) => VoteCall(me, Peer(me, j), args, false, false, VoteReply(0, false)))
  }

  function ZeroCalls(me: nat, n: nat): seq<AppendCall>
    requires n >= 1
  {
    seq(n - 1, (j: nat) => AppendCall(me, Peer(me, j), ZERO_APPEND, false, false, AppendReply(0, false)))
  }

  function HeartbeatCalls(v: Server, me: nat, n: nat): seq<AppendCall>
    requires n >= 1 && me < n && v.log != [] && |v.nextIndex| == n && forall p :: 0 <= p < n ==> v.nextIndex[p] >= 1
  {
    seq(n - 1, (j: nat) requires j < n - 1 =>
      AppendCall(me, Peer(me, j), Heartbeat(v, me, v.nextIndex[Peer(me, j)]), false, false, AppendReply(0, false)))
  }

  ghost predicate WfVoteCall(s: Cluster, c: VoteCall) {
    && c.from < |s.servers| && c.to < |s.servers| && c.from != c.to
    && c.args.candidateId == c.from
    && (c.consumed ==> c.handled)
  }

  ghost predicate WfAppendCall(s: Cluster, c: AppendCall) {
    && c.from < |s.servers| && c.to < |s.servers| && c.from != c.to
    && WfAppend(c.args)
    && (c.consumed ==> c.handled)
  }

  ghost predicate WfCluster(s: Cluster) {
    && |s.granters| == |s.servers|
    && (forall v :: 0 <= v < |s.servers| ==> WfServer(s.servers[v], |s.servers|))
    && (forall q :: 0 <= q < |s.voteCalls| ==> WfVoteCall(s, s.voteCalls[q]))
    && (forall q :: 0 <= q < |s.appendCalls| ==> WfAppendCall(s, s.appendCalls[q]))
  }

  function InitialCluster(n: nat): Cluster {
    Cluster(seq(n, _ => Initial()), [], [], map[], map[], seq(n, _ => {}), map[])
  }

  // ---------------------------------------------------------------- steps

  predicate Enabled(s: Cluster, step: Step) {
    match step
    case Timeout(i) => i < |s.servers|
    case HandleVote(q) => q < |s.voteCalls| && !s.voteCalls[q].handled
    case ConsumeVote(q) => q < |s.voteCalls| && s.voteCalls[q].handled && !s.voteCalls[q].consumed
    case ClientStart(i, _) => i < |s.servers|
    case SendHeartbeats(i) => i < |s.servers|
    case HandleAppend(q) => q < |s.appendCalls| && !s.appendCalls[q].handled
    case ConsumeAppend(q) => q < |s.appendCalls| && s.appendCalls[q].handled && !s.appendCalls[q].consumed
  }

  ghost function DoTimeout(s: Cluster, i: nat): Cluster
    requires WfCluster(s) && i < |s.servers|
  {
    var v := BecomeCandidate(s.servers[i], i);
    s.(servers := s.servers[i := v],
    voteCalls := s.voteCalls + VoteCalls(i, |s.servers|, VoteRequest(v, i)),
    ballots := s.ballots[(v.currentTerm, i) := Ballot(i, v.log)],
    granters := s.granters[i := {i}])
  }

  ghost function DoHandleVote(s: Cluster, q: nat): Cluster
    requires WfCluster(s) && Enabled(s, HandleVote(q))
  {
    var c := s.voteCalls[q];
    var r := OnRequestVote(s.servers[c.to], c.args);
    s.(servers := s.servers[c.to := r.0],
    voteCalls := s.voteCalls[q := c.(handled := true, reply := r.1)],
    ballots :=
      if r.1.granted && (c.args.term, c.to) !in s.ballots
      then s.ballots[(c.args.term, c.to) := Ballot(c.args.candidateId, s.servers[c.to].log)]
      else s.ballots)
  }

  /** The grants a candidate has counted once the reply of call c is consumed. */
  ghost function Counted(s: Cluster, c: VoteCall): set<nat>
    requires WfCluster(s) && WfVoteCall(s, c)
  {
    s.granters[c.from] +
    if c.reply.granted && c.reply.term <= s.servers[c.from].currentTerm then {c.to} else {}
  }

  ghost predicate Wins(s: Cluster, c: VoteCall)
    requires WfCluster(s) && WfVoteCall(s, c)
  {
    s.servers[c.from].role == Candidate && OnVoteReply(s.servers[c.from], |s.servers|, c.reply).role == Leader
  }

  ghost function DoConsumeVote(s: Cluster, q: nat): Cluster
    requires WfCluster(s) && Enabled(s, ConsumeVote(q))
  {
    var c := s.voteCalls[q];
    var v := s.servers[c.from];
    var s1 := s.(servers := s.servers[c.from := OnVoteReply(v, |s.servers|, c.reply)],
                 voteCalls := s.voteCalls[q := c.(consumed := true)],
                 granters := s.granters[c.from := Counted(s, c)]);
    if Wins(s, c) then
      s1.(reigns := s.reigns[v.currentTerm := Reign(c.from, Counted(s, c), v.log)],
      appendCalls := s.appendCalls + ZeroCalls(c.from, |s.servers|))
    else s1
  }

  ghost function DoStart(s: Cluster, i: nat, command: Command): Cluster
    requires WfCluster(s) && i < |s.servers|
  {
    var v := s.servers[i];
    var v' := OnStart(v, i, command);
    s.(servers := s.servers[i := v'],
    reigns :=
      if v.role == Leader && v.currentTerm in s.reigns
      then s.reigns[v.currentTerm := s.reigns[v.currentTerm].(log := v'.log)]
      else s.reigns)
  }

  ghost function DoHeartbeats(s: Cluster, i: nat): Cluster
    requires WfCluster(s) && i < |s.servers|
  {
    if s.servers[i].role != Leader then s
    else s.(appendCalls := s.appendCalls + HeartbeatCalls(s.servers[i], i, |s.servers|))
  }

  ghost function DoHandleAppend(s: Cluster, q: nat): Cluster
    requires WfCluster(s) && Enabled(s, HandleAppend(q))
  {
    var c := s.appendCalls[q];
    var r := OnAppendEntries(s.servers[c.to], c.args);
    s.(servers := s.servers[c.to := r.0],
    appendCalls := s.appendCalls[q := c.(handled := true, reply := r.1)],
    lastAck := if r.1.success && c.args.term > 0 then s.lastAck[(c.args.term, c.to) := q] else s.lastAck)
  }

  ghost function DoConsumeAppend(s: Cluster, q: nat): Cluster
    requires WfCluster(s) && Enabled(s, ConsumeAppend(q))
  {
    var c := s.appendCalls[q];
    s.(servers := s.servers[c.from := OnAppendReply(s.servers[c.from], |s.servers|, c.to, c.args, c.reply)],
    appendCalls := s.appendCalls[q := c.(consumed := true)])
  }

  ghost function Next(s: Cluster, step: Step): Cluster
    requires WfCluster(s) && Enabled(s, step)
  {
    match step
    case Timeout(i) => DoTimeout(s, i)
    case HandleVote(q) => DoHandleVote(s, q)
    case ConsumeVote(q) => DoConsumeVote(s, q)
    case ClientStart(i, command) => DoStart(s, i, command)
    case SendHeartbeats(i) => DoHeartbeats(s, i)
    case HandleAppend(q) => DoHandleAppend(s, q)
    case ConsumeAppend(q) => DoConsumeAppend(s, q)
  }

  // ---------------------------------------------------------------- premises

  /** What a run may assume of the network.  Each part is about the moment a step happens. */
  datatype Premise = Premise(votesInTerm: bool, acksInTerm: bool, inOrder: bool)

  const IN_TERM_AND_ORDER := Premise(true, true, true)

  /** A granted vote is consumed in the term it was asked for. */
  ghost predicate VoteInTerm(s: Cluster, step: Step)
    requires WfCluster(s) && Enabled(s, step)
  {
    step.ConsumeVote? ==>
      var c := s.voteCalls[step.q];
      c.reply.granted ==> c.args.term == s.servers[c.from].currentTerm
  }

  /** An acknowledgement is consumed in the term of its request; the term-0 heartbeat is exempt. */
  ghost predicate AckInTerm(s: Cluster, step: Step)
    requires WfCluster(s) && Enabled(s, step)
  {
    step.ConsumeAppend? ==>
      var c := s.appendCalls[step.q];
      c.reply.success && c.args.term > 0 && s.servers[c.from].role == Leader ==>
        c.args.term == s.servers[c.from].currentTerm
  }

  predicate SameStream(c: AppendCall, d: AppendCall) {
    c.args.term == d.args.term && c.to == d.to
  }

  /** Append calls of one leader term are handled by a follower in the order they were sent. */
  ghost predicate InSendOrder(s: Cluster, step: Step)
    requires WfCluster(s) && Enabled(s, step)
  {
    step.HandleAppend? ==>
      var c := s.appendCalls[step.q];
      c.args.term > 0 ==>
        forall p | 0 <= p < |s.appendCalls| && SameStream(s.appendCalls[p], c) && s.appendCalls[p].handled :: p < step.q
  }

  ghost predicate Admits(premise: Premise, s: Cluster, step: Step)
    requires WfCluster(s) && Enabled(s, step)
  {
    && (premise.votesInTerm ==> VoteInTerm(s, step))
    && (premise.acksInTerm ==> AckInTerm(s, step))
    && (premise.inOrder ==> InSendOrder(s, step))
  }

  // ---------------------------------------------------------------- every step keeps every peer well formed

  lemma TimeoutKeepsWf(s: Cluster, i: nat)
    requires WfCluster(s) && i < |s.servers|
    ensures WfCluster(DoTimeout(s, i))
  {
  }

  lemma HandleVoteKeepsWf(s: Cluster, q: nat)
    requires WfCluster(s) && Enabled(s, HandleVote(q))
    ensures WfCluster(DoHandleVote(s, q))
  {
    RequestVoteKeepsWf(s.servers[s.voteCalls[q].to], |s.servers|, s.voteCalls[q].args);
  }

  lemma ConsumeVoteKeepsWf(s: Cluster, q: nat)
    requires WfCluster(s) && Enabled(s, ConsumeVote(q))
    ensures WfCluster(DoConsumeVote(s, q))
  {
    VoteReplyKeepsWf(s.servers[s.voteCalls[q].from], |s.servers|, s.voteCalls[q].reply);
  }

  lemma StartKeepsWf(s: Cluster, i: nat, command: Command)
    requires WfCluster(s) && i < |s.servers|
    ensures WfCluster(DoStart(s, i, command))
  {
  }

  lemma HeartbeatsKeepWf(s: Cluster, i: nat)
    requires WfCluster(s) && i < |s.servers|
    ensures WfCluster(DoHeartbeats(s, i))
  {
    if s.servers[i].role == Leader {
      forall next: nat | next >= 1
        ensures WfAppend(Heartbeat(s.servers[i], i, next))
      {
        HeartbeatIsWf(s.servers[i], |s.servers|, i, next);
      }
    }
  }

  lemma HandleAppendKeepsWf(s: Cluster, q: nat)
    requires WfCluster(s) && Enabled(s, HandleAppend(q))
    ensures WfCluster(DoHandleAppend(s, q))
  {
    AppendEntriesKeepsWf(s.servers[s.appendCalls[q].to], |s.servers|, s.appendCalls[q].args);
  }

  lemma ConsumeAppendKeepsWf(s: Cluster, q: nat)
    requires WfCluster(s) && Enabled(s, ConsumeAppend(q))
    ensures WfCluster(DoConsumeAppend(s, q))
  {
    var c := s.appendCalls[q];
    AppendReplyKeepsWf(s.servers[c.from], |s.servers|, c.to, c.args, c.reply);
  }

  lemma NextKeepsWf(s: Cluster, step: Step)
    requires WfCluster(s) && Enabled(s, step)
    ensures WfCluster(Next(s, step)) && |Next(s, step).servers| == |s.servers|
  {
    match step
    case Timeout(i) => TimeoutKeepsWf(s, i);
    case HandleVote(q) => HandleVoteKeepsWf(s, q);
    case ConsumeVote(q) => ConsumeVoteKeepsWf(s, q);
    case ClientStart(i, command) => StartKeepsWf(s, i, command);
    case SendHeartbeats(i) => HeartbeatsKeepWf(s, i);
    case HandleAppend(q) => HandleAppendKeepsWf(s, q);
    case ConsumeAppend(q) => ConsumeAppendKeepsWf(s, q);
  }

  // ---------------------------------------------------------------- runs

  /** The cluster after a run, or None when some step of it could not happen. */
  ghost function Run(premise: Premise, n: nat, steps: seq<Step>): (s: Option<Cluster>)
    ensures s.Some? ==> WfCluster(s.value) && |s.value.servers| == n
  {
    if steps == [] then
      Some(InitialCluster(n))
    else
      var before := Run(premise, n, steps[..|steps| - 1]);
      var step := steps[|steps| - 1];
      if before.Some? && Enabled(before.value, step) && Admits(premise, before.value, step) then
        NextKeepsWf(before.value, step);
        Some(Next(before.value, step))
      else None
  }

  /** Every step of a run could happen when it did, and respected the premise. */
  lemma {:induction false} StepHappened(premise: Premise, n: nat, steps: seq<Step>, i: nat)
    requires Run(premise, n, steps).Some? && i < |steps|
    ensures Run(premise, n, steps[..i]).Some?
    ensures var s := Run(premise, n, steps[..i]).value;
            Enabled(s, steps[i]) && Admits(premise, s, steps[i])
  {
    hide WfCluster, Next, Admits, Enabled;
    var prefix := steps[..|steps| - 1];
    if i < |prefix| {
      StepHappened(premise, n, prefix, i);
      assert prefix[..i] == steps[..i];
    } else {
      assert prefix == steps[..i];
    }
  }

  lemma TermsNeverDecrease(s: Cluster, step: Step)
    requires WfCluster(s) && Enabled(s, step)
    ensures |Next(s, step).servers| == |s.servers|
    ensures forall v :: 0 <= v < |s.servers| ==> s.servers[v].currentTerm <= Next(s, step).servers[v].currentTerm
  {
    hide WfServer, OnRequestVote, OnVoteReply, OnAppendEntries, OnAppendReply, VoteCalls, ZeroCalls, HeartbeatCalls;
    match step
    case Timeout(i) => {}
    case HandleVote(q) => RequestVoteKeepsWf(s.servers[s.voteCalls[q].to], |s.servers|, s.voteCalls[q].args);
    case ConsumeVote(q) => VoteReplyKeepsWf(s.servers[s.voteCalls[q].from], |s.servers|, s.voteCalls[q].reply);
    case ClientStart(i, command) => {}
    case SendHeartbeats(i) => {}
    case HandleAppend(q) => AppendEntriesKeepsWf(s.servers[s.appendCalls[q].to], |s.servers|, s.appendCalls[q].args);
    case ConsumeAppend(q) =>
      var c := s.appendCalls[q];
      AppendReplyKeepsWf(s.servers[c.from], |s.servers|, c.to, c.args, c.reply);
  }

  /** In every run, whatever the network does: logs stay well formed, deliveries are gap free, cuts spare index 0. */
  lemma PeersStayWellFormed(premise: Premise, n: nat, steps: seq<Step>)
    requires Run(premise, n, steps).Some?
    ensures forall v :: 0 <= v < n ==>
              var server := Run(premise, n, steps).value.servers[v];
              && server.log != [] && server.log[0] == SENTINEL && LastTerm(server.log) <= server.currentTerm
              && (forall i, j :: 0 <= i < j < |server.log| ==> server.log[i].term <= server.log[j].term)
              && |server.applied| == server.lastApplied
              && (forall i :: 0 <= i < |server.applied| ==> server.applied[i].index == i + 1)
    ensures forall q :: 0 <= q < |Run(premise, n, steps).value.appendCalls| ==>
              var c := Run(premise, n, steps).value.appendCalls[q];
              c.to < n && (Conflicts(Run(premise, n, steps).value.servers[c.to], c.args) ==> c.args.prevLogIndex > 0)
  {
    var s := Run(premise, n, steps).value;
    hide Run;
    assert WfCluster(s);
    forall q | 0 <= q < |s.appendCalls|
      ensures s.appendCalls[q].to < n
      ensures Conflicts(s.servers[s.appendCalls[q].to], s.appendCalls[q].args) ==>
              s.appendCalls[q].args.prevLogIndex > 0
    {
      assert WfAppendCall(s, s.appendCalls[q]);
      assert WfServer(s.servers[s.appendCalls[q].to], n);
    }
  }
}
