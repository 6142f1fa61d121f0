/**
 The state of one Raft peer and the effect of each of its lock-held sections, as
 functions on values.  Class `Raft` (Raft.dfy) updates the same state in place and is
 proved against these functions; module `RaftCluster` runs n peers over a network.
 */
module RaftServer {

  /** A command handed to `Start`; `Nil` is the command of the sentinel entry. */
  datatype Command = Nil | Command(value: string)

  datatype Entry = Entry(term: nat, command: Command)

  const SENTINEL := Entry(0, Nil)

  datatype Role = Leader | Follower | Candidate

  /** A message on applyCh; CommandValid is always true. */
  datatype ApplyMsg = ApplyMsg(index: nat, command: Command)

  /** `votedFor` is -1 when the peer has not voted; `applied` records what was sent on applyCh. */
  datatype Server = Server(
    role: Role,
    votes: nat,
    currentTerm: nat,
    votedFor: int,
    log: seq<Entry>,
    commitIndex: nat,
    lastApplied: nat,
    nextIndex: seq<nat>,
    matchIndex: seq<nat>,
    applied: seq<ApplyMsg>)

  datatype VoteArgs = VoteArgs(term: nat, candidateId: nat, lastLogIndex: nat, lastLogTerm: nat)
  datatype VoteReply = VoteReply(term: nat, granted: bool)
  datatype AppendArgs = AppendArgs(
    term: nat, leaderId: nat, prevLogIndex: nat, prevLogTerm: nat, entries: seq<Entry>, leaderCommit: nat)
  datatype AppendReply = AppendReply(term: nat, success: bool)

  /** The all-zero request sent to every peer on winning an election. */
  const ZERO_APPEND := AppendArgs(0, 0, 0, 0, [], 0)

  function Initial(): Server {
    Server(Follower, 0, 0, -1, [SENTINEL], 0, 0, [], [], [])
  }

  function LastTerm(log: seq<Entry>): nat
    requires log != []
  {
    log[|log| - 1].term
  }

  /** Every place that learns of a higher term does this. */
  function StepDown(s: Server, term: nat): Server {
    s.(currentTerm := term, role := Follower, votedFor := -1)
  }

  // ---------------------------------------------------------------- elections

  function BecomeCandidate(s: Server, me: nat): Server {
    s.(role := Candidate, currentTerm := s.currentTerm + 1, votedFor := me, votes := 1)
  }

  function VoteRequest(s: Server, me: nat): VoteArgs
    requires s.log != []
  {
    VoteArgs(s.currentTerm, me, |s.log| - 1, LastTerm(s.log))
  }

  /** A log ending at (lastIndex, lastTerm) is at least as up to date as `log`. */
  predicate UpToDate(lastIndex: nat, lastTerm: nat, log: seq<Entry>)
    requires log != []
  {
    if lastTerm == LastTerm(log) then lastIndex >= |log| - 1 else lastTerm > LastTerm(log)
  }

  function Raise(s: Server, term: nat): Server {
    if term > s.currentTerm then StepDown(s, term) else s
  }

  predicate Grants(s: Server, args: VoteArgs)
    requires s.log != []
  {
    && (s.votedFor == -1 || s.votedFor == args.candidateId)
    && UpToDate(args.lastLogIndex, args.lastLogTerm, s.log)
  }

  /** The reply carries a term only when the request is stale. */
  function OnRequestVote(s: Server, args: VoteArgs): (Server, VoteReply)
    requires s.log != []
  {
    if args.term < s.currentTerm then
      (s, VoteReply(s.currentTerm, false))
    else
      var s1 := Raise(s, args.term);
      if Grants(s1, args) then (s1.(votedFor := args.candidateId), VoteReply(0, true)) else (s1, VoteReply(0, false))
  }

  /** Becoming leader: indices are reset for all n peers. */
  function Won(s: Server, n: nat): Server {
    s.(role := Leader, nextIndex := seq(n, _ => |s.log|), matchIndex := seq(n, _ => 0))
  }

  /** The reply half of sendRequestVote; it does not look at the term of the request. */
  function OnVoteReply(s: Server, n: nat, reply: VoteReply): Server {
    if reply.term > s.currentTerm then
      StepDown(s, reply.term)
    else if !reply.granted then
      s
    else
      var s1 := s.(votes := s.votes + 1);
      if s1.votes > n / 2 && s1.role == Candidate then Won(s1, n) else s1
  }

  // ---------------------------------------------------------------- replication

  function OnStart(s: Server, me: nat, command: Command): Server
    requires s.role == Leader ==> me < |s.nextIndex| && me < |s.matchIndex|
  {
    if s.role != Leader then
      s
    else
      s.(log := s.log + [Entry(s.currentTerm, command)],
      matchIndex := s.matchIndex[me := |s.log|],
      nextIndex := s.nextIndex[me := |s.log| + 1])
  }

  /** The request a leader sends to a peer whose next index is `next`. */
  function Heartbeat(s: Server, me: nat, next: nat): AppendArgs
    requires s.log != [] && next >= 1
  {
    if next < |s.log| then
      AppendArgs(s.currentTerm, me, next - 1, s.log[next - 1].term, s.log[next..], s.commitIndex)
    else
      AppendArgs(s.currentTerm, me, next - 1, LastTerm(s.log), [], s.commitIndex)
  }

  /** What an apply loop sends: the commands at from + 1 .. to. */
  function Deliveries(log: seq<Entry>, from: nat, to: nat): seq<ApplyMsg>
    requires to < |log|
  {
    if to <= from then []
    else seq(to - from, i requires 0 <= i < to - from => ApplyMsg(from + 1 + i, log[from + 1 + i].command))
  }

  /** Both apply loops: send everything after lastApplied up to commitIndex. */
  function ApplyCommitted(s: Server): Server
    requires s.commitIndex < |s.log|
  {
    s.(applied := s.applied + Deliveries(s.log, s.lastApplied, s.commitIndex),
    lastApplied := if s.commitIndex > s.lastApplied then s.commitIndex else s.lastApplied)
  }

  function FollowCommit(s: Server, leaderCommit: nat): Server
    requires s.log != []
  {
    if leaderCommit > s.commitIndex then
      ApplyCommitted(s.(commitIndex := if leaderCommit > |s.log| - 1 then |s.log| - 1 else leaderCommit))
    else
      s
  }

  function OnAppendEntries(s: Server, args: AppendArgs): (Server, AppendReply)
    requires s.log != []
  {
    if args.term < s.currentTerm then
      (s, AppendReply(s.currentTerm, false))
    else
      var s1 := Raise(s, args.term);
      if args.prevLogIndex >= |s.log| then
        (s1, AppendReply(s1.currentTerm, false))
      else if args.prevLogTerm != s.log[args.prevLogIndex].term then
        (s1.(log := s.log[..args.prevLogIndex]), AppendReply(s1.currentTerm, false))
      else
        var s2 := s1.(log := s.log[..args.prevLogIndex + 1] + args.entries);
        (FollowCommit(s2, args.leaderCommit), AppendReply(s1.currentTerm, true))
  }

  /** How many indices reach N. */
  function CountReached(matchIndex: seq<nat>, N: nat): nat {
    if matchIndex == [] then 0
    else CountReached(matchIndex[..|matchIndex| - 1], N) + (if matchIndex[|matchIndex| - 1] >= N then 1 else 0)
  }

  predicate Committable(s: Server, n: nat, N: nat)
    requires N < |s.log|
  {
    s.log[N].term == s.currentTerm && CountReached(s.matchIndex, N) > n / 2
  }

  /** `point` is the largest committable index that is not below commitIndex. */
  ghost predicate IsCommitPoint(s: Server, n: nat, point: nat) {
    && s.commitIndex <= point < |s.log|
    && Committable(s, n, point)
    && forall N: nat :: point < N < |s.log| ==> !Committable(s, n, N)
  }

  /** The downward scan starting at index from - 1; -1 when nothing is committable. */
  function CommitScan(s: Server, n: nat, from: nat): (point: int)
    requires from <= |s.log|
    ensures point == -1 || (s.commitIndex <= point < from && Committable(s, n, point))
    ensures forall N: nat :: s.commitIndex <= N < from && point < N ==> !Committable(s, n, N)
  {
    if from <= s.commitIndex then -1
    else if Committable(s, n, from - 1) then from - 1
    else CommitScan(s, n, from - 1)
  }

  function Commit(s: Server, n: nat): Server {
    var point := CommitScan(s, n, |s.log|);
    if point < 0 then s else ApplyCommitted(s.(commitIndex := point))
  }

  /** The indices a leader keeps for a peer after an acknowledgement. */
  function Acknowledged(s: Server, peer: nat, args: AppendArgs, reply: AppendReply): Server
    requires peer < |s.nextIndex| && peer < |s.matchIndex|
  {
    if reply.success then
      var matched := |args.entries| + args.prevLogIndex;
      s.(matchIndex := s.matchIndex[peer := matched], nextIndex := s.nextIndex[peer := matched + 1])
    else s
  }

  /** A leader backs off and returns early on a rejection, unless it cannot back off further. */
  predicate Scans(s: Server, peer: nat, reply: AppendReply)
    requires peer < |s.nextIndex|
  {
    s.role == Leader && reply.term <= s.currentTerm && (reply.success || s.nextIndex[peer] <= 1)
  }

  /** The reply half of sendAppendEntries; it does not compare the term of the request either. */
  function OnAppendReply(s: Server, n: nat, peer: nat, args: AppendArgs, reply: AppendReply): Server
    requires s.role == Leader ==> peer < |s.nextIndex| && peer < |s.matchIndex|
  {
    if s.role != Leader then
      s
    else if reply.term > s.currentTerm then
      StepDown(s, reply.term)
    else if !reply.success && s.nextIndex[peer] > 1 then
      s.(nextIndex := s.nextIndex[peer := s.nextIndex[peer] / 2])
    else
      Commit(Acknowledged(s, peer, args, reply), n)
  }

  // ---------------------------------------------------------------- well-formed peers

  /** Non-empty, a term-0 sentinel first, then positive non-decreasing terms. */
  ghost predicate WfLog(log: seq<Entry>) {
    && log != []
    && log[0] == SENTINEL
    && (forall i :: 0 < i < |log| ==> log[i].term > 0)
    && (forall i, j :: 0 <= i < j < |log| ==> log[i].term <= log[j].term)
  }

  /** What holds of every peer of an n-peer cluster in every crash-free run. */
  ghost predicate WfServer(s: Server, n: nat) {
    && WfLog(s.log)
    && LastTerm(s.log) <= s.currentTerm
    && |s.applied| == s.lastApplied
    && (forall i :: 0 <= i < |s.applied| ==> s.applied[i].index == i + 1)
    && (s.role != Follower ==> s.currentTerm > 0)
    && (s.role == Leader ==>
          |s.nextIndex| == n && |s.matchIndex| == n && forall p :: 0 <= p < n ==> s.nextIndex[p] >= 1)
  }

  /** What holds of every AppendEntries request ever sent. */
  ghost predicate WfAppend(args: AppendArgs) {
    && (args.prevLogIndex == 0 ==> args.prevLogTerm == 0)
    && (forall i :: 0 <= i < |args.entries| ==>
          0 < args.entries[i].term <= args.term && args.prevLogTerm <= args.entries[i].term)
    && (forall i, j :: 0 <= i < j < |args.entries| ==> args.entries[i].term <= args.entries[j].term)
  }

  // ---------------------------------------------------------------- every handler keeps a peer well formed

  lemma RequestVoteKeepsWf(s: Server, n: nat, args: VoteArgs)
    requires WfServer(s, n)
    ensures WfServer(OnRequestVote(s, args).0, n)
    ensures s.currentTerm <= OnRequestVote(s, args).0.currentTerm
  {
    assert WfServer(Raise(s, args.term), n);
  }

  lemma VoteReplyKeepsWf(s: Server, n: nat, reply: VoteReply)
    requires WfServer(s, n)
    ensures WfServer(OnVoteReply(s, n, reply), n)
    ensures s.currentTerm <= OnVoteReply(s, n, reply).currentTerm
  {
  }

  lemma DeliverOneMore(log: seq<Entry>, from: nat, to: nat)
    requires from <= to && to + 1 < |log|
    ensures Deliveries(log, from, to + 1) ==
            (if to == from then [] else Deliveries(log, from, to)) + [ApplyMsg(to + 1, log[to + 1].command)]
  {
  }

  lemma NothingToDeliver(log: seq<Entry>, from: nat, to: nat)
    requires to <= from && to < |log|
    ensures Deliveries(log, from, to) == []
  {
  }

  lemma LogStartsNonEmpty(log: seq<Entry>)
    requires WfLog(log)
    ensures log != []
  {
  }

  lemma DeliveriesGapFree(s: Server, n: nat)
    requires WfServer(s, n) && s.commitIndex < |s.log|
    ensures WfServer(ApplyCommitted(s), n)
  {
  }

  lemma SplicedLogIsWf(log: seq<Entry>, args: AppendArgs)
    requires WfLog(log) && WfAppend(args) && args.prevLogIndex < |log|
    requires log[args.prevLogIndex].term == args.prevLogTerm
    ensures WfLog(log[..args.prevLogIndex + 1] + args.entries)
    ensures LastTerm(log[..args.prevLogIndex + 1] + args.entries) <= if args.entries == [] then LastTerm(log)
            else args.term
  {
    var prefix := log[..args.prevLogIndex + 1];
    forall i, j | 0 <= i < |prefix| && 0 <= j < |args.entries|
      ensures prefix[i].term <= args.entries[j].term
    {
      assert prefix[i].term <= args.prevLogTerm;
    }
  }

  lemma FollowCommitKeepsWf(s: Server, n: nat, leaderCommit: nat)
    requires WfServer(s, n)
    ensures WfServer(FollowCommit(s, leaderCommit), n)
  {
  }

  lemma RaisedIsWf(s: Server, n: nat, term: nat)
    requires WfServer(s, n)
    ensures WfServer(Raise(s, term), n)
  {
  }

  /** A cut that leaves the sentinel. */
  lemma CutIsWf(s: Server, n: nat, k: nat)
    requires WfServer(s, n) && 0 < k <= |s.log|
    ensures WfServer(s.(log := s.log[..k]), n)
  {
    assert s.log[k - 1].term <= LastTerm(s.log);
  }

  lemma SplicedIsWf(s: Server, n: nat, args: AppendArgs)
    requires WfServer(s, n) && WfAppend(args) && args.term <= s.currentTerm && args.prevLogIndex < |s.log|
    requires s.log[args.prevLogIndex].term == args.prevLogTerm
    ensures WfServer(s.(log := s.log[..args.prevLogIndex + 1] + args.entries), n)
  {
    SplicedLogIsWf(s.log, args);
    hide WfLog, WfAppend;
  }

  lemma ConflictIsPositive(s: Server, n: nat, args: AppendArgs)
    requires WfServer(s, n) && WfAppend(args) && args.prevLogIndex < |s.log|
    requires s.log[args.prevLogIndex].term != args.prevLogTerm
    ensures args.prevLogIndex > 0
  {
  }

  lemma FollowCommitKeepsTerm()
    ensures forall s: Server, leaderCommit: nat | s.log != [] ::
              FollowCommit(s, leaderCommit).currentTerm == s.currentTerm
  {
  }

  lemma WellFormedLog(v: Server, n: nat)
    requires WfServer(v, n)
    ensures WfLog(v.log) && LastTerm(v.log) <= v.currentTerm
  {
  }

  lemma AppendEntriesKeepsWf(s: Server, n: nat, args: AppendArgs)
    requires WfServer(s, n) && WfAppend(args)
    ensures WfServer(OnAppendEntries(s, args).0, n)
    ensures s.currentTerm <= OnAppendEntries(s, args).0.currentTerm
  {
    hide WfServer, WfAppend, WfLog, FollowCommit;
    WellFormedLog(s, n);
    LogStartsNonEmpty(s.log);
    RaisedIsWf(s, n, args.term);
    FollowCommitKeepsTerm();
    var s1 := Raise(s, args.term);
    if args.term >= s.currentTerm && args.prevLogIndex < |s.log| {
      if args.prevLogTerm != s.log[args.prevLogIndex].term {
        ConflictIsPositive(s, n, args);
        CutIsWf(s1, n, args.prevLogIndex);
      } else {
        SplicedIsWf(s1, n, args);
        FollowCommitKeepsWf(s1.(log := s.log[..args.prevLogIndex + 1] + args.entries), n, args.leaderCommit);
      }
    }
  }

  lemma AcknowledgedIsWf(v: Server, n: nat, peer: nat, args: AppendArgs, reply: AppendReply)
    requires WfServer(v, n) && v.role == Leader && peer < |v.nextIndex| && peer < |v.matchIndex|
    ensures WfServer(Acknowledged(v, peer, args, reply), n)
  {
  }

  lemma BackOffIsWf(s: Server, n: nat, peer: nat)
    requires WfServer(s, n) && s.role == Leader && peer < n && s.nextIndex[peer] > 1
    ensures WfServer(s.(nextIndex := s.nextIndex[peer := s.nextIndex[peer] / 2]), n)
  {
  }

  lemma CommittedIsWf(s: Server, n: nat, point: nat)
    requires WfServer(s, n) && point < |s.log|
    ensures WfServer(ApplyCommitted(s.(commitIndex := point)), n)
  {
    DeliveriesGapFree(s.(commitIndex := point), n);
  }

  lemma CommitIsWf(s: Server, n: nat)
    requires WfServer(s, n)
    ensures WfServer(Commit(s, n), n)
  {
    hide WfServer, CommitScan;
    var point := CommitScan(s, n, |s.log|);
    if point >= 0 {
      CommittedIsWf(s, n, point);
    }
  }

  lemma AcknowledgedKeeps(s: Server, peer: nat, args: AppendArgs, reply: AppendReply)
    requires peer < |s.nextIndex| && peer < |s.matchIndex|
    ensures var s' := Acknowledged(s, peer, args, reply); s'.currentTerm == s.currentTerm && s'.log == s.log
  {
  }

  lemma CommitKeepsTerm(s: Server, n: nat)
    ensures Commit(s, n).currentTerm == s.currentTerm
  {
  }

  /** What a leader may rely on when it sends heartbeats. */
  lemma LeaderShape(s: Server, n: nat)
    requires WfServer(s, n) && s.role == Leader
    ensures s.log != [] && s.currentTerm > 0 && |s.nextIndex| == n && |s.matchIndex| == n
    ensures forall p :: 0 <= p < n ==> s.nextIndex[p] >= 1
  {
  }

  lemma AppendReplyKeepsWf(s: Server, n: nat, peer: nat, args: AppendArgs, reply: AppendReply)
    requires WfServer(s, n) && peer < n
    ensures WfServer(OnAppendReply(s, n, peer, args, reply), n)
    ensures s.currentTerm <= OnAppendReply(s, n, peer, args, reply).currentTerm
  {
    hide WfServer, Acknowledged, Commit;
    if s.role == Leader {
      LeaderShape(s, n);
      RaisedIsWf(s, n, reply.term);
      if reply.term <= s.currentTerm {
        if !reply.success && s.nextIndex[peer] > 1 {
          BackOffIsWf(s, n, peer);
        } else {
          AcknowledgedIsWf(s, n, peer, args, reply);
          AcknowledgedKeeps(s, peer, args, reply);
          CommitIsWf(Acknowledged(s, peer, args, reply), n);
          CommitKeepsTerm(Acknowledged(s, peer, args, reply), n);
        }
      }
    }
  }

  lemma HeartbeatIsWf(s: Server, n: nat, me: nat, next: nat)
    requires WfServer(s, n) && next >= 1
    ensures WfAppend(Heartbeat(s, me, next))
  {
  }

  // ---------------------------------------------------------------- what the handlers do

  /** A vote is granted only to an up-to-date candidate, in its term; the log and, within a term, the role stay. */
  lemma VoteOutcome(s: Server, n: nat, args: VoteArgs)
    requires WfServer(s, n)
    ensures var (s', reply) := OnRequestVote(s, args);
            && s' == s.(currentTerm := s'.currentTerm, role := s'.role, votedFor := s'.votedFor)
            && s.currentTerm <= s'.currentTerm
            && (s'.role != Follower ==> s'.role == s.role && s'.currentTerm == s.currentTerm)
            && (reply.granted ==> s'.currentTerm == args.term && UpToDate(args.lastLogIndex, args.lastLogTerm, s.log))
  {
  }

  /** A reply of a higher term deposes; a grant counts one vote and may win; anything else changes nothing. */
  lemma VoteReplyOutcome(s: Server, n: nat, reply: VoteReply)
    ensures var s' := OnVoteReply(s, n, reply);
            && s'.log == s.log && s'.commitIndex == s.commitIndex && s'.applied == s.applied
            && s'.lastApplied == s.lastApplied
            && (reply.term > s.currentTerm ==> s' == StepDown(s, reply.term))
            && (reply.term <= s.currentTerm ==>
                  && s'.currentTerm == s.currentTerm && s'.votedFor == s.votedFor
                  && s'.votes == (if reply.granted then s.votes + 1 else s.votes)
                  && (s'.role == s.role
                      || (reply.granted && s.role == Candidate && s'.role == Leader && s'.votes > n / 2)))
  {
  }

  /** Exactly when a vote is granted, whom it is then for, and the term in the reply. */
  lemma VoteGrantedIff(s: Server, args: VoteArgs)
    requires s.log != []
    ensures var (s', reply) := OnRequestVote(s, args);
            && (reply.granted <==>
                  && args.term >= s.currentTerm
                  && (args.term > s.currentTerm || s.votedFor == -1 || s.votedFor == args.candidateId)
                  && (args.lastLogTerm > LastTerm(s.log)
                      || (args.lastLogTerm == LastTerm(s.log) && args.lastLogIndex >= |s.log| - 1)))
            && (reply.granted ==> s'.votedFor == args.candidateId)
            && (!reply.granted && args.term <= s.currentTerm ==> s' == s)
            && reply.term == if args.term < s.currentTerm then s.currentTerm else 0
  {
  }

  predicate Accepts(s: Server, args: AppendArgs) {
    args.term >= s.currentTerm && args.prevLogIndex < |s.log| && args.prevLogTerm == s.log[args.prevLogIndex].term
  }

  predicate Conflicts(s: Server, args: AppendArgs) {
    args.term >= s.currentTerm && args.prevLogIndex < |s.log| && args.prevLogTerm != s.log[args.prevLogIndex].term
  }

  /** The log a peer is left with. */
  function AppendedLog(s: Server, args: AppendArgs): seq<Entry> {
    if Accepts(s, args) then s.log[..args.prevLogIndex + 1] + args.entries
    else if Conflicts(s, args) then s.log[..args.prevLogIndex]
    else s.log
  }

  /** A peer succeeds exactly when it accepts; it then holds the spliced log and the request's term. */
  lemma AppendOutcome(s: Server, n: nat, args: AppendArgs)
    requires WfServer(s, n)
    ensures var (s', reply) := OnAppendEntries(s, args);
            && (reply.success <==> Accepts(s, args))
            && s'.log == AppendedLog(s, args)
            && s'.currentTerm == (if args.term < s.currentTerm then s.currentTerm else args.term)
            && s'.role == (if args.term > s.currentTerm then Follower else s.role)
            && (!Accepts(s, args) ==> s'.commitIndex == s.commitIndex && s'.applied == s.applied)
  {
  }

  /** An accepting peer raises its term, splices its log and then follows the commit index. */
  lemma AcceptedFollows(s: Server, args: AppendArgs)
    requires s.log != [] && Accepts(s, args)
    ensures AppendedLog(s, args) != []
    ensures OnAppendEntries(s, args).0
            == FollowCommit(Raise(s, args.term).(log := AppendedLog(s, args)), args.leaderCommit)
  {
    hide FollowCommit;
  }

  /** On accepting, a peer follows the leader's commit index as far as its log reaches, applying on the way. */
  lemma AcceptCommits(s: Server, n: nat, args: AppendArgs)
    requires WfServer(s, n) && Accepts(s, args)
    ensures var s' := OnAppendEntries(s, args).0;
            var log := AppendedLog(s, args);
            if args.leaderCommit > s.commitIndex then
              && s'.commitIndex == (if args.leaderCommit < |log| then args.leaderCommit else |log| - 1)
              && s'.applied == s.applied + Deliveries(log, |s.applied|, s'.commitIndex)
            else s'.commitIndex == s.commitIndex && s'.applied == s.applied
  {
    hide WfLog, Deliveries, OnAppendEntries, AppendedLog;
    AcceptedFollows(s, args);
  }

  /** The all-zero request sent on election changes nothing at any peer, accepted or not. */
  lemma ZeroAppendIsHarmless(s: Server, n: nat)
    requires WfServer(s, n)
    ensures OnAppendEntries(s, ZERO_APPEND).0 == s
  {
    if s.currentTerm == 0 {
      assert s.log[..1] + [] == s.log;
    }
  }

  /** The scan leaves a leader alone, or commits and applies up to a committable index. */
  lemma CommitOutcome(s: Server, n: nat)
    requires WfServer(s, n)
    ensures var s' := Commit(s, n);
            var point := CommitScan(s, n, |s.log|);
            && s' == s.(commitIndex := s'.commitIndex, lastApplied := s'.lastApplied, applied := s'.applied)
            && (point < 0 ==> s' == s)
            && (point >= 0 ==>
                s'.commitIndex == point && s'.applied == s.applied + Deliveries(s.log, |s.applied|, point))
  {
  }

  // ---------------------------------------------------------------- the commit scan

  /** The scan finds exactly the largest committable index, and reports none exactly when there is none. */
  lemma CommitScanSpec(s: Server, n: nat)
    ensures var point := CommitScan(s, n, |s.log|);
            && (point >= 0 ==> IsCommitPoint(s, n, point))
            && (point < 0 <==> forall N: nat :: s.commitIndex <= N < |s.log| ==> !Committable(s, n, N))
  {
  }

  /** One turn of the downward scan. */
  lemma ScanUnfolds(s: Server, n: nat, from: nat)
    requires from <= |s.log|
    ensures CommitScan(s, n, from) ==
              if from <= s.commitIndex then -1
              else if Committable(s, n, from - 1) then from - 1
              else CommitScan(s, n, from - 1)
  {
  }

  /** The set of peers whose match index reaches N. */
  ghost function Reached(matchIndex: seq<nat>, N: nat): set<nat> {
    set p: nat | p < |matchIndex| && matchIndex[p] >= N
  }

  lemma ReachedSplits(matchIndex: seq<nat>, N: nat)
    requires matchIndex != []
    ensures var last := |matchIndex| - 1;
            var rest := Reached(matchIndex[..last], N);
            last !in rest && Reached(matchIndex, N) == rest + if matchIndex[last] >= N then {last} else {}
  {
  }

  lemma {:induction false} CountIsCardinality(matchIndex: seq<nat>, N: nat)
    ensures CountReached(matchIndex, N) == |Reached(matchIndex, N)|
  {
    if matchIndex == [] {
      assert Reached(matchIndex, N) == {};
    } else {
      CountIsCardinality(matchIndex[..|matchIndex| - 1], N);
      ReachedSplits(matchIndex, N);
      hide Reached;
    }
  }
}
