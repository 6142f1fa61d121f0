/**
 Runs of three peers: one that delivers a command under every premise, and runs of the same code in
 which votes counted out of term, or requests handled out of order, break a theorem.
 */
module RaftReordering {
  import opened Wrappers
  import opened RaftServer
  import opened RaftCluster
  import opened RaftLogs
  import opened RaftScenes

  const X := Command("x")
  const Y := Command("y")
  const Z := Command("z")
  const ONE := [SENTINEL, Entry(1, X)]

  /** A leader that won with so many votes, with its log, its indices and what it has applied. */
  function Chief(votes: nat, term: nat, me: nat, log: seq<Entry>, next: seq<nat>, matched: seq<nat>,
                 applied: seq<ApplyMsg>): Server {
    Server(Leader, votes, term, me, log, |applied|, |applied|, next, matched, applied)
  }

  /** A follower that never led, with its vote and log. */
  function Voted(term: nat, votedFor: int, log: seq<Entry>): Server {
    Server(Follower, 0, term, votedFor, log, 0, 0, [], [], [])
  }

  // ---------------------------------------------------------------- three peers, one command

  lemma ThreeAtStart(premise: Premise)
    ensures Goes(premise, 3, [], InitialCluster(3))
    ensures InitialCluster(3).servers == [Initial(), Initial(), Initial()]
  {
  }

  /** Peer 0 leads term 1 with the vote of peer 1. */
  lemma FirstLeader(premise: Premise) returns (steps: seq<Step>, s: Cluster)
    ensures Goes(premise, 3, steps, s)
    ensures s.servers == [Chief(2, 1, 0, [SENTINEL], [1, 1, 1], [0, 0, 0], []), Voted(1, 0, [SENTINEL]), Initial()]
  {
    hide Goes;
    ThreeAtStart(premise);
    steps, s := WinsWithOne(premise, [], InitialCluster(3), 0, 1);
    assert Winner(Initial(), 1, 0, 2, 3) == Chief(2, 1, 0, [SENTINEL], [1, 1, 1], [0, 0, 0], []) by {
      assert seq(3, _ => |[SENTINEL]|) == [1, 1, 1] && seq(3, _ => 0) == [0, 0, 0];
    }
    assert s.servers == [Winner(Initial(), 1, 0, 2, 3), Voter(Initial(), 1, 0), Initial()];
  }

  lemma StartsFirst()
    ensures OnStart(Chief(2, 1, 0, [SENTINEL], [1, 1, 1], [0, 0, 0], []), 0, X)
            == Chief(2, 1, 0, ONE, [2, 1, 1], [1, 0, 0], [])
  {
    assert [SENTINEL] + [Entry(1, X)] == ONE;
    assert [1, 1, 1][0 := 2] == [2, 1, 1] && [0, 0, 0][0 := 1] == [1, 0, 0];
  }

  lemma TakesCommand()
    ensures OnAppendEntries(Voted(1, 0, [SENTINEL]), AppendArgs(1, 0, 0, 0, [Entry(1, X)], 0))
            == (Voted(1, 0, ONE), AppendReply(1, true))
    ensures RequestTo(Chief(2, 1, 0, ONE, [2, 1, 1], [1, 0, 0], []), 0, 1) == AppendArgs(1, 0, 0, 0, [Entry(1, X)], 0)
  {
    assert [SENTINEL][..1] + [Entry(1, X)] == ONE && ONE[1..] == [Entry(1, X)];
  }

  lemma TwoReach(a: nat, b: nat, c: nat, N: nat)
    ensures CountReached([a, b, c], N)
            == (if a >= N then 1 else 0) + (if b >= N then 1 else 0) + (if c >= N then 1 else 0)
  {
    assert [a, b, c][..2] == [a, b] && [a, b][..1] == [a] && [a][..0] == [];
    assert CountReached([a], N) == if a >= N then 1 else 0;
    assert CountReached([a, b], N) == CountReached([a], N) + if b >= N then 1 else 0;
  }

  lemma CommitsCommand()
    ensures OnAppendReply(Chief(2, 1, 0, ONE, [2, 1, 1], [1, 0, 0], []), 3, 1, AppendArgs(1, 0, 0, 0, [Entry(1, X)], 0),
            AppendReply(1, true))
         == Chief(2, 1, 0, ONE, [2, 2, 1], [1, 1, 0], [ApplyMsg(1, X)])
  {
    var args := AppendArgs(1, 0, 0, 0, [Entry(1, X)], 0);
    var v := Acknowledged(Chief(2, 1, 0, ONE, [2, 1, 1], [1, 0, 0], []), 1, args, AppendReply(1, true));
    assert [2, 1, 1][1 := 2] == [2, 2, 1] && [1, 0, 0][1 := 1] == [1, 1, 0];
    assert v == Chief(2, 1, 0, ONE, [2, 2, 1], [1, 1, 0], []);
    TwoReach(1, 1, 0, 1);
    assert Committable(v, 3, 1);
    assert Deliveries(ONE, 0, 1) == [ApplyMsg(1, X)];
  }

  /** Peer 0 starts X, replicates it to peer 1, and commits and applies it. */
  lemma CommandIsCommitted(premise: Premise, steps: seq<Step>, s: Cluster) returns (steps': seq<Step>, s': Cluster)
    requires Goes(premise, 3, steps, s)
    requires s.servers == [Chief(2, 1, 0, [SENTINEL], [1, 1, 1], [0, 0, 0], []), Voted(1, 0, [SENTINEL]), Initial()]
    ensures Goes(premise, 3, steps', s') && CallsKept(s, s')
    ensures s'.servers == [Chief(2, 1, 0, ONE, [2, 2, 1], [1, 1, 0], [ApplyMsg(1, X)]), Voted(1, 0, ONE), Initial()]
  {
    hide Goes, OnAppendEntries, OnAppendReply, OnStart;
    StartsFirst();
    steps', s' := Starts(premise, 3, steps, s, 0, X);
    assert s'.servers == [Chief(2, 1, 0, ONE, [2, 1, 1], [1, 0, 0], []), Voted(1, 0, [SENTINEL]), Initial()];
    TakesCommand();
    CommitsCommand();
    hide RequestTo;
    steps', s' := Replicates(premise, 3, steps', s', 0, 1);
  }

  lemma FollowsCommit()
    ensures var leader := Chief(2, 1, 0, ONE, [2, 2, 1], [1, 1, 0], [ApplyMsg(1, X)]);
            && RequestTo(leader, 0, 1) == AppendArgs(1, 0, 1, 1, [], 1)
            && OnAppendEntries(Voted(1, 0, ONE), AppendArgs(1, 0, 1, 1, [], 1)).0.applied == [ApplyMsg(1, X)]
            && OnAppendEntries(Voted(1, 0, ONE), AppendArgs(1, 0, 1, 1, [], 1)).1 == AppendReply(1, true)
            && [ApplyMsg(1, X)]
                <= OnAppendReply(leader, 3, 1, AppendArgs(1, 0, 1, 1, [], 1), AppendReply(1, true)).applied
  {
    assert ONE[..2] + [] == ONE;
    assert Deliveries(ONE, 0, 1) == [ApplyMsg(1, X)];
  }

  /** Under every premise some run delivers: peers 0 and 1 both apply X at index 1. */
  lemma CommandIsDelivered(premise: Premise) returns (steps: seq<Step>)
    ensures Run(premise, 3, steps).Some?
    ensures var servers := Run(premise, 3, steps).value.servers;
            [ApplyMsg(1, X)] <= servers[0].applied && servers[1].applied == [ApplyMsg(1, X)]
  {
    hide Run, OnAppendEntries, OnAppendReply;
    var s;
    steps, s := FirstLeader(premise);
    steps, s := CommandIsCommitted(premise, steps, s);
    FollowsCommit();
    hide RequestTo;
    steps, s := Replicates(premise, 3, steps, s, 0, 1);
  }

  // ---------------------------------------------------------------- votes counted out of term

  /** Peer 1 votes for peer 0 in term 1, and peer 0 moves on to term 2 before it hears of it. */
  lemma VoteGoesStale(premise: Premise) returns (steps: seq<Step>, s: Cluster, q: nat)
    ensures Goes(premise, 3, steps, s) && q < |s.voteCalls|
    ensures s.servers == [BecomeCandidate(BecomeCandidate(Initial(), 0), 0), Voted(1, 0, [SENTINEL]), Initial()]
    ensures var c := s.voteCalls[q];
            c.from == 0 && c.handled && !c.consumed && c.reply == VoteReply(0, true)
  {
    hide Goes, OnRequestVote;
    ThreeAtStart(premise);
    steps, s := TimesOut(premise, 3, [], InitialCluster(3), 0);
    assert Asks(s, 0, 1);
    var request := VoteRequest(s.servers[0], 0);
    q :| 0 <= q < |s.voteCalls| && s.voteCalls[q] == VoteCall(0, 1, request, false, false, VoteReply(0, false));
    VotesFor(Initial(), request);
    GoesWell(premise, 3, steps, s);
    steps, s := HandlesVote(premise, 3, steps, s, q);
    steps, s := TimesOut(premise, 3, steps, s, 0);
  }

  lemma CountsStaleVote()
    ensures OnVoteReply(BecomeCandidate(BecomeCandidate(Initial(), 0), 0), 3, VoteReply(0, true))
            == Chief(2, 2, 0, [SENTINEL], [1, 1, 1], [0, 0, 0], [])
    ensures Winner(BecomeCandidate(Initial(), 2), 2, 2, 2, 3) == Chief(2, 2, 2, [SENTINEL], [1, 1, 1], [0, 0, 0], [])
  {
    assert seq(3, _ => |[SENTINEL]|) == [1, 1, 1] && seq(3, _ => 0) == [0, 0, 0];
  }

  /** Peer 1's vote of term 1 is counted by peer 0 in term 2, which peer 2 also wins: two leaders of term 2. */
  lemma TwoLeaders(premise: Premise) returns (steps: seq<Step>, s: Cluster)
    requires !premise.votesInTerm
    ensures Goes(premise, 3, steps, s)
    ensures s.servers == [Chief(2, 2, 0, [SENTINEL], [1, 1, 1], [0, 0, 0], []), Voted(2, 2, [SENTINEL]),
                          Chief(2, 2, 2, [SENTINEL], [1, 1, 1], [0, 0, 0], [])]
  {
    hide Goes, OnRequestVote, OnVoteReply;
    var q;
    steps, s, q := VoteGoesStale(premise);
    var c := s.voteCalls[q];
    steps, s := TimesOut(premise, 3, steps, s, 2);
    steps, s := WinsWithOne(premise, steps, s, 2, 1);
    assert s.voteCalls[q] == c;
    GoesWell(premise, 3, steps, s);
    CountsStaleVote();
    steps, s := CountsVote(premise, 3, steps, s, q);
  }

  lemma StaleVoteElectsTwoLeaders(premise: Premise) returns (steps: seq<Step>)
    requires !premise.votesInTerm
    ensures Run(premise, 3, steps).Some?
    ensures var s := Run(premise, 3, steps).value;
            s.servers[0].role == Leader && s.servers[2].role == Leader
                && s.servers[0].currentTerm == s.servers[2].currentTerm
  {
    hide Run;
    var s;
    steps, s := TwoLeaders(premise);
  }

  // ---------------------------------------------------------------- requests out of order

  /** Of one leader's requests, an accepted one keeps what was acknowledged exactly when it reaches as far. */
  lemma AcceptedKeepsAcknowledgedIff(sent: seq<Entry>, v: Server, args: AppendArgs, acked: nat)
    requires IsSlice(sent, args) && Accepts(v, args) && Agree(sent, v.log, args.prevLogIndex + 1)
    requires Agree(sent, v.log, acked)
    ensures Agree(sent, AppendedLog(v, args), acked) <==> acked <= End(args)
  {
  }

  lemma EmptyRequest()
    ensures RequestTo(Chief(2, 1, 0, [SENTINEL], [1, 1, 1], [0, 0, 0], []), 0, 1) == AppendArgs(1, 0, 0, 0, [], 0)
    ensures OnAppendEntries(Voted(1, 0, ONE), AppendArgs(1, 0, 0, 0, [], 0)).0 == Voted(1, 0, [SENTINEL])
  {
    assert ONE[..1] + [] == [SENTINEL];
  }

  /** An empty heartbeat sent before the command reaches peer 1 after it and cuts it from the log. */
  lemma CommittedEntryIsCut(premise: Premise) returns (steps: seq<Step>, s: Cluster)
    requires !premise.inOrder
    ensures Goes(premise, 3, steps, s)
    ensures s.servers
            == [Chief(2, 1, 0, ONE, [2, 2, 1], [1, 1, 0], [ApplyMsg(1, X)]), Voted(1, 0, [SENTINEL]), Initial()]
  {
    hide Goes, OnAppendEntries;
    steps, s := FirstLeader(premise);
    EmptyRequest();
    hide RequestTo;
    var q := Slot(s, 0, 1);
    steps, s := Sends(premise, 3, steps, s, 0);
    assert s.appendCalls[q] == AppendCall(0, 1, AppendArgs(1, 0, 0, 0, [], 0), false, false, AppendReply(0, false));
    steps, s := CommandIsCommitted(premise, steps, s);
    steps, s := Handles(premise, 3, steps, s, q);
  }

  /** Peer 2, which has only the sentinel, then wins term 2 with the vote of peer 1. */
  lemma LeaderLacksEntry(premise: Premise) returns (steps: seq<Step>, s: Cluster)
    requires !premise.inOrder
    ensures Goes(premise, 3, steps, s)
    ensures s.servers == [Chief(2, 1, 0, ONE, [2, 2, 1], [1, 1, 0], [ApplyMsg(1, X)]), Voted(2, 2, [SENTINEL]),
                          Chief(2, 2, 2, [SENTINEL], [1, 1, 1], [0, 0, 0], [])]
  {
    hide Goes;
    steps, s := CommittedEntryIsCut(premise);
    steps, s := TimesOut(premise, 3, steps, s, 2);
    steps, s := WinsWithOne(premise, steps, s, 2, 1);
    assert seq(3, _ => |[SENTINEL]|) == [1, 1, 1] && seq(3, _ => 0) == [0, 0, 0];
    assert s.servers[2] == Chief(2, 2, 2, [SENTINEL], [1, 1, 1], [0, 0, 0], []);
  }

  /** With votes and acknowledgements in term but requests reordered, a leader of term 2 lacks what term 1 applied. */
  lemma ReorderingLosesCommittedEntry(premise: Premise) returns (steps: seq<Step>)
    requires !premise.inOrder
    ensures Run(premise, 3, steps).Some?
    ensures var servers := Run(premise, 3, steps).value.servers;
            && servers[0].applied == [ApplyMsg(1, X)]
            && servers[2].role == Leader && servers[2].currentTerm > servers[0].currentTerm
                && servers[2].log == [SENTINEL]
  {
    hide Run;
    var s;
    steps, s := LeaderLacksEntry(premise);
  }

  const OTHER := [SENTINEL, Entry(2, Y)]

  lemma StartsOther()
    ensures OnStart(Chief(2, 2, 2, [SENTINEL], [1, 1, 1], [0, 0, 0], []), 2, Y)
            == Chief(2, 2, 2, OTHER, [1, 1, 2], [0, 0, 1], [])
  {
    assert [SENTINEL] + [Entry(2, Y)] == OTHER;
    assert [1, 1, 1][2 := 2] == [1, 1, 2] && [0, 0, 0][2 := 1] == [0, 0, 1];
  }

  lemma TakesOther()
    ensures OnAppendEntries(Voted(2, 2, [SENTINEL]), AppendArgs(2, 2, 0, 0, [Entry(2, Y)], 0))
            == (Voted(2, 2, OTHER), AppendReply(2, true))
    ensures RequestTo(Chief(2, 2, 2, OTHER, [1, 1, 2], [0, 0, 1], []), 2, 1) == AppendArgs(2, 2, 0, 0, [Entry(2, Y)], 0)
  {
    assert [SENTINEL][..1] + [Entry(2, Y)] == OTHER && OTHER[1..] == [Entry(2, Y)];
  }

  lemma CommitsOther()
    ensures OnAppendReply(Chief(2, 2, 2, OTHER, [1, 1, 2], [0, 0, 1], []), 3, 1,
            AppendArgs(2, 2, 0, 0, [Entry(2, Y)], 0), AppendReply(2, true))
            == Chief(2, 2, 2, OTHER, [1, 2, 2], [0, 1, 1], [ApplyMsg(1, Y)])
  {
    var args := AppendArgs(2, 2, 0, 0, [Entry(2, Y)], 0);
    var v := Acknowledged(Chief(2, 2, 2, OTHER, [1, 1, 2], [0, 0, 1], []), 1, args, AppendReply(2, true));
    assert [1, 1, 2][1 := 2] == [1, 2, 2] && [0, 0, 1][1 := 1] == [0, 1, 1];
    assert v == Chief(2, 2, 2, OTHER, [1, 2, 2], [0, 1, 1], []);
    TwoReach(0, 1, 1, 1);
    assert Committable(v, 3, 1);
    assert Deliveries(OTHER, 0, 1) == [ApplyMsg(1, Y)];
  }

  /** What all peers have applied after the run agrees, index by index. */
  ghost predicate AppliesAlike(premise: Premise, n: nat, steps: seq<Step>) {
    Run(premise, n, steps).Some? ==>
      var servers := Run(premise, n, steps).value.servers;
      forall a: nat, b: nat, index: nat | a < n && b < n && index < |servers[a].applied|
          && index < |servers[b].applied| ::
        servers[a].applied[index] == servers[b].applied[index]
  }

  /** That leader commits Y at index 1, where peer 0 has applied X. */
  lemma ReorderingAppliesTwoCommands(premise: Premise) returns (steps: seq<Step>)
    requires !premise.inOrder
    ensures !AppliesAlike(premise, 3, steps)
  {
    hide Run, OnStart, OnAppendEntries, OnAppendReply;
    var s;
    steps, s := LeaderLacksEntry(premise);
    StartsOther();
    steps, s := Starts(premise, 3, steps, s, 2, Y);
    TakesOther();
    CommitsOther();
    hide RequestTo;
    assert s.servers[2] == Chief(2, 2, 2, OTHER, [1, 1, 2], [0, 0, 1], []);
    steps, s := Replicates(premise, 3, steps, s, 2, 1);
    assert s.servers[0].applied[0] == ApplyMsg(1, X) && s.servers[2].applied[0] == ApplyMsg(1, Y);
  }

  // ---------------------------------------------------------------- two leaders of one term

  const TWIN := [SENTINEL, Entry(2, X)]

  lemma StartsTwin()
    ensures OnStart(Chief(2, 2, 0, [SENTINEL], [1, 1, 1], [0, 0, 0], []), 0, X)
            == Chief(2, 2, 0, TWIN, [2, 1, 1], [1, 0, 0], [])
  {
    assert [SENTINEL] + [Entry(2, X)] == TWIN;
    assert [1, 1, 1][0 := 2] == [2, 1, 1] && [0, 0, 0][0 := 1] == [1, 0, 0];
  }

  /** Each of the two leaders of term 2 starts a command of its own. */
  lemma TwoLeadersStart(premise: Premise) returns (steps: seq<Step>, s: Cluster)
    requires !premise.votesInTerm
    ensures Goes(premise, 3, steps, s)
    ensures s.servers == [Chief(2, 2, 0, TWIN, [2, 1, 1], [1, 0, 0], []), Voted(2, 2, [SENTINEL]),
                          Chief(2, 2, 2, OTHER, [1, 1, 2], [0, 0, 1], [])]
  {
    hide Goes, OnStart;
    steps, s := TwoLeaders(premise);
    StartsTwin();
    StartsOther();
    steps, s := Starts(premise, 3, steps, s, 0, X);
    steps, s := Starts(premise, 3, steps, s, 2, Y);
  }

  lemma StaleVoteUnmatchesLogs(premise: Premise) returns (steps: seq<Step>)
    requires !premise.votesInTerm
    ensures Run(premise, 3, steps).Some?
    ensures var servers := Run(premise, 3, steps).value.servers; servers[0].log == TWIN && servers[2].log == OTHER
  {
    hide Run;
    var s;
    steps, s := TwoLeadersStart(premise);
  }

  lemma TakesTwin()
    ensures OnAppendEntries(Voted(2, 2, OTHER), AppendArgs(2, 0, 0, 0, [Entry(2, X)], 0))
            == (Voted(2, 2, TWIN), AppendReply(2, true))
    ensures RequestTo(Chief(2, 2, 0, TWIN, [2, 1, 1], [1, 0, 0], []), 0, 1) == AppendArgs(2, 0, 0, 0, [Entry(2, X)], 0)
  {
    assert OTHER[..1] + [Entry(2, X)] == TWIN && TWIN[1..] == [Entry(2, X)];
  }

  lemma CommitsTwin()
    ensures OnAppendReply(Chief(2, 2, 0, TWIN, [2, 1, 1], [1, 0, 0], []), 3, 1,
            AppendArgs(2, 0, 0, 0, [Entry(2, X)], 0), AppendReply(2, true))
         == Chief(2, 2, 0, TWIN, [2, 2, 1], [1, 1, 0], [ApplyMsg(1, X)])
  {
    var args := AppendArgs(2, 0, 0, 0, [Entry(2, X)], 0);
    var v := Acknowledged(Chief(2, 2, 0, TWIN, [2, 1, 1], [1, 0, 0], []), 1, args, AppendReply(2, true));
    assert [2, 1, 1][1 := 2] == [2, 2, 1] && [1, 0, 0][1 := 1] == [1, 1, 0];
    assert v == Chief(2, 2, 0, TWIN, [2, 2, 1], [1, 1, 0], []);
    TwoReach(1, 1, 0, 1);
    assert Committable(v, 3, 1);
    assert Deliveries(TWIN, 0, 1) == [ApplyMsg(1, X)];
  }

  /** Peer 1 accepts first the one and then the other at index 1, in order, and both leaders commit. */
  lemma BothCommit(premise: Premise) returns (steps: seq<Step>, s: Cluster)
    requires !premise.votesInTerm
    ensures Goes(premise, 3, steps, s)
    ensures s.servers == [Chief(2, 2, 0, TWIN, [2, 2, 1], [1, 1, 0], [ApplyMsg(1, X)]), Voted(2, 2, TWIN),
                          Chief(2, 2, 2, OTHER, [1, 2, 2], [0, 1, 1], [ApplyMsg(1, Y)])]
  {
    hide Goes, OnAppendEntries, OnAppendReply;
    steps, s := TwoLeadersStart(premise);
    TakesOther();
    CommitsOther();
    TakesTwin();
    CommitsTwin();
    hide RequestTo;
    steps, s := Replicates(premise, 3, steps, s, 2, 1);
    steps, s := Replicates(premise, 3, steps, s, 0, 1);
  }

  lemma StaleVoteAppliesTwoCommands(premise: Premise) returns (steps: seq<Step>)
    requires !premise.votesInTerm
    ensures !AppliesAlike(premise, 3, steps)
  {
    hide Run;
    var s;
    steps, s := BothCommit(premise);
    assert s.servers[0].applied[0] == ApplyMsg(1, X) && s.servers[2].applied[0] == ApplyMsg(1, Y);
  }

  /** Peer 1 then leads term 3 with X at index 1, where the leader of term 2 that it does not hear of applied Y. */
  lemma StaleVoteLosesCommittedEntry(premise: Premise) returns (steps: seq<Step>)
    requires !premise.votesInTerm
    ensures Run(premise, 3, steps).Some?
    ensures var servers := Run(premise, 3, steps).value.servers;
            && servers[2].applied == [ApplyMsg(1, Y)]
            && servers[1].role == Leader && servers[1].currentTerm > servers[2].currentTerm && servers[1].log == TWIN
  {
    hide Run;
    var s;
    steps, s := BothCommit(premise);
    steps, s := WinsWithOne(premise, steps, s, 1, 0);
  }
}
