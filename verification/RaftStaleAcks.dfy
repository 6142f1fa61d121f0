/**
 A run of five peers in which everything is in term and in order except one acknowledgement, and a
 committed entry is lost.
 */
module RaftStaleAcks {
  import opened Wrappers
  import opened RaftServer
  import opened RaftCluster
  import opened RaftScenes
  import opened RaftReordering

  const ONES: seq<nat> := [1, 1, 1, 1, 1]
  const TWOS: seq<nat> := [2, 2, 2, 2, 2]
  const ZEROES: seq<nat> := [0, 0, 0, 0, 0]
  const LATE := [SENTINEL, Entry(3, Z)]
  const LONG := [SENTINEL, Entry(1, X), Entry(4, Y)]

  lemma FiveAtStart(premise: Premise)
    ensures Goes(premise, 5, [], InitialCluster(5))
    ensures InitialCluster(5).servers == [Initial(), Initial(), Initial(), Initial(), Initial()]
  {
  }

  lemma WinnerOfFive(v: Server, term: nat, me: nat)
    requires v.commitIndex == v.lastApplied == 0 && v.applied == []
    ensures |v.log| == 1 ==> Winner(v, term, me, 3, 5) == Chief(3, term, me, v.log, ONES, ZEROES, [])
    ensures |v.log| == 2 ==> Winner(v, term, me, 3, 5) == Chief(3, term, me, v.log, TWOS, ZEROES, [])
  {
    assert seq(5, _ => 1) == ONES && seq(5, _ => 2) == TWOS && seq(5, _ => 0) == ZEROES;
  }

  lemma CountFive(a: nat, b: nat, c: nat, d: nat, e: nat, N: nat)
    ensures CountReached([a, b, c, d, e], N)
         == (if a >= N then 1 else 0) + (if b >= N then 1 else 0) + (if c >= N then 1 else 0)
            + (if d >= N then 1 else 0) + (if e >= N then 1 else 0)
  {
    assert [a, b, c, d, e][..4] == [a, b, c, d] && [a, b, c, d][..3] == [a, b, c];
    TwoReach(a, b, c, N);
    assert CountReached([a, b, c, d], N) == CountReached([a, b, c], N) + if d >= N then 1 else 0;
  }

  /** Peer 0 leads term 1 of five and starts X. */
  lemma LeaderOfFive(premise: Premise) returns (steps: seq<Step>, s: Cluster)
    ensures Goes(premise, 5, steps, s)
    ensures s.servers
            == [Chief(3, 1, 0, ONE, [2, 1, 1, 1, 1], [1, 0, 0, 0, 0], []), Voted(1, 0, [SENTINEL]),
                Voted(1, 0, [SENTINEL]), Initial(), Initial()]
  {
    hide Goes;
    FiveAtStart(premise);
    steps, s := WinsWithTwo(premise, [], InitialCluster(5), 0, 1, 2);
    WinnerOfFive(Initial(), 1, 0);
    assert s.servers
           == [Chief(3, 1, 0, [SENTINEL], ONES, ZEROES, []), Voted(1, 0, [SENTINEL]), Voted(1, 0, [SENTINEL]),
               Initial(), Initial()];
    steps, s := Starts(premise, 5, steps, s, 0, X);
    assert [SENTINEL] + [Entry(1, X)] == ONE;
    assert ONES[0 := 2] == [2, 1, 1, 1, 1] && ZEROES[0 := 1] == [1, 0, 0, 0, 0];
  }

  lemma TakesOfFive()
    ensures RequestTo(Chief(3, 1, 0, ONE, [2, 1, 1, 1, 1], [1, 0, 0, 0, 0], []), 0, 1)
            == AppendArgs(1, 0, 0, 0, [Entry(1, X)], 0)
  {
    assert ONE[1..] == [Entry(1, X)];
  }

  /** Call q is peer 1's acknowledgement of X in term 1, still on its way to peer 0. */
  ghost predicate Stale(s: Cluster, q: nat) {
    && q < |s.appendCalls|
    && s.appendCalls[q] == AppendCall(0, 1, AppendArgs(1, 0, 0, 0, [Entry(1, X)], 0), true, false, AppendReply(1, true))
  }

  /** Peer 1 takes X and acknowledges it. */
  lemma AckIsDelayed(premise: Premise) returns (steps: seq<Step>, s: Cluster, q: nat)
    ensures Goes(premise, 5, steps, s) && Stale(s, q)
    ensures s.servers
            == [Chief(3, 1, 0, ONE, [2, 1, 1, 1, 1], [1, 0, 0, 0, 0], []), Voted(1, 0, ONE), Voted(1, 0, [SENTINEL]),
                Initial(), Initial()]
  {
    hide Goes, OnAppendEntries;
    steps, s := LeaderOfFive(premise);
    TakesOfFive();
    TakesCommand();
    hide RequestTo;
    q := Slot(s, 0, 1);
    steps, s := Sends(premise, 5, steps, s, 0);
    steps, s := Handles(premise, 5, steps, s, q);
  }

  /** Peer 0 after the leader of term 2 has cut its log. */
  const DEPOSED := Server(Follower, 3, 2, -1, [SENTINEL], 0, 0, [2, 1, 1, 1, 1], [1, 0, 0, 0, 0], [])

  lemma Deposes()
    ensures var leader := Chief(3, 2, 2, [SENTINEL], ONES, ZEROES, []);
            && RequestTo(leader, 2, 0) == AppendArgs(2, 2, 0, 0, [], 0)
            && OnAppendEntries(Chief(3, 1, 0, ONE, [2, 1, 1, 1, 1], [1, 0, 0, 0, 0], []), AppendArgs(2, 2, 0, 0, [], 0))
                == (DEPOSED, AppendReply(2, true))
            && OnAppendReply(leader, 5, 0, AppendArgs(2, 2, 0, 0, [], 0), AppendReply(2, true)) == leader
  {
    assert ONE[..1] + [] == [SENTINEL];
    assert ONES[0 := 1] == ONES && ZEROES[0 := 0] == ZEROES;
  }

  /** Peer 2 leads term 2 without X and cuts X from peer 0's log. */
  lemma SecondLeader(premise: Premise) returns (steps: seq<Step>, s: Cluster, q: nat)
    ensures Goes(premise, 5, steps, s) && Stale(s, q)
    ensures s.servers
            == [DEPOSED, Voted(1, 0, ONE), Chief(3, 2, 2, [SENTINEL], ONES, ZEROES, []), Voted(2, 2, [SENTINEL]),
                Voted(2, 2, [SENTINEL])]
  {
    hide Goes, OnAppendEntries, OnAppendReply;
    steps, s, q := AckIsDelayed(premise);
    steps, s := WinsWithTwo(premise, steps, s, 2, 3, 4);
    WinnerOfFive(Voted(1, 0, [SENTINEL]), 2, 2);
    Deposes();
    hide RequestTo;
    steps, s := Replicates(premise, 5, steps, s, 2, 0);
  }

  /** Peer 2 after it has voted for peer 0 in term 3. */
  function Retired(log: seq<Entry>): Server {
    Server(Follower, 3, 3, 0, log, 0, 0, ONES, ZEROES, [])
  }

  lemma StartsLate()
    ensures OnStart(Chief(3, 3, 0, [SENTINEL], ONES, ZEROES, []), 0, Z)
            == Chief(3, 3, 0, LATE, [2, 1, 1, 1, 1], [1, 0, 0, 0, 0], [])
  {
    assert [SENTINEL] + [Entry(3, Z)] == LATE;
    assert ONES[0 := 2] == [2, 1, 1, 1, 1] && ZEROES[0 := 1] == [1, 0, 0, 0, 0];
  }

  lemma TakesLate()
    ensures RequestTo(Chief(3, 3, 0, LATE, [2, 1, 1, 1, 1], [1, 0, 0, 0, 0], []), 0, 2)
            == AppendArgs(3, 0, 0, 0, [Entry(3, Z)], 0)
    ensures OnAppendEntries(Retired([SENTINEL]), AppendArgs(3, 0, 0, 0, [Entry(3, Z)], 0))
            == (Retired(LATE), AppendReply(3, true))
  {
    assert LATE[1..] == [Entry(3, Z)] && [SENTINEL][..1] + [Entry(3, Z)] == LATE;
  }

  lemma CountsLate()
    ensures OnAppendReply(Chief(3, 3, 0, LATE, [2, 1, 1, 1, 1], [1, 0, 0, 0, 0], []), 5, 2,
            AppendArgs(3, 0, 0, 0, [Entry(3, Z)], 0), AppendReply(3, true))
         == Chief(3, 3, 0, LATE, [2, 1, 2, 1, 1], [1, 0, 1, 0, 0], [])
  {
    assert [2, 1, 1, 1, 1][2 := 2] == [2, 1, 2, 1, 1] && [1, 0, 0, 0, 0][2 := 1] == [1, 0, 1, 0, 0];
    CountFive(1, 0, 1, 0, 0, 1);
  }

  /** Peer 0 leads term 3 with Z, which only peer 2 also holds. */
  lemma ThirdLeader(premise: Premise) returns (steps: seq<Step>, s: Cluster, q: nat)
    ensures Goes(premise, 5, steps, s) && Stale(s, q)
    ensures s.servers
            == [Chief(3, 3, 0, LATE, [2, 1, 2, 1, 1], [1, 0, 1, 0, 0], []), Voted(1, 0, ONE), Retired(LATE),
                Voted(3, 0, [SENTINEL]), Voted(2, 2, [SENTINEL])]
  {
    hide Goes, OnAppendEntries, OnAppendReply, OnStart;
    steps, s, q := SecondLeader(premise);
    steps, s := WinsWithTwo(premise, steps, s, 0, 2, 3);
    WinnerOfFive(DEPOSED, 3, 0);
    StartsLate();
    steps, s := Starts(premise, 5, steps, s, 0, Z);
    TakesLate();
    CountsLate();
    hide RequestTo;
    steps, s := Replicates(premise, 5, steps, s, 0, 2);
  }

  lemma CommitsLate()
    ensures OnAppendReply(Chief(3, 3, 0, LATE, [2, 1, 2, 1, 1], [1, 0, 1, 0, 0], []), 5, 1,
            AppendArgs(1, 0, 0, 0, [Entry(1, X)], 0), AppendReply(1, true))
            .applied == [ApplyMsg(1, Z)]
  {
    var args := AppendArgs(1, 0, 0, 0, [Entry(1, X)], 0);
    var v := Acknowledged(Chief(3, 3, 0, LATE, [2, 1, 2, 1, 1], [1, 0, 1, 0, 0], []), 1, args, AppendReply(1, true));
    assert [2, 1, 2, 1, 1][1 := 2] == [2, 2, 2, 1, 1] && [1, 0, 1, 0, 0][1 := 1] == [1, 1, 1, 0, 0];
    assert v == Chief(3, 3, 0, LATE, [2, 2, 2, 1, 1], [1, 1, 1, 0, 0], []);
    CountFive(1, 1, 1, 0, 0, 1);
    assert Committable(v, 5, 1);
    assert Deliveries(LATE, 0, 1) == [ApplyMsg(1, Z)];
  }

  lemma KeepsTerm(v: Server)
    requires v.currentTerm == 3 && v.role == Leader && |v.nextIndex| == |v.matchIndex| == 5
    ensures OnAppendReply(v, 5, 1, AppendArgs(1, 0, 0, 0, [Entry(1, X)], 0), AppendReply(1, true)).currentTerm == 3
  {
  }

  /** The stale acknowledgement makes peer 0 commit Z, and peer 1 leads term 4 with X in its place. */
  lemma FourthLeader(premise: Premise) returns (steps: seq<Step>, s: Cluster)
    requires !premise.acksInTerm
    ensures Goes(premise, 5, steps, s) && |s.servers| == 5 && s.servers[0].applied == [ApplyMsg(1, Z)]
            && s.servers[0].currentTerm == 3
    ensures s.servers[1] == Chief(3, 4, 1, ONE, TWOS, ZEROES, [])
    ensures s.servers[3] == Voted(4, 1, [SENTINEL]) && s.servers[4] == Voted(4, 1, [SENTINEL])
  {
    hide Goes, OnAppendReply;
    var q;
    steps, s, q := ThirdLeader(premise);
    CommitsLate();
    KeepsTerm(Chief(3, 3, 0, LATE, [2, 1, 2, 1, 1], [1, 0, 1, 0, 0], []));
    steps, s := Acknowledges(premise, 5, steps, s, q);
    steps, s := TimesOut(premise, 5, steps, s, 1);
    steps, s := TimesOut(premise, 5, steps, s, 1);
    var v := s.servers[1];
    steps, s := WinsWithTwo(premise, steps, s, 1, 3, 4);
    WinnerOfFive(v, 4, 1);
  }

  /**
   With votes in term and requests in order, but a stale acknowledgement, a leader of term 4 lacks what term
   3 applied.
   */
  lemma StaleAckLosesCommittedEntry(premise: Premise) returns (steps: seq<Step>)
    requires !premise.acksInTerm
    ensures Run(premise, 5, steps).Some?
    ensures var servers := Run(premise, 5, steps).value.servers;
            && servers[0].applied == [ApplyMsg(1, Z)]
            && servers[1].role == Leader && servers[1].currentTerm > servers[0].currentTerm && servers[1].log == ONE
  {
    hide Run;
    var s;
    steps, s := FourthLeader(premise);
  }

  /** Peer 1 as leader of term 4 with X and Y in its log. */
  function Last(next: seq<nat>, matched: seq<nat>): Server {
    Chief(3, 4, 1, LONG, next, matched, [])
  }

  lemma StartsLast()
    ensures OnStart(Chief(3, 4, 1, ONE, TWOS, ZEROES, []), 1, Y) == Last([2, 3, 2, 2, 2], [0, 2, 0, 0, 0])
  {
    assert ONE + [Entry(4, Y)] == LONG;
    assert TWOS[1 := 3] == [2, 3, 2, 2, 2] && ZEROES[1 := 2] == [0, 2, 0, 0, 0];
  }

  /** A follower with only the sentinel rejects the first request and takes the second. */
  lemma TakesLast(v: Server)
    requires v == Voted(4, 1, [SENTINEL])
    ensures OnAppendEntries(v, AppendArgs(4, 1, 1, 1, [Entry(4, Y)], 0)) == (v, AppendReply(4, false))
    ensures OnAppendEntries(v, AppendArgs(4, 1, 0, 0, LONG[1..], 0)) == (Voted(4, 1, LONG), AppendReply(4, true))
  {
    assert [SENTINEL][..1] + LONG[1..] == LONG;
  }

  lemma RequestsLast(v: Server, j: nat)
    requires v.log == LONG && v.currentTerm == 4 && v.commitIndex == 0 && j < |v.nextIndex|
    ensures v.nextIndex[j] == 2 ==> RequestTo(v, 1, j) == AppendArgs(4, 1, 1, 1, [Entry(4, Y)], 0)
    ensures v.nextIndex[j] == 1 ==> RequestTo(v, 1, j) == AppendArgs(4, 1, 0, 0, LONG[1..], 0)
  {
    assert LONG[2..] == [Entry(4, Y)];
  }

  lemma BacksOff()
    ensures var args, no := AppendArgs(4, 1, 1, 1, [Entry(4, Y)], 0), AppendReply(4, false);
            && OnAppendReply(Last([2, 3, 2, 2, 2], [0, 2, 0, 0, 0]), 5, 3, args, no)
                == Last([2, 3, 2, 1, 2], [0, 2, 0, 0, 0])
            && OnAppendReply(Last([2, 3, 2, 3, 2], [0, 2, 0, 2, 0]), 5, 4, args, no)
                == Last([2, 3, 2, 3, 1], [0, 2, 0, 2, 0])
  {
    assert [2, 3, 2, 2, 2][3 := 1] == [2, 3, 2, 1, 2] && [2, 3, 2, 3, 2][4 := 1] == [2, 3, 2, 3, 1];
  }

  lemma CountsTwo()
    ensures OnAppendReply(Last([2, 3, 2, 1, 2], [0, 2, 0, 0, 0]), 5, 3, AppendArgs(4, 1, 0, 0, LONG[1..], 0),
            AppendReply(4, true))
         == Last([2, 3, 2, 3, 2], [0, 2, 0, 2, 0])
  {
    assert [2, 3, 2, 1, 2][3 := 3] == [2, 3, 2, 3, 2] && [0, 2, 0, 0, 0][3 := 2] == [0, 2, 0, 2, 0];
    CountFive(0, 2, 0, 2, 0, 2);
  }

  lemma CommitsLast()
    ensures OnAppendReply(Last([2, 3, 2, 3, 1], [0, 2, 0, 2, 0]), 5, 4, AppendArgs(4, 1, 0, 0, LONG[1..], 0),
            AppendReply(4, true))
            .applied == [ApplyMsg(1, X), ApplyMsg(2, Y)]
  {
    var args := AppendArgs(4, 1, 0, 0, LONG[1..], 0);
    var v := Acknowledged(Last([2, 3, 2, 3, 1], [0, 2, 0, 2, 0]), 4, args, AppendReply(4, true));
    assert [2, 3, 2, 3, 1][4 := 3] == [2, 3, 2, 3, 3] && [0, 2, 0, 2, 0][4 := 2] == [0, 2, 0, 2, 2];
    assert v == Last([2, 3, 2, 3, 3], [0, 2, 0, 2, 2]);
    CountFive(0, 2, 0, 2, 2, 2);
    assert Committable(v, 5, 2);
    assert Deliveries(LONG, 0, 2) == [ApplyMsg(1, X), ApplyMsg(2, Y)];
  }

  /** Peer 1 starts Y, and peer 3 takes both commands at the second request. */
  lemma ThirdTakesBoth(premise: Premise) returns (steps: seq<Step>, s: Cluster)
    requires !premise.acksInTerm
    ensures Goes(premise, 5, steps, s) && |s.servers| == 5 && s.servers[0].applied == [ApplyMsg(1, Z)]
    ensures s.servers[1] == Last([2, 3, 2, 3, 2], [0, 2, 0, 2, 0]) && s.servers[4] == Voted(4, 1, [SENTINEL])
  {
    hide Goes, OnStart, OnAppendEntries, OnAppendReply, RequestTo;
    steps, s := FourthLeader(premise);
    StartsLast();
    steps, s := Starts(premise, 5, steps, s, 1, Y);
    RequestsLast(s.servers[1], 3);
    TakesLast(s.servers[3]);
    BacksOff();
    steps, s := Replicates(premise, 5, steps, s, 1, 3);
    RequestsLast(s.servers[1], 3);
    CountsTwo();
    steps, s := Replicates(premise, 5, steps, s, 1, 3);
  }

  /** When peer 4 has taken them too, peer 1 commits X at index 1, where peer 0 has applied Z. */
  lemma StaleAckAppliesTwoCommands(premise: Premise) returns (steps: seq<Step>)
    requires !premise.acksInTerm
    ensures !AppliesAlike(premise, 5, steps)
  {
    hide Run, OnAppendEntries, OnAppendReply, RequestTo;
    var s;
    steps, s := ThirdTakesBoth(premise);
    RequestsLast(s.servers[1], 4);
    TakesLast(s.servers[4]);
    BacksOff();
    steps, s := Replicates(premise, 5, steps, s, 1, 4);
    RequestsLast(s.servers[1], 4);
    CommitsLast();
    steps, s := Replicates(premise, 5, steps, s, 1, 4);
    assert s.servers[0].applied[0] == ApplyMsg(1, Z) && s.servers[1].applied[0] == ApplyMsg(1, X);
  }
}
