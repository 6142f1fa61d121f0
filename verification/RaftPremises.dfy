/** Exactly the premises the safety theorems need. */
module RaftPremises {
  import opened Wrappers
  import opened RaftServer
  import opened RaftCluster
  import opened RaftElection
  import opened RaftLogs
  import opened RaftSafety
  import opened RaftReordering
  import opened RaftStaleAcks

  // ---------------------------------------------------------------- Election Safety

  /** At most one peer leads each term, over the whole run. */
  ghost predicate OneLeaderPerTerm(premise: Premise, n: nat, steps: seq<Step>) {
    forall i: nat, j: nat, a: nat, b: nat, term: nat ::
      LeadsAt(premise, n, steps, i, a, term) && LeadsAt(premise, n, steps, j, b, term) ==> a == b
  }

  /** Election Safety holds in every run exactly when votes are counted in term. */
  lemma ElectionSafeIff(premise: Premise)
    ensures (forall n: nat, steps | Run(premise, n, steps).Some? :: OneLeaderPerTerm(premise, n, steps))
            <==> premise.votesInTerm
  {
    if premise.votesInTerm {
      forall n: nat, steps | Run(premise, n, steps).Some?
        ensures OneLeaderPerTerm(premise, n, steps)
      {
        forall i: nat, j: nat, a: nat, b: nat, term: nat
          | LeadsAt(premise, n, steps, i, a, term) && LeadsAt(premise, n, steps, j, b, term)
          ensures a == b
        {
          ElectionSafety(premise, n, steps, i, j, a, b, term);
        }
      }
    } else {
      hide Run;
      var steps := StaleVoteElectsTwoLeaders(premise);
      assert steps[..|steps|] == steps;
      var term := Run(premise, 3, steps).value.servers[0].currentTerm;
      assert LeadsAt(premise, 3, steps, |steps|, 0, term) && LeadsAt(premise, 3, steps, |steps|, 2, term);
    }
  }

  // ---------------------------------------------------------------- Log Matching

  /** Logs that have an entry of the same term at an index are the same up to it. */
  ghost predicate MatchAt(log: seq<Entry>, log': seq<Entry>, i: nat) {
    i < |log| && i < |log'| && log[i].term == log'[i].term ==> log[..i + 1] == log'[..i + 1]
  }

  ghost predicate LogsMatch(premise: Premise, n: nat, steps: seq<Step>) {
    Run(premise, n, steps).Some? ==>
      var servers := Run(premise, n, steps).value.servers;
      forall a: nat, b: nat, i: nat | a < n && b < n :: MatchAt(servers[a].log, servers[b].log, i)
  }

  /** Log Matching holds in every run exactly when votes are counted in term. */
  lemma LogMatchingIff(premise: Premise)
    ensures (forall n: nat, steps :: LogsMatch(premise, n, steps)) <==> premise.votesInTerm
  {
    hide Run;
    if premise.votesInTerm {
      forall n: nat, steps | Run(premise, n, steps).Some?
        ensures LogsMatch(premise, n, steps)
      {
        var servers := Run(premise, n, steps).value.servers;
        forall a: nat, b: nat, i: nat | a < n && b < n
          ensures MatchAt(servers[a].log, servers[b].log, i)
        {
          if i < |servers[a].log| && i < |servers[b].log| && servers[a].log[i].term == servers[b].log[i].term {
            LogMatching(premise, n, steps, a, b, i);
          }
        }
      }
    } else {
      var steps := StaleVoteUnmatchesLogs(premise);
      var servers := Run(premise, 3, steps).value.servers;
      assert servers[0].log[..2][1] != servers[2].log[..2][1];
      assert !MatchAt(servers[0].log, servers[2].log, 1);
      assert !LogsMatch(premise, 3, steps);
    }
  }

  // ---------------------------------------------------------------- Leader Completeness

  /** At time i, in a term before `term`, peer a has applied the command. */
  ghost predicate AppliedBefore(premise: Premise, n: nat, steps: seq<Step>, i: nat, a: nat, index: nat,
                                command: Command, term: nat) {
    && i <= |steps| && a < n && Run(premise, n, steps[..i]).Some?
    && var v := Run(premise, n, steps[..i]).value.servers[a];
       v.currentTerm < term && index < |v.applied| && v.applied[index].command == command
  }

  /** At time j the log of peer b has the command where one applies it. */
  ghost predicate HasAt(premise: Premise, n: nat, steps: seq<Step>, j: nat, b: nat, index: nat, command: Command) {
    && j <= |steps| && b < n && Run(premise, n, steps[..j]).Some?
    && var log := Run(premise, n, steps[..j]).value.servers[b].log;
       index + 1 < |log| && log[index + 1].command == command
  }

  /** What a peer has applied is in the log of every leader of a later term, over the whole run. */
  ghost predicate LeadersHaveApplied(premise: Premise, n: nat, steps: seq<Step>) {
    forall i: nat, a: nat, index: nat, command: Command, j: nat, b: nat, term: nat ::
      AppliedBefore(premise, n, steps, i, a, index, command, term) && LeadsAt(premise, n, steps, j, b, term) ==>
        HasAt(premise, n, steps, j, b, index, command)
  }

  lemma SafeLeadersHaveApplied(n: nat, steps: seq<Step>)
    requires Run(IN_TERM_AND_ORDER, n, steps).Some?
    ensures LeadersHaveApplied(IN_TERM_AND_ORDER, n, steps)
  {
    hide Run;
    forall i: nat, a: nat, index: nat, command: Command, j: nat, b: nat, term: nat
      | AppliedBefore(IN_TERM_AND_ORDER, n, steps, i, a, index, command, term)
        && LeadsAt(IN_TERM_AND_ORDER, n, steps, j, b, term)
      ensures HasAt(IN_TERM_AND_ORDER, n, steps, j, b, index, command)
    {
      AppliedIsComplete(n, steps, i, a, index, j, b, term);
    }
  }

  /** A leader of a later term that lacks an applied command refutes it. */
  lemma LeaderLacksApplied(premise: Premise, n: nat, steps: seq<Step>, a: nat, b: nat)
    requires Run(premise, n, steps).Some? && a < n && b < n
    requires var servers := Run(premise, n, steps).value.servers;
             && servers[a].applied != [] && servers[b].role == Leader
             && servers[a].currentTerm < servers[b].currentTerm
             && (|servers[b].log| > 1 ==> servers[b].log[1].command != servers[a].applied[0].command)
    ensures !LeadersHaveApplied(premise, n, steps)
  {
    hide Run;
    assert steps[..|steps|] == steps;
    var servers := Run(premise, n, steps).value.servers;
    var command, term := servers[a].applied[0].command, servers[b].currentTerm;
    assert LeadsAt(premise, n, steps, |steps|, b, term);
    assert AppliedBefore(premise, n, steps, |steps|, a, 0, command, term);
    assert !HasAt(premise, n, steps, |steps|, b, 0, command);
  }

  /** Leader Completeness holds in every run exactly under all parts of the premise. */
  lemma LeaderCompletenessIff(premise: Premise)
    ensures (forall n: nat, steps | Run(premise, n, steps).Some? :: LeadersHaveApplied(premise, n, steps))
            <==> premise == IN_TERM_AND_ORDER
  {
    hide Run, LeadersHaveApplied;
    if premise == IN_TERM_AND_ORDER {
      forall n: nat, steps | Run(premise, n, steps).Some?
        ensures LeadersHaveApplied(premise, n, steps)
      {
        SafeLeadersHaveApplied(n, steps);
      }
    } else if !premise.inOrder {
      var steps := ReorderingLosesCommittedEntry(premise);
      LeaderLacksApplied(premise, 3, steps, 0, 2);
    } else if !premise.acksInTerm {
      var steps := StaleAckLosesCommittedEntry(premise);
      LeaderLacksApplied(premise, 5, steps, 0, 1);
    } else {
      var steps := StaleVoteLosesCommittedEntry(premise);
      LeaderLacksApplied(premise, 3, steps, 2, 1);
    }
  }

  // ---------------------------------------------------------------- State Machine Safety

  lemma SafeAppliesAlike(n: nat, steps: seq<Step>)
    ensures AppliesAlike(IN_TERM_AND_ORDER, n, steps)
  {
    if Run(IN_TERM_AND_ORDER, n, steps).Some? {
      hide Run;
      var servers := Run(IN_TERM_AND_ORDER, n, steps).value.servers;
      assert steps[..|steps|] == steps;
      forall a: nat, b: nat, index: nat | a < n && b < n && index < |servers[a].applied| && index < |servers[b].applied|
        ensures servers[a].applied[index] == servers[b].applied[index]
      {
        StateMachineSafety(n, steps, |steps|, |steps|, a, b, index);
      }
    }
  }

  /** State Machine Safety holds in every run exactly under all parts of the premise. */
  lemma StateMachineSafeIff(premise: Premise)
    ensures (forall n: nat, steps :: AppliesAlike(premise, n, steps)) <==> premise == IN_TERM_AND_ORDER
  {
    hide AppliesAlike;
    if premise == IN_TERM_AND_ORDER {
      forall n: nat, steps
        ensures AppliesAlike(premise, n, steps)
      {
        SafeAppliesAlike(n, steps);
      }
    } else if !premise.inOrder {
      var steps := ReorderingAppliesTwoCommands(premise);
    } else if !premise.acksInTerm {
      var steps := StaleAckAppliesTwoCommands(premise);
    } else {
      var steps := StaleVoteAppliesTwoCommands(premise);
    }
  }
}
