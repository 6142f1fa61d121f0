/** Lock servers on top of Raft peers: the tables of all servers replay prefixes of one log. */
module LockOverRaft {
  import opened LockTable
  import opened LockServing
  import opened RaftCluster
  import opened RaftSafety
  import R = RaftServer

  /** How a server reads the operation in a Raft command. */
  type Decoding = R.Command -> Op

  /** A server has taken so many of its peer's deliveries from applyCh, in order. */
  ghost predicate Fed(msgs: seq<Delivery>, applied: seq<R.ApplyMsg>, decode: Decoding) {
    |msgs| <= |applied| && forall k :: 0 <= k < |msgs| ==> msgs[k].op == decode(applied[k].command)
  }

  ghost predicate AllFed(msgs: seq<seq<Delivery>>, s: Cluster, decode: Decoding) {
    |msgs| == |s.servers| && forall v :: 0 <= v < |msgs| ==> Fed(msgs[v], s.servers[v].applied, decode)
  }

  function Decoded(applied: seq<R.ApplyMsg>, decode: Decoding): seq<Op> {
    seq(|applied|, k requires 0 <= k < |applied| => decode(applied[k].command))
  }

  /** The table is what the first requests of the log make of it. */
  ghost predicate ReplaysPrefix(ends: set<ClientId>, msgs: seq<Delivery>, log: seq<Op>) {
    && |msgs| <= |log| && Log(msgs) == log[..|msgs|]
    && Serve(ends, msgs).store == Replay(Effective(log[..|msgs|]))
  }

  ghost predicate AllReplay(ends: set<ClientId>, msgs: seq<seq<Delivery>>, log: seq<Op>) {
    forall v :: 0 <= v < |msgs| ==> ReplaysPrefix(ends, msgs[v], log)
  }

  lemma FedReplays(ends: set<ClientId>, msgs: seq<Delivery>, applied: seq<R.ApplyMsg>, log: seq<R.ApplyMsg>,
                   decode: Decoding)
    requires Fed(msgs, applied, decode) && applied <= log
    ensures ReplaysPrefix(ends, msgs, Decoded(log, decode))
  {
    hide Serve, Replay, Effective;
    ServeReplays(ends, msgs);
    assert Log(msgs) == Decoded(log, decode)[..|msgs|];
  }

  /** Indices arrive without gaps, which is what the result channels rely on. */
  lemma DeliveredGapFree(premise: Premise, n: nat, steps: seq<Step>, v: nat, k: nat)
    requires Run(premise, n, steps).Some? && v < n && k < |Run(premise, n, steps).value.servers[v].applied|
    ensures Run(premise, n, steps).value.servers[v].applied[k].index == k + 1
  {
    assert R.WfServer(Run(premise, n, steps).value.servers[v], n);
  }

  /** Whatever leadership each server sees, and however far each has come, their tables replay prefixes of one log. */
  lemma TablesReplayOneLog(n: nat, steps: seq<Step>, decode: Decoding, ends: set<ClientId>, msgs: seq<seq<Delivery>>)
    requires Run(IN_TERM_AND_ORDER, n, steps).Some? && AllFed(msgs, Run(IN_TERM_AND_ORDER, n, steps).value, decode)
    ensures exists log :: AllReplay(ends, msgs, log)
  {
    OneAppliedLog(n, steps);
    hide Run;
    var servers := Run(IN_TERM_AND_ORDER, n, steps).value.servers;
    var log :| AllApplyFrom(servers, n, log);
    forall v | 0 <= v < n
      ensures ReplaysPrefix(ends, msgs[v], Decoded(log, decode))
    {
      FedReplays(ends, msgs[v], servers[v].applied, log, decode);
    }
    assert AllReplay(ends, msgs, Decoded(log, decode));
  }

  /** Two servers that have applied equally many requests have the same table. */
  lemma SameProgressSameTable(n: nat, steps: seq<Step>, decode: Decoding, ends: set<ClientId>,
                              msgs: seq<seq<Delivery>>, a: nat, b: nat)
    requires Run(IN_TERM_AND_ORDER, n, steps).Some? && AllFed(msgs, Run(IN_TERM_AND_ORDER, n, steps).value, decode)
    requires a < n && b < n && |msgs[a]| == |msgs[b]|
    ensures Serve(ends, msgs[a]).store == Serve(ends, msgs[b]).store
  {
    hide Run, Serve, Fed, Replay, Effective;
    TablesReplayOneLog(n, steps, decode, ends, msgs);
    var log :| AllReplay(ends, msgs, log);
    assert ReplaysPrefix(ends, msgs[a], log) && ReplaysPrefix(ends, msgs[b], log);
  }

  lemma ServersAgree(n: nat, steps: seq<Step>, decode: Decoding, msgs: seq<seq<Delivery>>, a: nat, b: nat)
    requires Run(IN_TERM_AND_ORDER, n, steps).Some? && AllFed(msgs, Run(IN_TERM_AND_ORDER, n, steps).value, decode)
    requires a < n && b < n
    ensures SameRequests(msgs[a], msgs[b])
  {
    OneAppliedLog(n, steps);
    hide Run;
    var servers := Run(IN_TERM_AND_ORDER, n, steps).value.servers;
    var log :| AllApplyFrom(servers, n, log);
    assert Fed(msgs[a], servers[a].applied, decode) && Fed(msgs[b], servers[b].applied, decode);
    assert servers[a].applied <= log && servers[b].applied <= log;
  }

  /**
   Mutual exclusion across servers: of two grants of a key by any two servers, those caused by the same
   request name the same client, and otherwise the first grantee's Unlock takes effect in between.
   */
  lemma GrantsExclude(n: nat, steps: seq<Step>, decode: Decoding, ends: seq<set<ClientId>>,
                      msgs: seq<seq<Delivery>>, a: nat, b: nat, g: nat, h: nat)
    requires Run(IN_TERM_AND_ORDER, n, steps).Some? && AllFed(msgs, Run(IN_TERM_AND_ORDER, n, steps).value, decode)
    requires a < n && b < n && |ends| == n && NOBODY !in ends[a] && NOBODY !in ends[b]
    requires g < |Serve(ends[a], msgs[a]).grants| && h < |Serve(ends[b], msgs[b]).grants|
    requires Serve(ends[a], msgs[a]).grants[g].key == Serve(ends[b], msgs[b]).grants[h].key
    requires Serve(ends[a], msgs[a]).grants[g].at <= Serve(ends[b], msgs[b]).grants[h].at
    ensures var first, second := Serve(ends[a], msgs[a]).grants[g], Serve(ends[b], msgs[b]).grants[h];
            if first.at == second.at then first.client == second.client
            else ReleasedIn(ends[b], msgs[b], first.at, second.at + 1, first.key, first.client)
  {
    hide Run, Serve, SameRequests, Fed;
    ServersAgree(n, steps, decode, msgs, a, b);
    GrantsOfTwoServers(ends[a], msgs[a], ends[b], msgs[b], g, h);
  }
}
