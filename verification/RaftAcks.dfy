/**
 What an acknowledgement says (extended Raft paper, section 5.3), in runs whose acknowledgements
 are consumed in term and whose append calls reach each follower in send order.
 */
module RaftAcks {
  import opened RaftServer
  import opened RaftCluster
  import opened RaftElection
  import opened RaftLogs

  /** The request is a slice of its leader's log that ended the log when it was sent. */
  ghost predicate FullSlice(reigns: map<nat, Reign>, args: AppendArgs) {
    args.term > 0 ==>
      args.term in reigns && IsSlice(reigns[args.term].log, args)
          && OwnTail(reigns[args.term].log, args.term, End(args))
  }

  /** Later requests of a term reach at least as far. */
  ghost predicate Ordered(calls: seq<AppendCall>) {
    forall p, q :: 0 <= p < q < |calls| && calls[p].args.term == calls[q].args.term && calls[p].args.term > 0 ==>
      End(calls[p].args) <= End(calls[q].args)
  }

  ghost predicate NextBounded(server: Server) {
    server.role == Leader ==> forall p :: 0 <= p < |server.nextIndex| ==> server.nextIndex[p] <= |server.log|
  }

  /** A recorded acknowledgement names a handled call of that term to that follower. */
  ghost predicate AckNames(s: Cluster, t: nat, f: nat, d: nat) {
    && d < |s.appendCalls| && s.appendCalls[d].handled
    && s.appendCalls[d].args.term == t && s.appendCalls[d].to == f
    && t > 0 && f < |s.servers| && t <= s.servers[f].currentTerm
  }

  ghost predicate AckRecorded(lastAck: map<(nat, nat), nat>, q: nat, c: AppendCall) {
    c.handled && c.reply.success && c.args.term > 0 ==>
      (c.args.term, c.to) in lastAck && q <= lastAck[(c.args.term, c.to)]
  }

  ghost function AckLength(calls: seq<AppendCall>, lastAck: map<(nat, nat), nat>, t: nat, f: nat): nat {
    if (t, f) in lastAck && lastAck[(t, f)] < |calls| then End(calls[lastAck[(t, f)]].args) else 1
  }

  /** How much of the log of term t's leader peer f is known to have held during term t. */
  ghost function Held(s: Cluster, t: nat, f: nat): nat {
    if t in s.reigns && s.reigns[t].leader == f then |s.reigns[t].log| else AckLength(s.appendCalls, s.lastAck, t, f)
  }

  ghost predicate Matched(s: Cluster, server: Server) {
    server.role == Leader ==>
      forall f :: 0 <= f < |server.matchIndex| ==> server.matchIndex[f] < Held(s, server.currentTerm, f)
  }

  ghost predicate Replication(s: Cluster) {
    && (forall q :: 0 <= q < |s.appendCalls| ==> FullSlice(s.reigns, s.appendCalls[q].args))
    && Ordered(s.appendCalls)
    && (forall v :: 0 <= v < |s.servers| ==> NextBounded(s.servers[v]))
    && (forall t, f :: (t, f) in s.lastAck ==> AckNames(s, t, f, s.lastAck[(t, f)]))
    && (forall q :: 0 <= q < |s.appendCalls| ==> AckRecorded(s.lastAck, q, s.appendCalls[q]))
    && (forall v :: 0 <= v < |s.servers| ==> Matched(s, s.servers[v]))
  }

  /** What a peer is known to have held only grows, only in its current term, and only at peer x. */
  ghost predicate HeldKept(s: Cluster, s': Cluster, x: nat) {
    forall t, f :: t in s.reigns && 0 <= f < |s.servers| ==>
      && Held(s, t, f) <= Held(s', t, f)
      && (f != x || t < s.servers[f].currentTerm ==> Held(s', t, f) == Held(s, t, f))
  }

  /** The peer that may come to hold more in a step, if any. */
  function Holder(s: Cluster, step: Step): nat {
    match step
    case ClientStart(i, _) => i
    case HandleAppend(q) => if q < |s.appendCalls| then s.appendCalls[q].to else |s.servers|
    case _ => |s.servers|
  }

  // ---------------------------------------------------------------- steps that send and acknowledge nothing

  ghost predicate LeaderKept(a: Server, b: Server) {
    && a.currentTerm <= b.currentTerm
    && (b.role == Leader ==>
          b.currentTerm == a.currentTerm && a.role == Leader && b.log == a.log &&
          b.nextIndex == a.nextIndex && b.matchIndex == a.matchIndex)
  }

  ghost predicate NoTraffic(s: Cluster, s': Cluster) {
    && |s'.servers| == |s.servers|
    && s'.appendCalls == s.appendCalls && s'.lastAck == s.lastAck && s'.reigns == s.reigns
    && forall v :: 0 <= v < |s.servers| ==> LeaderKept(s.servers[v], s'.servers[v])
  }

  lemma NoTrafficKeepsReplication(s: Cluster, s': Cluster)
    requires Replication(s) && NoTraffic(s, s')
    ensures Replication(s') && HeldKept(s, s', |s.servers|)
  {
    hide FullSlice, Ordered, AckRecorded;
    assert forall t, f :: Held(s', t, f) == Held(s, t, f);
    forall v | 0 <= v < |s.servers|
      ensures NextBounded(s'.servers[v]) && Matched(s', s'.servers[v])
    {
      assert LeaderKept(s.servers[v], s'.servers[v]) && NextBounded(s.servers[v]) && Matched(s, s.servers[v]);
    }
    forall t, f | (t, f) in s'.lastAck
      ensures AckNames(s', t, f, s'.lastAck[(t, f)])
    {
      assert AckNames(s, t, f, s.lastAck[(t, f)]) && LeaderKept(s.servers[f], s'.servers[f]);
    }
  }

  lemma TimeoutHasNoTraffic(s: Cluster, i: nat)
    requires WfCluster(s) && i < |s.servers|
    ensures NoTraffic(s, DoTimeout(s, i))
  {
    hide WfServer, WfVoteCall, WfAppendCall;
  }

  lemma HandleVoteHasNoTraffic(s: Cluster, q: nat)
    requires WfCluster(s) && Enabled(s, HandleVote(q))
    ensures NoTraffic(s, DoHandleVote(s, q))
  {
    VoteOutcome(s.servers[s.voteCalls[q].to], |s.servers|, s.voteCalls[q].args);
    hide WfServer, WfAppendCall, OnRequestVote;
  }

  lemma ConsumeVoteHasNoTraffic(s: Cluster, q: nat)
    requires WfCluster(s) && Enabled(s, ConsumeVote(q)) && !Wins(s, s.voteCalls[q])
    ensures NoTraffic(s, DoConsumeVote(s, q))
  {
    hide WfServer, WfAppendCall;
  }

  // ---------------------------------------------------------------- winning and starting

  lemma FullSliceGrows(r: map<nat, Reign>, r': map<nat, Reign>, args: AppendArgs)
    requires FullSlice(r, args) && ReignsGrow(r, r')
    ensures FullSlice(r', args)
  {
    if args.term > 0 {
      assert Agree(r[args.term].log, r'[args.term].log, |r[args.term].log|);
    }
  }

  lemma LogNotEmpty(s: Cluster, i: nat)
    requires WfCluster(s) && i < |s.servers|
    ensures s.servers[i].log != []
  {
    assert WfServer(s.servers[i], |s.servers|);
  }

  lemma WinKeepsCalls(s: Cluster, q: nat)
    requires WfCluster(s) && Replication(s) && Enabled(s, ConsumeVote(q)) && Wins(s, s.voteCalls[q])
    requires s.servers[s.voteCalls[q].from].currentTerm !in s.reigns
    ensures var s' := DoConsumeVote(s, q);
            && Ordered(s'.appendCalls)
            && (forall p :: 0 <= p < |s'.appendCalls| ==> FullSlice(s'.reigns, s'.appendCalls[p].args))
            && (forall p :: 0 <= p < |s'.appendCalls| ==> AckRecorded(s'.lastAck, p, s'.appendCalls[p]))
  {
    hide WfServer, WfLog, IsSlice, OwnTail, Matched, NextBounded;
    var s' := DoConsumeVote(s, q);
    assert forall p :: 0 <= p < |s.appendCalls| ==> s'.appendCalls[p] == s.appendCalls[p];
    forall p | 0 <= p < |s'.appendCalls|
      ensures FullSlice(s'.reigns, s'.appendCalls[p].args) && AckRecorded(s'.lastAck, p, s'.appendCalls[p])
    {
      if p < |s.appendCalls| {
        assert FullSlice(s.reigns, s.appendCalls[p].args) && AckRecorded(s.lastAck, p, s.appendCalls[p]);
      }
    }
  }

  lemma WinKeepsReplication(s: Cluster, q: nat)
    requires WfCluster(s) && Logs(s) && Replication(s) && Enabled(s, ConsumeVote(q)) && Wins(s, s.voteCalls[q])
    requires s.servers[s.voteCalls[q].from].currentTerm !in s.reigns
    ensures Replication(DoConsumeVote(s, q)) && HeldKept(s, DoConsumeVote(s, q), |s.servers|)
  {
    hide WfServer, WfLog, IsSlice, OwnTail, Anchored, Agree;
    var s' := DoConsumeVote(s, q);
    var i := s.voteCalls[q].from;
    var t0 := s.servers[i].currentTerm;
    WinKeepsCalls(s, q);
    forall t, f | (t, f) in s'.lastAck
      ensures AckNames(s', t, f, s'.lastAck[(t, f)]) && t in s.reigns
    {
      assert AckNames(s, t, f, s.lastAck[(t, f)]);
      assert Sliced(s.reigns, s.appendCalls[s.lastAck[(t, f)]].from, s.appendCalls[s.lastAck[(t, f)]].args);
    }
    forall t, f | t in s.reigns
      ensures Held(s', t, f) == Held(s, t, f)
    {
    }
    forall v | 0 <= v < |s.servers|
      ensures NextBounded(s'.servers[v]) && Matched(s', s'.servers[v])
    {
      assert NextBounded(s.servers[v]) && Matched(s, s.servers[v]) && LeadsWith(s.reigns, s.servers[v]);
      LogNotEmpty(s, i);
    }
  }

  lemma StartKeepsReplication(s: Cluster, i: nat, command: Command)
    requires WfCluster(s) && Reigns(s) && Logs(s) && Replication(s) && i < |s.servers|
    ensures Replication(DoStart(s, i, command)) && HeldKept(s, DoStart(s, i, command), i)
  {
    hide WfServer, WfLog, IsSlice, Anchored, Sliced, Elected, AckRecorded, Ordered, ReignsGrow;
    var s' := DoStart(s, i, command);
    var v := s.servers[i];
    if v.role == Leader {
      LeaderShape(v, |s.servers|);
      assert LeadsWith(s.reigns, v) && Reigning(s.reigns, i, v) && Matched(s, v) && NextBounded(v);
      StartKeepsLogs(s, i, command);
      forall q | 0 <= q < |s.appendCalls|
        ensures FullSlice(s'.reigns, s'.appendCalls[q].args)
      {
        FullSliceGrows(s.reigns, s'.reigns, s.appendCalls[q].args);
      }
      forall t, f | t in s.reigns
        ensures Held(s', t, f) == Held(s, t, f) + (if t == v.currentTerm && f == i then 1 else 0)
      {
      }
      forall u | 0 <= u < |s.servers|
        ensures NextBounded(s'.servers[u]) && Matched(s', s'.servers[u])
      {
        assert NextBounded(s.servers[u]) && Matched(s, s.servers[u]) && LeadsWith(s.reigns, s.servers[u]);
      }
      forall t, f | (t, f) in s'.lastAck
        ensures AckNames(s', t, f, s'.lastAck[(t, f)])
      {
        assert AckNames(s, t, f, s.lastAck[(t, f)]);
      }
    } else {
      assert s' == s;
    }
  }

  // ---------------------------------------------------------------- sending

  lemma HeartbeatIsFull(reigns: map<nat, Reign>, v: Server, me: nat, next: nat)
    requires v.log != [] && v.role == Leader && v.currentTerm > 0 && LeadsWith(reigns, v) && 1 <= next <= |v.log|
    ensures var args := Heartbeat(v, me, next);
            FullSlice(reigns, args) && args.term == v.currentTerm && End(args) == |v.log|
  {
  }

  lemma HeartbeatsKeepOrder(s: Cluster, s': Cluster, t: nat, length: nat)
    requires Ordered(s.appendCalls) && s.appendCalls <= s'.appendCalls
    requires t in s.reigns && |s.reigns[t].log| == length
    requires forall q :: 0 <= q < |s.appendCalls| ==> FullSlice(s.reigns, s.appendCalls[q].args)
    requires forall q :: |s.appendCalls| <= q < |s'.appendCalls| ==>
               s'.appendCalls[q].args.term == t && End(s'.appendCalls[q].args) == length
    ensures Ordered(s'.appendCalls)
  {
    forall p, q | 0 <= p < q < |s'.appendCalls| &&
                  s'.appendCalls[p].args.term == s'.appendCalls[q].args.term && s'.appendCalls[p].args.term > 0
      ensures End(s'.appendCalls[p].args) <= End(s'.appendCalls[q].args)
    {
      if p < |s.appendCalls| <= q {
        assert FullSlice(s.reigns, s.appendCalls[p].args);
      }
    }
  }

  lemma HeartbeatsKeepReplication(s: Cluster, i: nat)
    requires WfCluster(s) && Reigns(s) && Logs(s) && Replication(s) && i < |s.servers|
    ensures Replication(DoHeartbeats(s, i)) && HeldKept(s, DoHeartbeats(s, i), |s.servers|)
  {
    hide WfServer, Anchored, Sliced, Elected, GoodReign, Heartbeat, FullSlice, End;
    var v := s.servers[i];
    if v.role == Leader {
      LeaderShape(v, |s.servers|);
      var s' := DoHeartbeats(s, i);
      assert LeadsWith(s.reigns, v) && NextBounded(v);
      forall q | |s.appendCalls| <= q < |s'.appendCalls|
        ensures FullSlice(s'.reigns, s'.appendCalls[q].args)
        ensures s'.appendCalls[q].args.term == v.currentTerm && End(s'.appendCalls[q].args) == |v.log|
      {
        HeartbeatIsFull(s.reigns, v, i, v.nextIndex[Peer(i, q - |s.appendCalls|)]);
      }
      HeartbeatsKeepOrder(s, s', v.currentTerm, |v.log|);
      forall t, f | (t, f) in s'.lastAck
        ensures AckNames(s', t, f, s'.lastAck[(t, f)])
      {
        assert AckNames(s, t, f, s.lastAck[(t, f)]);
      }
      assert forall t, f :: Held(s', t, f) == Held(s, t, f);
    }
  }

  // ---------------------------------------------------------------- accepting

  lemma StaleChangesNothing(v: Server, n: nat, args: AppendArgs)
    requires WfServer(v, n)
    ensures args.term < v.currentTerm ==> OnAppendEntries(v, args).0 == v
  {
  }

  /** Only a call from another leader of its own term could touch a leader, and there is none. */
  lemma HandleAppendKeepsLeader(s: Cluster, q: nat)
    requires WfCluster(s) && Reigns(s) && Logs(s) && Enabled(s, HandleAppend(q))
    ensures |DoHandleAppend(s, q).servers| == |s.servers|
    ensures forall u :: 0 <= u < |s.servers| ==> LeaderKept(s.servers[u], DoHandleAppend(s, q).servers[u])
  {
    hide WfServer, Anchored, Elected, GoodReign, OnAppendEntries, LeadsWith;
    var c := s.appendCalls[q];
    var v := s.servers[c.to];
    AppendOutcome(v, |s.servers|, c.args);
    assert Sliced(s.reigns, c.from, c.args) && Reigning(s.reigns, c.to, v);
    if v.role == Leader && c.args.term <= v.currentTerm {
      LeaderShape(v, |s.servers|);
      StaleChangesNothing(v, |s.servers|, c.args);
    }
  }

  lemma HandleAppendKeepsCalls(s: Cluster, q: nat)
    requires WfCluster(s) && Replication(s) && Enabled(s, HandleAppend(q)) && InSendOrder(s, HandleAppend(q))
    ensures var s' := DoHandleAppend(s, q);
            && Ordered(s'.appendCalls)
            && (forall p :: 0 <= p < |s'.appendCalls| ==> FullSlice(s'.reigns, s'.appendCalls[p].args))
            && (forall p :: 0 <= p < |s'.appendCalls| ==> AckRecorded(s'.lastAck, p, s'.appendCalls[p]))
  {
    hide WfServer, FullSlice, End, OnAppendEntries, NextBounded, Matched;
    var s' := DoHandleAppend(s, q);
    assert forall p :: 0 <= p < |s.appendCalls| ==> s'.appendCalls[p].args == s.appendCalls[p].args;
    forall p | 0 <= p < |s'.appendCalls|
      ensures AckRecorded(s'.lastAck, p, s'.appendCalls[p])
    {
      assert AckRecorded(s.lastAck, p, s.appendCalls[p]);
      assert s.appendCalls[q].args.term > 0 && s.appendCalls[p].handled ==>
               SameStream(s.appendCalls[p], s.appendCalls[q]) ==> p < q;
    }
  }

  lemma HandleAppendKeepsHeld(s: Cluster, q: nat)
    requires WfCluster(s) && Logs(s) && Replication(s) && Enabled(s, HandleAppend(q)) && InSendOrder(s, HandleAppend(q))
    ensures HeldKept(s, DoHandleAppend(s, q), s.appendCalls[q].to)
  {
    hide WfServer, Anchored, GoodReign, FullSlice, OnAppendEntries, AppendedLog, LeadsWith, NextBounded, Matched,
        AckRecorded;
    var s' := DoHandleAppend(s, q);
    var c := s.appendCalls[q];
    AppendOutcome(s.servers[c.to], |s.servers|, c.args);
    assert forall p :: 0 <= p < |s.appendCalls| ==> s'.appendCalls[p].args == s.appendCalls[p].args;
    forall t, f | t in s.reigns && 0 <= f < |s.servers|
      ensures Held(s, t, f) <= Held(s', t, f)
      ensures f != c.to || t < s.servers[f].currentTerm ==> Held(s', t, f) == Held(s, t, f)
    {
      if (t, f) in s.lastAck {
        var d := s.lastAck[(t, f)];
        assert AckNames(s, t, f, d);
        assert SameStream(s.appendCalls[d], c) && c.args.term > 0 ==> d < q;
      }
    }
  }

  lemma HandleAppendKeepsMatched(s: Cluster, q: nat, u: nat)
    requires WfCluster(s) && Reigns(s) && Logs(s) && u < |s.servers| && NextBounded(s.servers[u])
             && Matched(s, s.servers[u])
    requires Enabled(s, HandleAppend(q)) && u < |DoHandleAppend(s, q).servers|
    requires LeaderKept(s.servers[u], DoHandleAppend(s, q).servers[u])
             && HeldKept(s, DoHandleAppend(s, q), s.appendCalls[q].to)
    ensures NextBounded(DoHandleAppend(s, q).servers[u])
            && Matched(DoHandleAppend(s, q), DoHandleAppend(s, q).servers[u])
  {
    hide WfServer, Anchored, Elected, GoodReign, Sliced, DoHandleAppend, Held;
    assert LeadsWith(s.reigns, s.servers[u]);
    if s.servers[u].role == Leader {
      LeaderShape(s.servers[u], |s.servers|);
      var s', t := DoHandleAppend(s, q), s.servers[u].currentTerm;
      forall f | 0 <= f < |s.servers|
        ensures Held(s, t, f) <= Held(s', t, f)
      {
      }
    }
  }

  lemma HandleAppendKeepsNames(s: Cluster, q: nat, t: nat, f: nat)
    requires WfCluster(s) && Enabled(s, HandleAppend(q)) && (t, f) in DoHandleAppend(s, q).lastAck
    requires (t, f) in s.lastAck ==> AckNames(s, t, f, s.lastAck[(t, f)])
    ensures AckNames(DoHandleAppend(s, q), t, f, DoHandleAppend(s, q).lastAck[(t, f)])
  {
    hide WfServer, OnAppendEntries;
    var c := s.appendCalls[q];
    AppendOutcome(s.servers[c.to], |s.servers|, c.args);
  }

  lemma HandleAppendKeepsReplication(s: Cluster, q: nat)
    requires WfCluster(s) && Enabled(s, HandleAppend(q)) && InSendOrder(s, HandleAppend(q))
    requires Reigns(s) && Logs(s) && Replication(s)
    ensures Replication(DoHandleAppend(s, q)) && HeldKept(s, DoHandleAppend(s, q), Holder(s, HandleAppend(q)))
  {
    hide WfServer, WfVoteCall, WfAppendCall, Reigns, Logs, InSendOrder, FullSlice, Ordered, AckRecorded, AckNames,
        NextBounded,
      Matched, LeaderKept, HeldKept, DoHandleAppend;
    var s' := DoHandleAppend(s, q);
    HandleAppendKeepsLeader(s, q);
    HandleAppendKeepsCalls(s, q);
    HandleAppendKeepsHeld(s, q);
    forall u: nat | u < |s'.servers|
      ensures NextBounded(s'.servers[u]) && Matched(s', s'.servers[u])
    {
      HandleAppendKeepsMatched(s, q, u);
    }
    forall t, f | (t, f) in s'.lastAck
      ensures AckNames(s', t, f, s'.lastAck[(t, f)])
    {
      HandleAppendKeepsNames(s, q, t, f);
    }
  }

  // ---------------------------------------------------------------- consuming acknowledgements

  /** A reply half changes only one next and one match index, to what the request reached. */
  lemma AckUpdatesIndices(v: Server, n: nat, peer: nat, args: AppendArgs, reply: AppendReply)
    requires WfServer(v, n) && peer < n
    ensures var v' := OnAppendReply(v, n, peer, args, reply);
            && v.currentTerm <= v'.currentTerm && v'.log == v.log
            && (v'.role == Leader ==>
                  && v.role == Leader && v'.currentTerm == v.currentTerm
                  && |v'.nextIndex| == |v'.matchIndex| == |v.nextIndex| == |v.matchIndex| == n
                  && (forall p :: 0 <= p < n ==>
                        || v'.nextIndex[p] <= v.nextIndex[p]
                        || (p == peer && reply.success && v'.nextIndex[p] == End(args)))
                  && (forall p :: 0 <= p < n ==>
                        || v'.matchIndex[p] == v.matchIndex[p]
                        || (p == peer && reply.success && v'.matchIndex[p] == End(args) - 1)))
  {
  }

  lemma HeldPositive(s: Cluster, t: nat, f: nat)
    requires Logs(s)
    ensures Held(s, t, f) >= 1
  {
    hide Anchored;
    assert t in s.reigns ==> GoodReign(s.reigns, t, s.reigns[t].log);
  }

  /** What an acknowledgement reports is held by the follower, and lies within the leader's log. */
  lemma AckBound(s: Cluster, q: nat)
    requires WfCluster(s) && Logs(s) && Replication(s) && Enabled(s, ConsumeAppend(q)) && AckInTerm(s, ConsumeAppend(q))
    ensures var c := s.appendCalls[q];
            var v := s.servers[c.from];
            v.role == Leader && c.reply.success ==>
                End(c.args) <= |v.log| && End(c.args) <= Held(s, v.currentTerm, c.to)
  {
    hide WfServer, Anchored, GoodReign, NextBounded, Matched;
    var c := s.appendCalls[q];
    var v := s.servers[c.from];
    if v.role == Leader && c.reply.success {
      assert LeadsWith(s.reigns, v) && Sliced(s.reigns, c.from, c.args);
      LogNotEmpty(s, c.from);
      if c.args.term > 0 {
        assert AckRecorded(s.lastAck, q, c) && FullSlice(s.reigns, c.args);
        var d := s.lastAck[(c.args.term, c.to)];
        assert AckNames(s, c.args.term, c.to, d);
        assert q == d || End(c.args) <= End(s.appendCalls[d].args);
      } else {
        HeldPositive(s, v.currentTerm, c.to);
      }
    }
  }

  lemma AckKeepsBounds(s: Cluster, q: nat)
    requires WfCluster(s) && Logs(s) && Replication(s) && Enabled(s, ConsumeAppend(q)) && AckInTerm(s, ConsumeAppend(q))
    ensures var c := s.appendCalls[q];
            var v := s.servers[c.from];
            var v' := OnAppendReply(v, |s.servers|, c.to, c.args, c.reply);
            NextBounded(v') && Matched(s, v') && v.currentTerm <= v'.currentTerm
  {
    hide WfServer, FullSlice, End, Held, Ordered, AckRecorded, AckNames, Logs;
    var c := s.appendCalls[q];
    var v := s.servers[c.from];
    if v.role == Leader {
      LeaderShape(v, |s.servers|);
    }
    var v' := OnAppendReply(v, |s.servers|, c.to, c.args, c.reply);
    AckBound(s, q);
    AckUpdatesIndices(v, |s.servers|, c.to, c.args, c.reply);
    hide OnAppendReply;
    assert NextBounded(v) && Matched(s, v);
  }

  lemma ConsumeAppendKeepsOrder(calls: seq<AppendCall>, calls': seq<AppendCall>)
    requires Ordered(calls) && |calls| == |calls'| && forall p :: 0 <= p < |calls| ==> calls'[p].args == calls[p].args
    ensures Ordered(calls')
  {
  }

  lemma ConsumeAppendKeepsReplication(s: Cluster, q: nat)
    requires WfCluster(s) && Reigns(s) && Logs(s) && Replication(s)
    requires Enabled(s, ConsumeAppend(q)) && AckInTerm(s, ConsumeAppend(q))
    ensures Replication(DoConsumeAppend(s, q)) && HeldKept(s, DoConsumeAppend(s, q), |s.servers|)
  {
    hide WfServer, Anchored, Elected, GoodReign, FullSlice, End, OnAppendReply;
    var s' := DoConsumeAppend(s, q);
    var c := s.appendCalls[q];
    ConsumeAppendKeepsOrder(s.appendCalls, s'.appendCalls);
    assert forall p :: 0 <= p < |s.appendCalls| ==> s'.appendCalls[p].args == s.appendCalls[p].args;
    assert forall t, f :: Held(s', t, f) == Held(s, t, f);
    forall u | 0 <= u < |s.servers|
      ensures NextBounded(s'.servers[u]) && Matched(s', s'.servers[u])
      ensures s.servers[u].currentTerm <= s'.servers[u].currentTerm
    {
      assert NextBounded(s.servers[u]) && Matched(s, s.servers[u]) && LeadsWith(s.reigns, s.servers[u]);
      if u == c.from {
        AckKeepsBounds(s, q);
      }
    }
    forall p | 0 <= p < |s'.appendCalls|
      ensures AckRecorded(s'.lastAck, p, s'.appendCalls[p])
    {
      assert AckRecorded(s.lastAck, p, s.appendCalls[p]);
    }
    forall t, f | (t, f) in s'.lastAck
      ensures AckNames(s', t, f, s'.lastAck[(t, f)])
    {
      assert AckNames(s, t, f, s.lastAck[(t, f)]);
    }
  }

  lemma ReplicationStep(s: Cluster, step: Step)
    requires WfCluster(s) && Voting(s) && Election(s) && Logs(s) && Replication(s)
    requires Enabled(s, step) && Admits(IN_TERM_AND_ORDER, s, step)
    ensures Replication(Next(s, step)) && HeldKept(s, Next(s, step), Holder(s, step))
  {
    hide WfServer, WfVoteCall, WfAppendCall, Voting, Election, Logs, Replication, HeldKept, NoTraffic, Reigns;
    var s' := Next(s, step);
    ElectionParts(s);
    match step
    case Timeout(i) => TimeoutHasNoTraffic(s, i); NoTrafficKeepsReplication(s, s');
    case HandleVote(q) => HandleVoteHasNoTraffic(s, q); NoTrafficKeepsReplication(s, s');
    case ConsumeVote(q) =>
      if Wins(s, s.voteCalls[q]) {
        ConsumeVoteKeepsTallied(s, q);
        WinnerIsFirst(s, q);
        WinKeepsReplication(s, q);
      } else {
        ConsumeVoteHasNoTraffic(s, q); NoTrafficKeepsReplication(s, s');
      }
    case ClientStart(i, command) => StartKeepsReplication(s, i, command);
    case SendHeartbeats(i) => HeartbeatsKeepReplication(s, i);
    case HandleAppend(q) => HandleAppendKeepsReplication(s, q);
    case ConsumeAppend(q) => ConsumeAppendKeepsReplication(s, q);
  }
}
