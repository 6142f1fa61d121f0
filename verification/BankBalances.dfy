/** What the ledger of the bank implies: conservation and no negative balance. */
module BankBalances {
  import opened Wrappers
  import opened Bank

  // ---------------------------------------------------------------- conservation

  /** What a thread has added to all balances together so far. */
  function Moved(t: Thread): int {
    match t.op
    case Deposit(_, amount) => if t.pc > 4 then amount else 0
    case Withdraw(_, amount) => if t.ok && t.pc > 5 then -amount else 0
    case Transfer(_, _, amount, _) => if t.ok && 6 < t.pc <= 8 then -amount else 0
    case DepositAndCompare(_, amount, _) => if t.pc > 4 then amount else 0
    case GetBalance(_) => 0
  }

  function AllMoved(threads: seq<Thread>): seq<int> {
    seq(|threads|, i requires 0 <= i < |threads| => Moved(threads[i]))
  }

  ghost predicate Totalled(s: State, balances: seq<int>) {
    Sum(s.balances) == Sum(balances) + Sum(AllMoved(s.threads))
  }

  lemma InstrMoved(t: Thread, t': Thread)
    requires t'.op == t.op && !InstrOf(t).Halt?
    requires if InstrOf(t).Test? then t'.pc == (if t'.ok then t.pc + 1 else Skip(t.op)) else t'.pc == t.pc + 1
    requires t'.ok == t.ok || InstrOf(t).Test? || InstrOf(t).Compare?
    requires InstrOf(t).Write? && (t.op.Withdraw? || t.op.Transfer?) ==> t.ok
    ensures Moved(t') == Moved(t) + if InstrOf(t).Write? then InstrOf(t).d else 0
  {
  }

  lemma TotalledStep(s: State, i: nat, balances: seq<int>)
    requires Wf(s) && Ledger(s, balances) && Totalled(s, balances) && Enabled(s, i)
    ensures Totalled(Next(s, i), balances)
  {
    hide Code, Locked, Approved, Moved, Booked;
    var s' := Next(s, i);
    var t, t' := s.threads[i], s'.threads[i];
    InstrAccount(t, |s.balances|);
    ApprovedStep(t, t');
    InstrMoved(t, t');
    SumUpdate(AllMoved(s.threads), i, Moved(t'));
    assert AllMoved(s'.threads) == AllMoved(s.threads)[i := Moved(t')];
    if InstrOf(t).Write? {
      SumUpdate(s.balances, InstrOf(t).a, t.reg + InstrOf(t).d);
    }
  }

  lemma {:induction false} TotalledHolds(balances: seq<int>, ops: seq<Op>, schedule: seq<nat>)
    requires forall i :: 0 <= i < |ops| ==> WfOp(ops[i], |balances|)
    requires Run(balances, ops, schedule).Some?
    ensures Totalled(Run(balances, ops, schedule).value, balances)
  {
    if schedule == [] {
      ZeroSum(|ops|);
      assert AllMoved(Start(balances, ops).threads) == seq(|ops|, _ => 0);
    } else {
      hide Next, Ledger, Totalled;
      var before := schedule[..|schedule| - 1];
      TotalledHolds(balances, ops, before);
      LedgerHolds(balances, ops, before);
      TotalledStep(Run(balances, ops, before).value, schedule[|schedule| - 1], balances);
    }
  }

  /** Thread t has debited a sender and not yet credited the receiver. */
  predicate MidTransfer(t: Thread) {
    t.op.Transfer? && t.ok && 6 < t.pc <= 8
  }

  lemma {:induction false} NothingMoved(threads: seq<Thread>)
    requires forall i :: 0 <= i < |threads| ==>
             (threads[i].op.Transfer? || threads[i].op.GetBalance?) && !MidTransfer(threads[i])
    ensures Sum(AllMoved(threads)) == 0
  {
    ZeroSum(|threads|);
    assert AllMoved(threads) == seq(|threads|, _ => 0);
  }

  /** Transfers conserve the total: it is the initial one whenever no transfer is between its two writes. */
  lemma TransfersConserve(balances: seq<int>, ops: seq<Op>, schedule: seq<nat>)
    requires forall i :: 0 <= i < |ops| ==> WfOp(ops[i], |balances|) && (ops[i].Transfer? || ops[i].GetBalance?)
    requires Run(balances, ops, schedule).Some?
    requires forall i :: 0 <= i < |ops| ==> !MidTransfer(Run(balances, ops, schedule).value.threads[i])
    ensures Sum(Run(balances, ops, schedule).value.balances) == Sum(balances)
  {
    TotalledHolds(balances, ops, schedule);
    NothingMoved(Run(balances, ops, schedule).value.threads);
  }

  /** What a finished call means for the total. */
  function TotalNet(t: Thread): int {
    match t.op
    case Deposit(_, amount) => amount
    case Withdraw(_, amount) => if t.ok then -amount else 0
    case Transfer(_, _, _, _) => 0
    case DepositAndCompare(_, amount, _) => amount
    case GetBalance(_) => 0
  }

  /** When every call has returned, the total has changed by the deposits and the successful withdrawals. */
  lemma TotalAgrees(balances: seq<int>, ops: seq<Op>, schedule: seq<nat>)
    requires forall i :: 0 <= i < |ops| ==> WfOp(ops[i], |balances|)
    requires Run(balances, ops, schedule).Some? && Quiet(Run(balances, ops, schedule).value)
    ensures var s := Run(balances, ops, schedule).value;
            Sum(s.balances) == Sum(balances) + Sum(seq(|ops|, i requires 0 <= i < |ops| => TotalNet(s.threads[i])))
  {
    TotalledHolds(balances, ops, schedule);
    var s := Run(balances, ops, schedule).value;
    assert AllMoved(s.threads) == seq(|ops|, i requires 0 <= i < |ops| => TotalNet(s.threads[i]));
  }

  // ---------------------------------------------------------------- no negative balance

  predicate Modest(op: Op) {
    match op
    case Deposit(_, amount) => amount >= 0
    case Withdraw(_, amount) => amount >= 0
    case Transfer(_, _, amount, allowOverdraw) => amount >= 0 && !allowOverdraw
    case DepositAndCompare(_, amount, _) => amount >= 0
    case GetBalance(_) => true
  }

  /** The account and amount a thread has tested for and not yet debited. */
  function Reserved(t: Thread): Option<(nat, int)> {
    match t.op
    case Withdraw(x, amount) => if 4 <= t.pc <= 5 then Some((x, amount)) else None
    case Transfer(x, _, amount, _) => if 5 <= t.pc <= 6 then Some((x, amount)) else None
    case _ => None
  }

  ghost predicate Covers(balances: seq<int>, r: Option<(nat, int)>) {
    r.Some? ==> r.value.0 < |balances| && balances[r.value.0] >= r.value.1
  }

  ghost predicate Solvent(s: State) {
    && (forall a :: 0 <= a < |s.balances| ==> s.balances[a] >= 0)
    && forall i :: 0 <= i < |s.threads| ==> Modest(s.threads[i].op) && Covers(s.balances, Reserved(s.threads[i]))
  }

  lemma ReservedIsHeld(t: Thread)
    ensures Reserved(t).Some? ==> HoldsAccount(t, Reserved(t).value.0)
  {
  }

  /** How a step changes what its thread has reserved, and what a debit takes. */
  lemma InstrReserved(t: Thread, t': Thread)
    requires Modest(t.op) && t'.op == t.op
    requires if InstrOf(t).Test? then t'.pc == (if t'.ok then t.pc + 1 else Skip(t.op)) else t'.pc == t.pc + 1
    ensures Reserved(t').Some? ==>
            Reserved(t') == Reserved(t)
                || (t'.ok && InstrOf(t) == Test(Reserved(t').value.0, Reserved(t').value.1, false))
    ensures InstrOf(t).Write? ==>
            Reserved(t').None? && (InstrOf(t).d >= 0 || Reserved(t) == Some((InstrOf(t).a, -InstrOf(t).d)))
  {
  }

  lemma SolventStep(s: State, i: nat, balances: seq<int>)
    requires Wf(s) && Ledger(s, balances) && Solvent(s) && Enabled(s, i)
    ensures Solvent(Next(s, i))
  {
    hide Code, HoldsAccount, HoldsBank, Booked, Approved, Reserved, Modest;
    var s' := Next(s, i);
    var t, t' := s.threads[i], s'.threads[i];
    InstrAccount(t, |s.balances|);
    InstrTouchesHeld(t);
    InstrReserved(t, t');
    forall j: nat | j < |s.threads| && j != i
      ensures Covers(s'.balances, Reserved(s'.threads[j]))
    {
      ReservedIsHeld(s.threads[j]);
      var r := Reserved(s.threads[j]);
      assert r.Some? ==> s.owners[r.value.0] == Some(j);
      assert InstrOf(t).Write? ==> s.owners[InstrOf(t).a] == Some(i);
    }
  }

  /** With non-negative amounts and no overdraw, no balance is ever negative, in any state of any run. */
  lemma {:induction false} NeverNegative(balances: seq<int>, ops: seq<Op>, schedule: seq<nat>)
    requires forall i :: 0 <= i < |ops| ==> WfOp(ops[i], |balances|) && Modest(ops[i])
    requires forall a :: 0 <= a < |balances| ==> balances[a] >= 0
    requires Run(balances, ops, schedule).Some?
    ensures Solvent(Run(balances, ops, schedule).value)
  {
    if schedule != [] {
      hide Next, Ledger, Solvent;
      var before := schedule[..|schedule| - 1];
      NeverNegative(balances, ops, before);
      LedgerHolds(balances, ops, before);
      SolventStep(Run(balances, ops, before).value, schedule[|schedule| - 1], balances);
    }
  }
}
