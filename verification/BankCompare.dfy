/**
 How many equal DepositAndCompare calls on an empty account answer false: never more than
 (threshold - 1) / amount, and exactly when it is that many in every run.
 */
module BankCompare {
  import opened Wrappers
  import opened Bank

  // ---------------------------------------------------------------- the bound

  /** The calls that touch account x are all the same DepositAndCompare. */
  ghost predicate OnlyCompares(op: Op, x: nat, amount: int, threshold: int) {
    x in AccountsOf(op) ==> op == DepositAndCompare(x, amount, threshold)
  }

  /** 1 when the thread's deposit to x is done. */
  function Paid(t: Thread, x: nat): int {
    if t.op.DepositAndCompare? && t.op.account == x && t.pc > 4 then 1 else 0
  }

  /** 1 when the thread has read a balance of x below the threshold. */
  function Low(t: Thread, x: nat): int {
    if t.op.DepositAndCompare? && t.op.account == x && t.pc > 7 && t.reg < t.op.threshold then 1 else 0
  }

  /** 1 when the call has returned false. */
  function SaidNo(t: Thread, x: nat): int {
    if t.op.DepositAndCompare? && t.op.account == x && Finished(t) && !t.ok then 1 else 0
  }

  function Each(threads: seq<Thread>, x: nat, f: (Thread, nat) -> int): seq<int> {
    seq(|threads|, i requires 0 <= i < |threads| => f(threads[i], x))
  }

  lemma {:induction false} SumScaled(s: seq<int>, t: seq<int>, k: int)
    requires |s| == |t| && forall i :: 0 <= i < |s| ==> s[i] == k * t[i]
    ensures Sum(s) == k * Sum(t)
  {
    if s != [] {
      SumScaled(s[..|s| - 1], t[..|t| - 1], k);
    }
  }

  ghost predicate FewLow(s: State, x: nat, amount: int, threshold: int) {
    && amount * Sum(Each(s.threads, x, Low)) <= threshold - 1
    && forall i :: 0 <= i < |s.threads| ==> OnlyCompares(s.threads[i].op, x, amount, threshold)
  }

  lemma InstrLow(t: Thread, t': Thread, x: nat)
    requires t'.op == t.op && !InstrOf(t).Halt?
    requires InstrOf(t).Test? || t'.pc == t.pc + 1
    requires t'.reg == t.reg || InstrOf(t).Read?
    ensures Low(t', x) == Low(t, x)
            || (InstrOf(t) == Read(x) && t'.op.DepositAndCompare? && t'.op.account == x && t'.reg < t'.op.threshold)
  {
  }

  lemma LowIsPaid(threads: seq<Thread>, x: nat)
    ensures Sum(Each(threads, x, Low)) <= Sum(Each(threads, x, Paid))
  {
    SumBelow(Each(threads, x, Low), Each(threads, x, Paid));
  }

  /** Everything in account x was put there by the calls that have paid. */
  lemma BalanceIsPaid(s: State, balances: seq<int>, x: nat, amount: int, threshold: int)
    requires Booked(s, balances) && x < |balances| && balances[x] == 0
    requires forall i :: 0 <= i < |s.threads| ==> OnlyCompares(s.threads[i].op, x, amount, threshold)
    ensures s.balances[x] == amount * Sum(Each(s.threads, x, Paid))
  {
    SumScaled(AllWritten(s.threads, x), Each(s.threads, x, Paid), amount);
  }

  lemma LedgerBooks(s: State, balances: seq<int>)
    requires Ledger(s, balances)
    ensures Booked(s, balances)
  {
  }

  lemma Scale(k: int, x: int, y: int)
    requires k > 0 && x <= y
    ensures k * x <= k * y
  {
  }

  /** While the balance is low, no more calls have read a low balance than have paid for it. */
  lemma LowRead(s: State, balances: seq<int>, x: nat, amount: int, threshold: int)
    requires Booked(s, balances) && x < |balances| && balances[x] == 0 && amount > 0 && s.balances[x] < threshold
    requires forall i :: 0 <= i < |s.threads| ==> OnlyCompares(s.threads[i].op, x, amount, threshold)
    ensures amount * Sum(Each(s.threads, x, Low)) <= threshold - 1
  {
    BalanceIsPaid(s, balances, x, amount, threshold);
    LowIsPaid(s.threads, x);
    Scale(amount, Sum(Each(s.threads, x, Low)), Sum(Each(s.threads, x, Paid)));
  }

  lemma SameThreshold(op: Op, x: nat, amount: int, threshold: int)
    requires OnlyCompares(op, x, amount, threshold) && op.DepositAndCompare? && op.account == x
    ensures op.threshold == threshold
  {
  }

  lemma FewLowStep(s: State, i: nat, balances: seq<int>, x: nat, amount: int, threshold: int)
    requires Wf(s) && Ledger(s, balances) && FewLow(s, x, amount, threshold) && Enabled(s, i)
    requires x < |balances| && balances[x] == 0 && amount > 0
    ensures FewLow(Next(s, i), x, amount, threshold)
  {
    hide Next, Enabled, Ledger, Code, Booked, OnlyCompares, Low, Paid, Sum;
    LedgerStep(s, i, balances);
    StepShape(s, i);
    LedgerBooks(Next(s, i), balances);
    var s' := Next(s, i);
    var t, t' := s.threads[i], s'.threads[i];
    InstrLow(t, t', x);
    if Low(t', x) != Low(t, x) {
      SameThreshold(t.op, x, amount, threshold);
      LowRead(s', balances, x, amount, threshold);
    } else {
      assert Each(s'.threads, x, Low) == Each(s.threads, x, Low);
    }
  }

  lemma {:induction false} FewLowHolds(balances: seq<int>, ops: seq<Op>, schedule: seq<nat>, x: nat, amount: int,
                                       threshold: int)
    requires forall i :: 0 <= i < |ops| ==> WfOp(ops[i], |balances|) && OnlyCompares(ops[i], x, amount, threshold)
    requires x < |balances| && balances[x] == 0 && amount > 0 && threshold >= 1
    requires Run(balances, ops, schedule).Some?
    ensures FewLow(Run(balances, ops, schedule).value, x, amount, threshold)
  {
    if schedule == [] {
      ZeroSum(|ops|);
      assert Each(Start(balances, ops).threads, x, Low) == seq(|ops|, _ => 0);
    } else {
      hide Next, Ledger, FewLow;
      var before := schedule[..|schedule| - 1];
      FewLowHolds(balances, ops, before, x, amount, threshold);
      LedgerHolds(balances, ops, before);
      FewLowStep(Run(balances, ops, before).value, schedule[|schedule| - 1], balances, x, amount, threshold);
    }
  }

  lemma NoIsLow(t: Thread, x: nat)
    requires Answered(t)
    ensures SaidNo(t, x) <= Low(t, x)
  {
  }

  lemma NoesAreLow(threads: seq<Thread>, x: nat)
    requires forall i :: 0 <= i < |threads| ==> Answered(threads[i])
    ensures Sum(Each(threads, x, SaidNo)) <= Sum(Each(threads, x, Low))
  {
    hide Answered, SaidNo, Low, Sum;
    forall i | 0 <= i < |threads|
      ensures SaidNo(threads[i], x) <= Low(threads[i], x)
    {
      NoIsLow(threads[i], x);
    }
    SumBelow(Each(threads, x, SaidNo), Each(threads, x, Low));
  }

  lemma Quotient(n: int, m: int, amount: int, bound: int)
    requires n <= m && amount > 0 && amount * m <= bound
    ensures n <= bound / amount
  {
    var q := bound / amount;
    assert bound < amount * (q + 1);
    if n > q {
      Scale(amount, q + 1, m);
    }
  }

  /** Of equal DepositAndCompare calls on an empty account, at most (threshold - 1) / amount answer false. */
  lemma FewSayNo(balances: seq<int>, ops: seq<Op>, schedule: seq<nat>, x: nat, amount: int, threshold: int)
    requires forall i :: 0 <= i < |ops| ==> WfOp(ops[i], |balances|) && OnlyCompares(ops[i], x, amount, threshold)
    requires x < |balances| && balances[x] == 0 && amount > 0 && threshold >= 1
    requires Run(balances, ops, schedule).Some?
    ensures Sum(Each(Run(balances, ops, schedule).value.threads, x, SaidNo)) <= (threshold - 1) / amount
  {
    hide Run, Sum, Each, OnlyCompares, Answered;
    FewLowHolds(balances, ops, schedule, x, amount, threshold);
    var threads := Run(balances, ops, schedule).value.threads;
    var noes, lows := Sum(Each(threads, x, SaidNo)), Sum(Each(threads, x, Low));
    AnsweredHolds(balances, ops, schedule);
    NoesAreLow(threads, x);
    Quotient(noes, lows, amount, threshold - 1);
  }

  // ---------------------------------------------------------------- every run can be finished

  lemma OneMoreStep(balances: seq<int>, ops: seq<Op>, schedule: seq<nat>, i: nat)
    requires forall j :: 0 <= j < |ops| ==> WfOp(ops[j], |balances|)
    requires Run(balances, ops, schedule).Some? && Enabled(Run(balances, ops, schedule).value, i)
    ensures Run(balances, ops, schedule + [i]) == Some(Next(Run(balances, ops, schedule).value, i))
  {
    hide Next, Enabled;
    assert (schedule + [i])[..|schedule|] == schedule;
  }

  lemma CanFinish(balances: seq<int>, ops: seq<Op>, schedule: seq<nat>) returns (rest: seq<nat>)
    requires forall j :: 0 <= j < |ops| ==> WfOp(ops[j], |balances|)
    requires Run(balances, ops, schedule).Some?
    ensures Run(balances, ops, schedule + rest).Some? && Quiet(Run(balances, ops, schedule + rest).value)
    decreases Sum(Lengths(ops)) - |schedule|
  {
    hide Run, Enabled, Next, Sum;
    var s := Run(balances, ops, schedule).value;
    if Quiet(s) {
      rest := [];
      assert schedule + rest == schedule;
    } else {
      var i: nat :| i < |s.threads| && !Finished(s.threads[i]);
      NoDeadlock(balances, ops, schedule, i);
      var j: nat := i;
      if !Enabled(s, i) {
        j :| Underway(s, j);
      }
      OneMoreStep(balances, ops, schedule, j);
      RunsEnd(balances, ops, schedule + [j]);
      var more := CanFinish(balances, ops, schedule + [j]);
      rest := [j] + more;
      assert schedule + rest == schedule + [j] + more;
    }
  }

  // ---------------------------------------------------------------- too few calls to reach the threshold

  function On(op: Op, x: nat): int {
    if x in AccountsOf(op) then 1 else 0
  }

  /** How many of the calls are on account x. */
  function CallsOn(ops: seq<Op>, x: nat): int {
    Sum(seq(|ops|, i requires 0 <= i < |ops| => On(ops[i], x)))
  }

  /** The thread, if it has read account x, found less than its threshold. */
  ghost predicate FoundLow(t: Thread, x: nat) {
    t.op.DepositAndCompare? && t.op.account == x && t.pc > 7 ==> t.reg < t.op.threshold
  }

  lemma InstrFoundLow(t: Thread, t': Thread, x: nat)
    requires t'.op == t.op && !InstrOf(t).Halt? && FoundLow(t, x)
    requires InstrOf(t).Test? || t'.pc == t.pc + 1
    requires t'.reg == t.reg || InstrOf(t).Read?
    requires InstrOf(t) == Read(x) && t.op.DepositAndCompare? ==> t'.reg < t.op.threshold
    ensures FoundLow(t', x)
  {
  }

  lemma PaidByCallers(ops: seq<Op>, threads: seq<Thread>, x: nat)
    requires |threads| == |ops| && forall i :: 0 <= i < |ops| ==> threads[i].op == ops[i]
    ensures Sum(Each(threads, x, Paid)) <= CallsOn(ops, x)
  {
    SumBelow(Each(threads, x, Paid), seq(|ops|, i requires 0 <= i < |ops| => On(ops[i], x)));
  }

  /** Equal calls on account x, which is empty at first; other calls leave it alone. */
  ghost predicate Comparing(balances: seq<int>, ops: seq<Op>, x: nat, amount: int, threshold: int) {
    && (forall i :: 0 <= i < |ops| ==> WfOp(ops[i], |balances|))
    && (forall i :: 0 <= i < |ops| ==> OnlyCompares(ops[i], x, amount, threshold))
    && x < |balances| && balances[x] == 0 && amount > 0 && threshold >= 1
  }

  ghost predicate Belongs(threads: seq<Thread>, ops: seq<Op>) {
    |threads| == |ops| && forall i :: 0 <= i < |ops| ==> threads[i].op == ops[i]
  }

  lemma BalanceIsBounded(s: State, balances: seq<int>, ops: seq<Op>, x: nat, amount: int, threshold: int)
    requires Comparing(balances, ops, x, amount, threshold) && Booked(s, balances) && Belongs(s.threads, ops)
    ensures s.balances[x] <= amount * CallsOn(ops, x)
  {
    hide Booked, WfOp, OnlyCompares, CallsOn, Sum, Each;
    BalanceIsPaid(s, balances, x, amount, threshold);
    PaidByCallers(ops, s.threads, x);
    Scale(amount, Sum(Each(s.threads, x, Paid)), CallsOn(ops, x));
  }

  lemma ReadsItsOwn(t: Thread, x: nat)
    ensures InstrOf(t) == Read(x) && t.op.DepositAndCompare? ==> t.op.account == x
  {
  }

  lemma FoundLowStep(s: State, i: nat, balances: seq<int>, ops: seq<Op>, x: nat, amount: int, threshold: int)
    requires Comparing(balances, ops, x, amount, threshold) && amount * CallsOn(ops, x) < threshold
    requires Wf(s) && Ledger(s, balances) && Belongs(s.threads, ops) && Enabled(s, i)
    requires forall j :: 0 <= j < |ops| ==> FoundLow(s.threads[j], x)
    ensures forall j :: 0 <= j < |ops| ==> FoundLow(Next(s, i).threads[j], x)
  {
    hide Next, Enabled, Ledger, Code, Booked, OnlyCompares, CallsOn, FoundLow;
    LedgerStep(s, i, balances);
    StepShape(s, i);
    LedgerBooks(Next(s, i), balances);
    var s' := Next(s, i);
    var t, t' := s.threads[i], s'.threads[i];
    BalanceIsBounded(s', balances, ops, x, amount, threshold);
    ReadsItsOwn(t, x);
    if InstrOf(t) == Read(x) && t.op.DepositAndCompare? {
      SameThreshold(t.op, x, amount, threshold);
    }
    InstrFoundLow(t, t', x);
  }

  lemma {:induction false} FoundLowHolds(balances: seq<int>, ops: seq<Op>, schedule: seq<nat>, x: nat, amount: int,
                                         threshold: int)
    requires Comparing(balances, ops, x, amount, threshold) && amount * CallsOn(ops, x) < threshold
    requires Run(balances, ops, schedule).Some?
    ensures forall j :: 0 <= j < |ops| ==> FoundLow(Run(balances, ops, schedule).value.threads[j], x)
  {
    if schedule != [] {
      hide Next, Enabled, Ledger, FoundLow, CallsOn, OnlyCompares;
      var before := schedule[..|schedule| - 1];
      FoundLowHolds(balances, ops, before, x, amount, threshold);
      LedgerHolds(balances, ops, before);
      FoundLowStep(Run(balances, ops, before).value, schedule[|schedule| - 1], balances, ops, x, amount, threshold);
    }
  }

  lemma FoundLowSaysNo(t: Thread, x: nat, amount: int, threshold: int)
    requires FoundLow(t, x) && Answered(t) && Finished(t) && OnlyCompares(t.op, x, amount, threshold)
    ensures SaidNo(t, x) == On(t.op, x)
  {
  }

  /** Calls that together cannot reach the threshold all answer false. */
  lemma AllSayNo(balances: seq<int>, ops: seq<Op>, schedule: seq<nat>, x: nat, amount: int, threshold: int)
    requires Comparing(balances, ops, x, amount, threshold) && amount * CallsOn(ops, x) < threshold
    requires Run(balances, ops, schedule).Some? && Quiet(Run(balances, ops, schedule).value)
    ensures Sum(Each(Run(balances, ops, schedule).value.threads, x, SaidNo)) == CallsOn(ops, x)
  {
    hide Run, Sum, OnlyCompares, Answered, FoundLow, SaidNo, On;
    FoundLowHolds(balances, ops, schedule, x, amount, threshold);
    AnsweredHolds(balances, ops, schedule);
    var threads := Run(balances, ops, schedule).value.threads;
    forall i | 0 <= i < |ops|
      ensures SaidNo(threads[i], x) == On(ops[i], x)
    {
      FoundLowSaysNo(threads[i], x, amount, threshold);
    }
    assert Each(threads, x, SaidNo) == seq(|ops|, i requires 0 <= i < |ops| => On(ops[i], x));
  }

  // ---------------------------------------------------------------- enough calls to miss the bound

  /** No lock is taken. */
  ghost predicate Free(s: State) {
    s.bank == None && forall a :: 0 <= a < |s.owners| ==> s.owners[a] == None
  }

  /** A thread makes its deposit while no other moves. */
  lemma DepositsAlone(balances: seq<int>, ops: seq<Op>, schedule: seq<nat>, i: nat, x: nat)
    returns (schedule': seq<nat>)
    requires forall j :: 0 <= j < |ops| ==> WfOp(ops[j], |balances|)
    requires Run(balances, ops, schedule).Some? && Free(Run(balances, ops, schedule).value)
    requires i < |ops| && ops[i].DepositAndCompare? && ops[i].account == x < |balances|
    requires Run(balances, ops, schedule).value.threads[i] == Thread(ops[i], 0, 0, false)
    ensures Run(balances, ops, schedule').Some? && Free(Run(balances, ops, schedule').value)
    ensures var s, s' := Run(balances, ops, schedule).value, Run(balances, ops, schedule').value;
            s'.threads[i].pc == 6 && s'.threads == s.threads[i := s'.threads[i]]
  {
    hide Run;
    var s := Run(balances, ops, schedule).value;
    var op, now := ops[i], s;
    schedule' := schedule;
    for pc := 0 to 6
      invariant Run(balances, ops, schedule') == Some(now)
      invariant Wf(now) && |now.balances| == |balances| && |now.threads| == |ops|
      invariant now.threads[i].op == op && now.threads[i].pc == pc && now.threads == s.threads[i := now.threads[i]]
      invariant now.bank == if 1 <= pc <= 2 then Some(i) else None
      invariant now.owners == s.owners[x := if 2 <= pc <= 5 then Some(i) else None]
    {
      OneMoreStep(balances, ops, schedule', i);
      schedule', now := schedule' + [i], Next(now, i);
    }
  }

  /** The first k threads that call on x have deposited; nothing else has happened. */
  ghost predicate Staged(s: State, ops: seq<Op>, x: nat, k: nat) {
    && |s.threads| == |ops| && Free(s)
    && forall i :: 0 <= i < |ops| ==>
      if i < k && x in AccountsOf(ops[i]) then s.threads[i].pc == 6 else s.threads[i] == Thread(ops[i], 0, 0, false)
  }

  lemma NoneStaged(balances: seq<int>, ops: seq<Op>, x: nat)
    requires forall j :: 0 <= j < |ops| ==> WfOp(ops[j], |balances|)
    ensures Run(balances, ops, []).Some? && Staged(Run(balances, ops, []).value, ops, x, 0)
  {
  }

  lemma {:induction false} AllDeposit(balances: seq<int>, ops: seq<Op>, x: nat, amount: int, threshold: int, k: nat)
    returns (schedule: seq<nat>)
    requires Comparing(balances, ops, x, amount, threshold) && k <= |ops|
    ensures Run(balances, ops, schedule).Some? && Staged(Run(balances, ops, schedule).value, ops, x, k)
  {
    if k == 0 {
      schedule := [];
      NoneStaged(balances, ops, x);
    } else {
      hide Run, Free, WfOp;
      schedule := AllDeposit(balances, ops, x, amount, threshold, k - 1);
      if x in AccountsOf(ops[k - 1]) {
        schedule := DepositsAlone(balances, ops, schedule, k - 1, x);
      }
    }
  }

  /** Every call on x has deposited, and none has found less than its threshold. */
  ghost predicate Rich(s: State, ops: seq<Op>, x: nat) {
    && Belongs(s.threads, ops)
    && forall i :: 0 <= i < |ops| ==> Paid(s.threads[i], x) == On(ops[i], x) && Low(s.threads[i], x) == 0
  }

  lemma RichBalance(s: State, balances: seq<int>, ops: seq<Op>, x: nat, amount: int, threshold: int)
    requires Comparing(balances, ops, x, amount, threshold) && Booked(s, balances) && Rich(s, ops, x)
    ensures s.balances[x] == amount * CallsOn(ops, x)
  {
    hide Booked, WfOp, OnlyCompares, Sum, Paid, On, Low;
    BalanceIsPaid(s, balances, x, amount, threshold);
    assert Each(s.threads, x, Paid) == seq(|ops|, i requires 0 <= i < |ops| => On(ops[i], x));
  }

  lemma PaidStays(t: Thread, t': Thread, x: nat)
    requires t'.op == t.op && t'.pc > t.pc
    ensures Paid(t', x) >= Paid(t, x)
    ensures Paid(t, x) == On(t.op, x) ==> Paid(t', x) == On(t'.op, x)
  {
  }

  lemma ReadKeepsBalances(s: State, i: nat)
    requires Wf(s) && Enabled(s, i)
    ensures i < |s.threads| && (InstrOf(s.threads[i]).Read? ==> Next(s, i).balances == s.balances)
  {
  }

  lemma RichStep(s: State, i: nat, balances: seq<int>, ops: seq<Op>, x: nat, amount: int, threshold: int)
    requires Comparing(balances, ops, x, amount, threshold) && amount * CallsOn(ops, x) >= threshold
    requires Wf(s) && Ledger(s, balances) && Rich(s, ops, x) && Enabled(s, i)
    ensures Rich(Next(s, i), ops, x)
  {
    hide Next, Enabled, Ledger, Code, Booked, OnlyCompares, CallsOn, Low, Paid, On;
    StepShape(s, i);
    LedgerBooks(s, balances);
    RichBalance(s, balances, ops, x, amount, threshold);
    var t, t' := s.threads[i], Next(s, i).threads[i];
    PaidStays(t, t', x);
    InstrLow(t, t', x);
    ReadKeepsBalances(s, i);
    if Low(t', x) != Low(t, x) {
      SameThreshold(t.op, x, amount, threshold);
    }
  }

  lemma {:induction false} RichStays(balances: seq<int>, ops: seq<Op>, schedule: seq<nat>, rest: seq<nat>, x: nat,
                                     amount: int, threshold: int)
    requires Comparing(balances, ops, x, amount, threshold) && amount * CallsOn(ops, x) >= threshold
    requires Run(balances, ops, schedule).Some? && Rich(Run(balances, ops, schedule).value, ops, x)
    requires Run(balances, ops, schedule + rest).Some?
    ensures Rich(Run(balances, ops, schedule + rest).value, ops, x)
    decreases |rest|
  {
    hide Next, Enabled, Ledger, Rich, CallsOn, OnlyCompares;
    if rest == [] {
      assert schedule + rest == schedule;
    } else {
      var before := rest[..|rest| - 1];
      assert (schedule + rest)[..|schedule + rest| - 1] == schedule + before;
      RichStays(balances, ops, schedule, before, x, amount, threshold);
      LedgerHolds(balances, ops, schedule + before);
      RichStep(Run(balances, ops, schedule + before).value, rest[|rest| - 1], balances, ops, x, amount, threshold);
    }
  }

  lemma StagedIsRich(s: State, ops: seq<Op>, x: nat, amount: int, threshold: int)
    requires Staged(s, ops, x, |ops|) && Belongs(s.threads, ops)
    requires forall i :: 0 <= i < |ops| ==> OnlyCompares(ops[i], x, amount, threshold)
    ensures Rich(s, ops, x)
  {
  }

  lemma NoLows(s: State, ops: seq<Op>, x: nat)
    requires Rich(s, ops, x)
    ensures Sum(Each(s.threads, x, Low)) == 0
  {
    hide Low, Paid;
    ZeroSum(|ops|);
    assert Each(s.threads, x, Low) == seq(|ops|, _ => 0);
  }

  /** Calls that together reach the threshold may all deposit before any reads: then none answers false. */
  lemma NoneSaysNo(balances: seq<int>, ops: seq<Op>, x: nat, amount: int, threshold: int)
    returns (schedule: seq<nat>)
    requires Comparing(balances, ops, x, amount, threshold) && amount * CallsOn(ops, x) >= threshold
    ensures Run(balances, ops, schedule).Some? && Quiet(Run(balances, ops, schedule).value)
    ensures Sum(Each(Run(balances, ops, schedule).value.threads, x, SaidNo)) <= 0
  {
    hide Run, Sum, Staged, Rich, CallsOn, OnlyCompares, Answered;
    var deposits := AllDeposit(balances, ops, x, amount, threshold, |ops|);
    StagedIsRich(Run(balances, ops, deposits).value, ops, x, amount, threshold);
    var rest := CanFinish(balances, ops, deposits);
    schedule := deposits + rest;
    RichStays(balances, ops, deposits, rest, x, amount, threshold);
    AnsweredHolds(balances, ops, schedule);
    var threads := Run(balances, ops, schedule).value.threads;
    NoesAreLow(threads, x);
    NoLows(Run(balances, ops, schedule).value, ops, x);
  }

  // ---------------------------------------------------------------- exactly when the count is exact

  /** Every run to the end has exactly (threshold - 1) / amount false answers. */
  ghost predicate CountIsExact(balances: seq<int>, ops: seq<Op>, x: nat, amount: int, threshold: int)
    requires Comparing(balances, ops, x, amount, threshold)
  {
    forall schedule | Run(balances, ops, schedule).Some? && Quiet(Run(balances, ops, schedule).value) ::
      Sum(Each(Run(balances, ops, schedule).value.threads, x, SaidNo)) == (threshold - 1) / amount
  }

  lemma NoesNotNegative(threads: seq<Thread>, x: nat)
    ensures Sum(Each(threads, x, SaidNo)) >= 0
  {
    ZeroSum(|threads|);
    SumBelow(seq(|threads|, _ => 0), Each(threads, x, SaidNo));
  }

  /** n calls reach the threshold exactly when n is more than the bound. */
  lemma ReachesIff(n: int, amount: int, threshold: int)
    requires amount > 0
    ensures amount * n >= threshold <==> n > (threshold - 1) / amount
  {
    var q := (threshold - 1) / amount;
    assert amount * q <= threshold - 1 < amount * (q + 1);
    if n > q {
      Scale(amount, q + 1, n);
    } else {
      Scale(amount, n, q);
    }
  }

  lemma StartRuns(balances: seq<int>, ops: seq<Op>)
    requires forall j :: 0 <= j < |ops| ==> WfOp(ops[j], |balances|)
    ensures Run(balances, ops, []).Some?
  {
  }

  /**
   The count of false answers is (threshold - 1) / amount in every completed run if and only if that
   number is zero or the number of calls on the account.
   */
  lemma CountIsExactIff(balances: seq<int>, ops: seq<Op>, x: nat, amount: int, threshold: int)
    requires Comparing(balances, ops, x, amount, threshold)
    ensures CountIsExact(balances, ops, x, amount, threshold)
       <==> (threshold - 1) / amount == 0 || CallsOn(ops, x) == (threshold - 1) / amount
  {
    hide Run, Sum, Each, CallsOn, OnlyCompares;
    var n, bound := CallsOn(ops, x), (threshold - 1) / amount;
    ReachesIff(n, amount, threshold);
    forall schedule | Run(balances, ops, schedule).Some? && Quiet(Run(balances, ops, schedule).value)
      ensures var noes := Sum(Each(Run(balances, ops, schedule).value.threads, x, SaidNo));
              0 <= noes <= bound && (n <= bound ==> noes == n)
    {
      NoesNotNegative(Run(balances, ops, schedule).value.threads, x);
      FewSayNo(balances, ops, schedule, x, amount, threshold);
      if n <= bound {
        AllSayNo(balances, ops, schedule, x, amount, threshold);
      }
    }
    var schedule: seq<nat>;
    if n > bound {
      schedule := NoneSaysNo(balances, ops, x, amount, threshold);
    } else {
      StartRuns(balances, ops);
      var rest := CanFinish(balances, ops, []);
      schedule := [] + rest;
    }
    assert Run(balances, ops, schedule).Some? && Quiet(Run(balances, ops, schedule).value);
  }
}
