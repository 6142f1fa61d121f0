/**
 Fine-grained locking refines atomic calls: every interleaving has the balances and the answers of
 some order of calls made one at a time.
 */
module BankSerial {
  import opened Wrappers
  import opened Bank

  /** An atomic call with its answer.  DepositAndCompare is a Put and, later, a Reaches. */
  datatype Call =
    | Put(a: nat, amount: int)
    | Take(a: nat, amount: int, ok: bool)
    | Move(sender: nat, receiver: nat, amount: int, always: bool, ok: bool)
    | Look(a: nat, value: int)
    | Reaches(a: nat, threshold: int, ok: bool)

  /** The balances after an atomic call, or None when it would not have answered so. */
  function Atomic(b: seq<int>, call: Call): Option<seq<int>> {
    match call
    case Put(a, amount) => if a < |b| then Some(b[a := b[a] + amount]) else None
    case Take(a, amount, ok) =>
      if a < |b| && (ok <==> b[a] >= amount) then Some(if ok then b[a := b[a] - amount] else b) else None
    case Move(s, r, amount, always, ok) =>
      if s < |b| && r < |b| && s != r && (ok <==> b[s] >= amount || always)
      then Some(if ok then b[s := b[s] - amount][r := b[r] + amount] else b) else None
    case Look(a, value) => if a < |b| && value == b[a] then Some(b) else None
    case Reaches(a, threshold, ok) => if a < |b| && (ok <==> b[a] >= threshold) then Some(b) else None
  }

  function Serial(b: seq<int>, history: seq<(nat, Call)>): Option<seq<int>> {
    if history == [] then Some(b)
    else
      var before := Serial(b, history[..|history| - 1]);
      if before.Some? then Atomic(before.value, history[|history| - 1].1) else None
  }

  /** The call, if any, that a step of a thread from t to t' settles. */
  function Settles(t: Thread, t': Thread): Option<Call> {
    match t.op
    case Deposit(a, amount) => if t.pc == 4 then Some(Put(a, amount)) else None
    case Withdraw(a, amount) => if t.pc == 3 then Some(Take(a, amount, t'.ok)) else None
    case Transfer(s, r, amount, always) => if t.pc == 4 then Some(Move(s, r, amount, always, t'.ok)) else None
    case DepositAndCompare(a, amount, threshold) =>
      if t.pc == 4 then Some(Put(a, amount))
      else if t.pc == 7 then Some(Reaches(a, threshold, t'.reg >= threshold)) else None
    case GetBalance(a) => if t.pc == 1 then Some(Look(a, t'.reg)) else None
  }

  ghost function Entry(s: State, i: nat): seq<(nat, Call)>
    requires Wf(s) && Enabled(s, i)
  {
    var call := Settles(s.threads[i], Next(s, i).threads[i]);
    if call.Some? then [(i, call.value)] else []
  }

  /** The calls of a run in the order they are settled, each with its thread. */
  ghost function History(balances: seq<int>, ops: seq<Op>, schedule: seq<nat>): seq<(nat, Call)>
    requires forall i :: 0 <= i < |ops| ==> WfOp(ops[i], |balances|)
    requires Run(balances, ops, schedule).Some?
  {
    if schedule == [] then []
    else
      var before, i := schedule[..|schedule| - 1], schedule[|schedule| - 1];
      var s := Run(balances, ops, before).value;
      History(balances, ops, before) + Entry(s, i)
  }

  // ---------------------------------------------------------------- balances

  /** What a thread whose test has succeeded still has to write to an account. */
  function Owed(t: Thread, a: nat): int {
    match t.op
    case Withdraw(x, amount) => if a == x && t.ok && 4 <= t.pc <= 5 then -amount else 0
    case Transfer(x, y, amount, _) =>
      if a == x && t.ok && 5 <= t.pc <= 6 then -amount
      else if a == y && t.ok && 5 <= t.pc <= 8 then amount
      else 0
    case _ => 0
  }

  ghost function OwedTo(s: State, a: nat): int {
    if a < |s.owners| && s.owners[a].Some?
        && s.owners[a].value < |s.threads| then Owed(s.threads[s.owners[a].value], a) else 0
  }

  /** The balances as the settled calls leave them. */
  ghost function Abstract(s: State): seq<int> {
    seq(|s.balances|, a requires 0 <= a < |s.balances| => s.balances[a] + OwedTo(s, a))
  }

  lemma OwedIsHeld(t: Thread, a: nat)
    ensures Owed(t, a) != 0 ==> HoldsAccount(t, a)
  {
  }

  /** Only the thread that takes a step changes what is owed. */
  lemma OwedStep(s: State, i: nat, a: nat)
    requires Locked(s) && Enabled(s, i) && a < |s.owners|
    ensures OwedTo(Next(s, i), a) - OwedTo(s, a) == Owed(Next(s, i).threads[i], a) - Owed(s.threads[i], a)
  {
    hide Code, HoldsBank, HoldsAccount, Owed;
    LockedStep(s, i);
    var s' := Next(s, i);
    InstrAccount(s.threads[i], |s.balances|);
    InstrLocks(s.threads[i], s'.threads[i]);
    OwedIsHeld(s.threads[i], a);
    OwedIsHeld(s'.threads[i], a);
    assert s.owners[a] == Some(i) <==> HoldsAccount(s.threads[i], a);
    assert s'.owners[a] == Some(i) <==> HoldsAccount(s'.threads[i], a);
  }

  /** What a settled call does to an account. */
  function Effect(call: Option<Call>, a: nat): int {
    match call
    case None => 0
    case Some(Put(x, amount)) => if a == x then amount else 0
    case Some(Take(x, amount, ok)) => if ok && a == x then -amount else 0
    case Some(Move(x, y, amount, _, ok)) => if !ok then 0 else if a == x then -amount else if a == y then amount else 0
    case Some(Look(_, _)) => 0
    case Some(Reaches(_, _, _)) => 0
  }

  /** Writing and no longer owing cancel out, except where a call is settled. */
  lemma InstrEffect(t: Thread, t': Thread, a: nat)
    requires t'.op == t.op && !InstrOf(t).Halt? && (t.op.Transfer? ==> t.op.sender != t.op.receiver)
    requires if InstrOf(t).Test? then t'.pc == (if t'.ok then t.pc + 1 else Skip(t.op)) else t'.pc == t.pc + 1
    requires t'.ok == t.ok || InstrOf(t).Test? || InstrOf(t).Compare?
    requires InstrOf(t).Write? && (t.op.Withdraw? || t.op.Transfer?) ==> t.ok
    ensures Owed(t', a) - Owed(t, a) + (if InstrOf(t).Write? && InstrOf(t).a == a then InstrOf(t).d else 0)
            == Effect(Settles(t, t'), a)
  {
  }

  lemma AbstractStep(s: State, i: nat, balances: seq<int>, a: nat)
    requires Wf(s) && Ledger(s, balances) && Enabled(s, i) && a < |s.balances|
    ensures Abstract(Next(s, i))[a] == Abstract(s)[a] + Effect(Settles(s.threads[i], Next(s, i).threads[i]), a)
  {
    hide Code, HoldsBank, HoldsAccount, Owed, OwedTo, Booked, Approved, Effect, Settles;
    var s' := Next(s, i);
    InstrAccount(s.threads[i], |s.balances|);
    ApprovedStep(s.threads[i], s'.threads[i]);
    OwedStep(s, i, a);
    InstrEffect(s.threads[i], s'.threads[i], a);
  }

  /** Nothing is owed to an account that a thread is about to test or to look at. */
  lemma SeesAbstract(s: State, i: nat)
    requires Locked(s) && Enabled(s, i) && Settles(s.threads[i], Next(s, i).threads[i]).Some?
    ensures var instr := InstrOf(s.threads[i]);
            (instr.Test? || instr.Read?) && instr.a < |s.balances| ==> Abstract(s)[instr.a] == s.balances[instr.a]
  {
    hide HoldsBank, HoldsAccount;
    InstrTouchesHeld(s.threads[i]);
    InstrAccount(s.threads[i], |s.balances|);
    var instr := InstrOf(s.threads[i]);
    assert instr.Test? || instr.Read? ==> s.owners[instr.a] == Some(i);
  }

  lemma AbstractLength(s: State)
    ensures |Abstract(s)| == |s.balances|
  {
  }

  /** The answer of a settled call is the one it would give on the abstract balances. */
  lemma AnswerFits(s: State, i: nat)
    requires Wf(s) && Locked(s) && Enabled(s, i) && Settles(s.threads[i], Next(s, i).threads[i]).Some?
    ensures Atomic(Abstract(s), Settles(s.threads[i], Next(s, i).threads[i]).value).Some?
  {
    hide Locked, Abstract;
    SeesAbstract(s, i);
    AbstractLength(s);
    assert forall a :: a in AccountsOf(s.threads[i].op) ==> a < |s.balances|;
  }

  lemma AtomicEffect(b: seq<int>, call: Call, a: nat)
    requires Atomic(b, call).Some? && a < |b|
    ensures |Atomic(b, call).value| == |b| && Atomic(b, call).value[a] == b[a] + Effect(Some(call), a)
  {
  }

  lemma NoEffect(a: nat)
    ensures Effect(None, a) == 0
  {
  }

  lemma AtomicLength(b: seq<int>, call: Call)
    requires Atomic(b, call).Some?
    ensures |Atomic(b, call).value| == |b|
  {
  }

  lemma SerialStep(s: State, i: nat, balances: seq<int>)
    requires Wf(s) && Ledger(s, balances) && Enabled(s, i)
    ensures var call := Settles(s.threads[i], Next(s, i).threads[i]);
            if call.Some? then Atomic(Abstract(s), call.value) == Some(Abstract(Next(s, i)))
            else Abstract(Next(s, i)) == Abstract(s)
  {
    hide Next, Settles, Effect, Atomic, Current, Booked, Approved, OwedTo;
    var s' := Next(s, i);
    var call := Settles(s.threads[i], s'.threads[i]);
    if call.Some? {
      AnswerFits(s, i);
      AtomicLength(Abstract(s), call.value);
    }
    forall a: nat | a < |s.balances|
      ensures Abstract(s')[a] == if call.Some? then Atomic(Abstract(s), call.value).value[a] else Abstract(s)[a]
    {
      AbstractStep(s, i, balances, a);
      if call.Some? {
        AtomicEffect(Abstract(s), call.value, a);
      } else {
        NoEffect(a);
      }
    }
    if call.Some? {
      assert Atomic(Abstract(s), call.value).value == Abstract(s');
    } else {
      assert Abstract(s') == Abstract(s);
    }
  }

  /** In every state of every run, the settled calls made one at a time give the abstract balances. */
  lemma {:induction false} SerialHolds(balances: seq<int>, ops: seq<Op>, schedule: seq<nat>)
    requires forall i :: 0 <= i < |ops| ==> WfOp(ops[i], |balances|)
    requires Run(balances, ops, schedule).Some?
    ensures Serial(balances, History(balances, ops, schedule)) == Some(Abstract(Run(balances, ops, schedule).value))
  {
    if schedule == [] {
      assert Abstract(Start(balances, ops)) == balances;
    } else {
      hide Next, Ledger, Abstract, Atomic, Settles;
      var before, i := schedule[..|schedule| - 1], schedule[|schedule| - 1];
      SerialHolds(balances, ops, before);
      LedgerHolds(balances, ops, before);
      var s, history := Run(balances, ops, before).value, History(balances, ops, before);
      SerialStep(s, i, balances);
      assert (history + Entry(s, i))[..|history|] == history;
      assert Entry(s, i) == [] ==> history + Entry(s, i) == history;
    }
  }

  // ---------------------------------------------------------------- answers

  function CallsOf(history: seq<(nat, Call)>, i: nat): seq<Call> {
    if history == [] then []
    else
      var last := history[|history| - 1];
      CallsOf(history[..|history| - 1], i) + if last.0 == i then [last.1] else []
  }

  /** The calls a thread has settled, as its own program counter and results show them. */
  function Made(t: Thread): seq<Call> {
    match t.op
    case Deposit(a, amount) => if t.pc > 4 then [Put(a, amount)] else []
    case Withdraw(a, amount) => if t.pc > 3 then [Take(a, amount, t.ok)] else []
    case Transfer(s, r, amount, always) => if t.pc > 4 then [Move(s, r, amount, always, t.ok)] else []
    case DepositAndCompare(a, amount, threshold) =>
      if t.pc > 7 then [Put(a, amount), Reaches(a, threshold, t.reg >= threshold)]
      else if t.pc > 4 then [Put(a, amount)] else []
    case GetBalance(a) => if t.pc > 1 then [Look(a, t.reg)] else []
  }

  lemma MadeStep(t: Thread, t': Thread)
    requires t'.op == t.op && !InstrOf(t).Halt?
    requires if InstrOf(t).Test? then t'.pc == (if t'.ok then t.pc + 1 else Skip(t.op)) else t'.pc == t.pc + 1
    requires t'.ok == t.ok || InstrOf(t).Test? || InstrOf(t).Compare?
    requires t'.reg == t.reg || InstrOf(t).Read?
    ensures Made(t') == Made(t) + if Settles(t, t').Some? then [Settles(t, t').value] else []
  {
  }

  lemma CallsOfEntry(history: seq<(nat, Call)>, entry: seq<(nat, Call)>, i: nat)
    requires |entry| <= 1
    ensures CallsOf(history + entry, i) == CallsOf(history, i) + if |entry| == 1
            && entry[0].0 == i then [entry[0].1] else []
  {
    if entry == [] {
      assert history + entry == history;
    } else {
      assert (history + entry)[..|history|] == history;
    }
  }

  lemma MadeAfter(s: State, i: nat, j: nat, history: seq<(nat, Call)>)
    requires Wf(s) && Enabled(s, i) && j < |s.threads| && CallsOf(history, j) == Made(s.threads[j])
    ensures CallsOf(history + Entry(s, i), j) == Made(Next(s, i).threads[j])
  {
    CallsOfEntry(history, Entry(s, i), j);
    InstrAccount(s.threads[i], |s.balances|);
    hide Code, Made, Settles, CallsOf;
    if i == j {
      MadeStep(s.threads[i], Next(s, i).threads[i]);
    }
  }

  lemma {:induction false} MadeHolds(balances: seq<int>, ops: seq<Op>, schedule: seq<nat>, j: nat)
    requires forall i :: 0 <= i < |ops| ==> WfOp(ops[i], |balances|)
    requires Run(balances, ops, schedule).Some? && j < |ops|
    ensures CallsOf(History(balances, ops, schedule), j) == Made(Run(balances, ops, schedule).value.threads[j])
  {
    if schedule != [] {
      hide Next, Made, CallsOf, Entry;
      var before := schedule[..|schedule| - 1];
      MadeHolds(balances, ops, before, j);
      MadeAfter(Run(balances, ops, before).value, schedule[|schedule| - 1], j, History(balances, ops, before));
    }
  }

  /** What a call that has returned did, given its answer: `ok`, or `value` for GetBalance. */
  function Returned(op: Op, ok: bool, value: int): seq<Call> {
    match op
    case Deposit(a, amount) => [Put(a, amount)]
    case Withdraw(a, amount) => [Take(a, amount, ok)]
    case Transfer(s, r, amount, always) => [Move(s, r, amount, always, ok)]
    case DepositAndCompare(a, amount, threshold) => [Put(a, amount), Reaches(a, threshold, ok)]
    case GetBalance(a) => [Look(a, value)]
  }

  lemma AllMade(t: Thread)
    requires Finished(t) && Answered(t)
    ensures Made(t) == Returned(t.op, t.ok, t.reg)
  {
  }

  lemma QuietOwesNothing(s: State)
    requires Locked(s) && Quiet(s)
    ensures Abstract(s) == s.balances
  {
    forall a: nat | a < |s.balances|
      ensures OwedTo(s, a) == 0
    {
      if s.owners[a].Some? {
        HoldersUnfinished(s.threads[s.owners[a].value], a);
      }
    }
  }

  /**
   Serialisability: when every call has returned, the history contains each call once with the
   answer it gave, and making the calls of the history one at a time gives these answers and the
   final balances.
   */
  lemma Serialisable(balances: seq<int>, ops: seq<Op>, schedule: seq<nat>)
    requires forall i :: 0 <= i < |ops| ==> WfOp(ops[i], |balances|)
    requires Run(balances, ops, schedule).Some? && Quiet(Run(balances, ops, schedule).value)
    ensures var s, history := Run(balances, ops, schedule).value, History(balances, ops, schedule);
            && Serial(balances, history) == Some(s.balances)
            && forall i: nat :: i < |ops| ==> CallsOf(history, i) == Returned(ops[i], s.threads[i].ok, s.threads[i].reg)
  {
    SerialHolds(balances, ops, schedule);
    LockedHolds(balances, ops, schedule);
    AnsweredHolds(balances, ops, schedule);
    var s := Run(balances, ops, schedule).value;
    forall i: nat | i < |ops|
      ensures CallsOf(History(balances, ops, schedule), i) == Returned(ops[i], s.threads[i].ok, s.threads[i].reg)
    {
      MadeHolds(balances, ops, schedule, i);
      AllMade(s.threads[i]);
    }
    hide Run, History, Serial;
    QuietOwesNothing(s);
  }

  // ---------------------------------------------------------------- the order of calls that do not overlap

  lemma {:induction false} CallsOfBoth(history: seq<(nat, Call)>, more: seq<(nat, Call)>, i: nat)
    ensures CallsOf(history + more, i) == CallsOf(history, i) + CallsOf(more, i)
  {
    if more == [] {
      assert history + more == history;
    } else {
      var last := |more| - 1;
      CallsOfBoth(history, more[..last], i);
      assert (history + more)[..|history| + last] == history + more[..last];
    }
  }

  lemma {:induction false} NoCallsOf(history: seq<(nat, Call)>, i: nat)
    requires CallsOf(history, i) == []
    ensures forall p :: 0 <= p < |history| ==> history[p].0 != i
  {
    if history != [] {
      NoCallsOf(history[..|history| - 1], i);
    }
  }

  /** A run extends the history of its beginning, and a call that has returned does nothing more. */
  lemma {:induction false} HistoryExtends(balances: seq<int>, ops: seq<Op>, schedule: seq<nat>, k: nat)
    requires forall i :: 0 <= i < |ops| ==> WfOp(ops[i], |balances|)
    requires Run(balances, ops, schedule).Some? && k <= |schedule|
    ensures Run(balances, ops, schedule[..k]).Some?
    ensures History(balances, ops, schedule[..k]) <= History(balances, ops, schedule)
    ensures var s, s' := Run(balances, ops, schedule[..k]).value, Run(balances, ops, schedule).value;
            forall i :: 0 <= i < |ops| && Finished(s.threads[i]) ==> s'.threads[i] == s.threads[i]
  {
    if k == |schedule| {
      assert schedule[..k] == schedule;
    } else {
      hide Next, Entry;
      var before, i := schedule[..|schedule| - 1], schedule[|schedule| - 1];
      HistoryExtends(balances, ops, before, k);
      assert before[..k] == schedule[..k];
      StepShape(Run(balances, ops, before).value, i);
      InstrAccount(Run(balances, ops, before).value.threads[i], |balances|);
    }
  }

  /** When call i has returned before call j begins, everything of i comes before everything of j in the history. */
  lemma HistoryInOrder(balances: seq<int>, ops: seq<Op>, schedule: seq<nat>, k: nat, i: nat, j: nat, p: nat, q: nat)
    requires forall i :: 0 <= i < |ops| ==> WfOp(ops[i], |balances|)
    requires Run(balances, ops, schedule).Some? && k <= |schedule| && i < |ops| && j < |ops|
    requires Run(balances, ops, schedule[..k]).Some?
    requires Finished(Run(balances, ops, schedule[..k]).value.threads[i])
    requires Run(balances, ops, schedule[..k]).value.threads[j].pc == 0
    requires p < |History(balances, ops, schedule)| && History(balances, ops, schedule)[p].0 == i
    requires q < |History(balances, ops, schedule)| && History(balances, ops, schedule)[q].0 == j
    ensures p < q
  {
    hide Run, History, CallsOf;
    HistoryExtends(balances, ops, schedule, k);
    var early, whole := History(balances, ops, schedule[..k]), History(balances, ops, schedule);
    var late := whole[|early|..];
    assert whole == early + late;
    assert p >= |early| ==> whole[p] == late[p - |early|];
    MadeHolds(balances, ops, schedule[..k], i);
    MadeHolds(balances, ops, schedule, i);
    MadeHolds(balances, ops, schedule[..k], j);
    CallsOfBoth(early, late, i);
    NoCallsOf(late, i);
    NoCallsOf(early, j);
  }
}
