/**
 The bank: one lock for the table of accounts and one for each account.  Every call is a thread
 with a program counter; taking or releasing a lock and reading or writing a balance are separate
 steps, and the threads interleave in any way.
 */
module Bank {
  import opened Wrappers

  datatype Op =
    | Deposit(account: nat, amount: int)
    | Withdraw(account: nat, amount: int)
    | Transfer(sender: nat, receiver: nat, amount: int, allowOverdraw: bool)
    | DepositAndCompare(account: nat, amount: int, threshold: int)
    | GetBalance(account: nat)

  /** Write(a, d) sets the balance to the value last read plus d. */
  datatype Instr =
    | LockBank
    | UnlockBank
    | LockAccount(a: nat)
    | UnlockAccount(a: nat)
    | Test(a: nat, amount: int, always: bool)
    | Read(a: nat)
    | Write(a: nat, d: int)
    | Compare(threshold: int)
    | Halt

  function DepositCode(a: nat, amount: int, pc: nat): Instr {
    match pc
    case 0 => LockBank
    case 1 => LockAccount(a)
    case 2 => UnlockBank
    case 3 => Read(a)
    case 4 => Write(a, amount)
    case 5 => UnlockAccount(a)
    case _ => Halt
  }

  function Code(op: Op, pc: nat): Instr {
    match op
    case Deposit(a, amount) => DepositCode(a, amount, pc)
    case Withdraw(a, amount) =>
      (match pc
       case 0 => LockBank
       case 1 => UnlockBank
       case 2 => LockAccount(a)
       case 3 => Test(a, amount, false)
       case 4 => Read(a)
       case 5 => Write(a, -amount)
       case 6 => UnlockAccount(a)
       case _ => Halt)
    case Transfer(s, r, amount, always) =>
      (match pc
       case 0 => LockBank
       case 1 => LockAccount(s)
       case 2 => LockAccount(r)
       case 3 => UnlockBank
       case 4 => Test(s, amount, always)
       case 5 => Read(s)
       case 6 => Write(s, -amount)
       case 7 => Read(r)
       case 8 => Write(r, amount)
       case 9 => UnlockAccount(s)
       case 10 => UnlockAccount(r)
       case _ => Halt)
    case DepositAndCompare(a, amount, threshold) =>
      (match pc
       case 6 => LockAccount(a)
       case 7 => Read(a)
       case 8 => UnlockAccount(a)
       case 9 => Compare(threshold)
       case _ => if pc < 6 then DepositCode(a, amount, pc) else Halt)
    case GetBalance(a) =>
      (match pc
       case 0 => LockAccount(a)
       case 1 => Read(a)
       case 2 => UnlockAccount(a)
       case _ => Halt)
  }

  function Length(op: Op): nat {
    match op
    case Deposit(_, _) => 6
    case Withdraw(_, _) => 7
    case Transfer(_, _, _, _) => 11
    case DepositAndCompare(_, _, _) => 10
    case GetBalance(_) => 3
  }

  /** Where a failed test goes on: at the release of the locks. */
  function Skip(op: Op): nat {
    if op.Transfer? then 9 else 6
  }

  datatype Thread = Thread(op: Op, pc: nat, reg: int, ok: bool)

  datatype State = State(balances: seq<int>, bank: Option<nat>, owners: seq<Option<nat>>, threads: seq<Thread>)

  function InstrOf(t: Thread): Instr {
    Code(t.op, t.pc)
  }

  function AccountsOf(op: Op): set<nat> {
    if op.Transfer? then {op.sender, op.receiver} else {op.account}
  }

  /** The accounts exist, and a transfer is between two of them. */
  predicate WfOp(op: Op, accounts: nat) {
    && (forall a :: a in AccountsOf(op) ==> a < accounts)
    && (op.Transfer? ==> op.sender != op.receiver)
  }

  predicate Wf(s: State) {
    && |s.owners| == |s.balances|
    && forall i :: 0 <= i < |s.threads| ==>
        WfOp(s.threads[i].op, |s.balances|) && s.threads[i].pc <= Length(s.threads[i].op)
  }

  function Start(balances: seq<int>, ops: seq<Op>): State {
    State(balances, None, seq(|balances|, _ => None),
        seq(|ops|, i requires 0 <= i < |ops| => Thread(ops[i], 0, 0, false)))
  }

  /** Thread i has not finished and does not wait for a lock. */
  predicate Enabled(s: State, i: nat)
    requires Wf(s)
  {
    && i < |s.threads|
    && match InstrOf(s.threads[i])
       case LockBank => s.bank.None?
       case LockAccount(a) => a < |s.owners| && s.owners[a].None?
       case Halt => false
       case _ => true
  }

  lemma InstrAccount(t: Thread, accounts: nat)
    requires WfOp(t.op, accounts)
    ensures var i := InstrOf(t);
            i.LockAccount? || i.UnlockAccount? || i.Test? || i.Read? || i.Write? ==>
                i.a in AccountsOf(t.op) && i.a < accounts
    ensures InstrOf(t).Halt? <==> t.pc >= Length(t.op)
    ensures InstrOf(t).Test? ==> t.pc < Skip(t.op) <= Length(t.op)
  {
  }

  function Next(s: State, i: nat): (s': State)
    requires Wf(s) && Enabled(s, i)
    ensures Wf(s') && |s'.balances| == |s.balances| && |s'.threads| == |s.threads|
    ensures forall j :: 0 <= j < |s.threads| && j != i ==> s'.threads[j] == s.threads[j]
    ensures s'.threads[i].op == s.threads[i].op && s.threads[i].pc < s'.threads[i].pc <= Length(s.threads[i].op)
  {
    var t := s.threads[i];
    InstrAccount(t, |s.balances|);
    var t' := t.(pc := t.pc + 1);
    match InstrOf(t)
    case LockBank => s.(bank := Some(i), threads := s.threads[i := t'])
    case UnlockBank => s.(bank := None, threads := s.threads[i := t'])
    case LockAccount(a) => s.(owners := s.owners[a := Some(i)], threads := s.threads[i := t'])
    case UnlockAccount(a) => s.(owners := s.owners[a := None], threads := s.threads[i := t'])
    case Test(a, amount, always) =>
      var ok := s.balances[a] >= amount || always;
      s.(threads := s.threads[i := t.(ok := ok, pc := if ok then t.pc + 1 else Skip(t.op))])
    case Read(a) => s.(threads := s.threads[i := t'.(reg := s.balances[a])])
    case Write(a, d) => s.(balances := s.balances[a := t.reg + d], threads := s.threads[i := t'])
    case Compare(threshold) => s.(threads := s.threads[i := t'.(ok := t.reg >= threshold)])
  }

  /** The bank after a schedule of steps, or None when one of them could not happen. */
  function Run(balances: seq<int>, ops: seq<Op>, schedule: seq<nat>): (s: Option<State>)
    requires forall i :: 0 <= i < |ops| ==> WfOp(ops[i], |balances|)
    ensures s.Some? ==> Wf(s.value) && |s.value.balances| == |balances| && |s.value.threads| == |ops|
    ensures s.Some? ==> forall i :: 0 <= i < |ops| ==> s.value.threads[i].op == ops[i]
  {
    if schedule == [] then Some(Start(balances, ops))
    else
      var before := Run(balances, ops, schedule[..|schedule| - 1]);
      var i := schedule[|schedule| - 1];
      if before.Some? && Enabled(before.value, i) then Some(Next(before.value, i)) else None
  }

  predicate Finished(t: Thread) {
    t.pc >= Length(t.op)
  }

  // ---------------------------------------------------------------- locks

  predicate HoldsBank(t: Thread) {
    match t.op
    case Deposit(_, _) => 1 <= t.pc <= 2
    case Withdraw(_, _) => t.pc == 1
    case Transfer(_, _, _, _) => 1 <= t.pc <= 3
    case DepositAndCompare(_, _, _) => 1 <= t.pc <= 2
    case GetBalance(_) => false
  }

  predicate HoldsAccount(t: Thread, a: nat) {
    match t.op
    case Deposit(x, _) => a == x && 2 <= t.pc <= 5
    case Withdraw(x, _) => a == x && 3 <= t.pc <= 6
    case Transfer(x, y, _, _) => (a == x && 2 <= t.pc <= 9) || (a == y && 3 <= t.pc <= 10)
    case DepositAndCompare(x, _, _) => a == x && (2 <= t.pc <= 5 || 7 <= t.pc <= 8)
    case GetBalance(x) => a == x && 1 <= t.pc <= 2
  }

  /** A lock's owner is the one thread whose program counter says it holds the lock. */
  ghost predicate Locked(s: State) {
    && Wf(s)
    && (forall i: nat :: s.bank == Some(i) <==> i < |s.threads| && HoldsBank(s.threads[i]))
    && (forall i: nat, a: nat :: a < |s.owners| ==>
         (s.owners[a] == Some(i) <==> i < |s.threads| && HoldsAccount(s.threads[i], a)))
  }

  /** What an instruction does to the locks its thread holds. */
  lemma InstrLocks(t: Thread, t': Thread)
    requires t'.op == t.op && !InstrOf(t).Halt?
    requires t'.pc == t.pc + 1 || (InstrOf(t).Test? && t'.pc == Skip(t.op))
    requires t.op.Transfer? ==> t.op.sender != t.op.receiver
    ensures HoldsBank(t') <==> InstrOf(t).LockBank? || (HoldsBank(t) && !InstrOf(t).UnlockBank?)
    ensures forall a: nat :: HoldsAccount(t', a) <==>
      InstrOf(t) == LockAccount(a) || (HoldsAccount(t, a) && InstrOf(t) != UnlockAccount(a))
    ensures InstrOf(t).UnlockBank? ==> HoldsBank(t)
    ensures InstrOf(t).UnlockAccount? ==> HoldsAccount(t, InstrOf(t).a)
  {
  }

  lemma LockedStep(s: State, i: nat)
    requires Locked(s) && Enabled(s, i)
    ensures Locked(Next(s, i))
  {
    hide HoldsBank, HoldsAccount, Code;
    var s' := Next(s, i);
    InstrAccount(s.threads[i], |s.balances|);
    InstrLocks(s.threads[i], s'.threads[i]);
    forall j: nat
      ensures s'.bank == Some(j) <==> j < |s'.threads| && HoldsBank(s'.threads[j])
    {
      assert s.bank == Some(j) <==> j < |s.threads| && HoldsBank(s.threads[j]);
    }
    forall j: nat, a: nat | a < |s'.owners|
      ensures s'.owners[a] == Some(j) <==> j < |s'.threads| && HoldsAccount(s'.threads[j], a)
    {
      assert s.owners[a] == Some(j) <==> j < |s.threads| && HoldsAccount(s.threads[j], a);
      assert s.owners[a] == Some(i) <==> HoldsAccount(s.threads[i], a);
    }
  }

  lemma {:induction false} LockedHolds(balances: seq<int>, ops: seq<Op>, schedule: seq<nat>)
    requires forall i :: 0 <= i < |ops| ==> WfOp(ops[i], |balances|)
    requires Run(balances, ops, schedule).Some?
    ensures Locked(Run(balances, ops, schedule).value)
  {
    if schedule != [] {
      hide Next, Locked;
      LockedHolds(balances, ops, schedule[..|schedule| - 1]);
      LockedStep(Run(balances, ops, schedule[..|schedule| - 1]).value, schedule[|schedule| - 1]);
    }
  }

  // ---------------------------------------------------------------- answers

  /** What a step does to its own thread. */
  lemma StepShape(s: State, i: nat)
    requires Wf(s) && Enabled(s, i)
    ensures i < |s.threads|
    ensures var t, s' := s.threads[i], Next(s, i);
            var t' := s'.threads[i];
            && !InstrOf(t).Halt?
            && (InstrOf(t).Test? || t'.pc == t.pc + 1)
            && (t'.reg == t.reg || InstrOf(t).Read?)
            && (InstrOf(t).Read? ==> InstrOf(t).a < |s'.balances| && t'.reg == s'.balances[InstrOf(t).a])
            && (InstrOf(t).Compare? ==> t'.ok == (t.reg >= InstrOf(t).threshold))
  {
    InstrAccount(s.threads[i], |s.balances|);
    hide Code;
  }

  /** The answer of a DepositAndCompare is the comparison of the balance it read. */
  ghost predicate Answered(t: Thread) {
    t.op.DepositAndCompare? && t.pc > 9 ==> (t.ok <==> t.reg >= t.op.threshold)
  }

  lemma InstrAnswered(t: Thread, t': Thread)
    requires t'.op == t.op && !InstrOf(t).Halt? && Answered(t)
    requires InstrOf(t).Test? || t'.pc == t.pc + 1
    requires t'.reg == t.reg || InstrOf(t).Read?
    requires InstrOf(t).Compare? ==> t'.ok == (t.reg >= InstrOf(t).threshold)
    ensures Answered(t')
  {
  }

  lemma {:induction false} AnsweredHolds(balances: seq<int>, ops: seq<Op>, schedule: seq<nat>)
    requires forall i :: 0 <= i < |ops| ==> WfOp(ops[i], |balances|)
    requires Run(balances, ops, schedule).Some?
    ensures forall i :: 0 <= i < |ops| ==> Answered(Run(balances, ops, schedule).value.threads[i])
  {
    if schedule != [] {
      hide Next, Answered, Code;
      var before, i := schedule[..|schedule| - 1], schedule[|schedule| - 1];
      AnsweredHolds(balances, ops, before);
      var s := Run(balances, ops, before).value;
      StepShape(s, i);
      InstrAnswered(s.threads[i], Next(s, i).threads[i]);
    }
  }

  // ---------------------------------------------------------------- deadlock freedom

  /** Only a transfer waits for an account while it holds another, and it then holds the bank. */
  lemma WaitsHolding(t: Thread, a: nat)
    requires HoldsAccount(t, a) && (InstrOf(t).LockBank? || InstrOf(t).LockAccount?)
    ensures HoldsBank(t) && t.op.Transfer? && t.pc == 2 && InstrOf(t) == LockAccount(t.op.receiver)
    ensures t.op.sender != t.op.receiver ==> !HoldsAccount(t, t.op.receiver)
  {
  }

  lemma HoldersUnfinished(t: Thread, a: nat)
    ensures HoldsBank(t) || HoldsAccount(t, a) ==> !InstrOf(t).Halt? && t.pc > 0
    ensures HoldsBank(t) ==> !InstrOf(t).LockBank?
  {
  }

  /** Thread i can step and has begun. */
  ghost predicate Underway(s: State, i: nat)
    requires Wf(s)
  {
    Enabled(s, i) && s.threads[i].pc > 0
  }

  /** The holder of an account can move, or the holder of the account it waits for can. */
  lemma HolderMoves(s: State, a: nat)
    requires Locked(s) && a < |s.owners| && s.owners[a].Some?
    ensures exists i: nat :: Underway(s, i)
  {
    hide HoldsBank, HoldsAccount, Code;
    var i := s.owners[a].value;
    var t := s.threads[i];
    HoldersUnfinished(t, a);
    InstrAccount(t, |s.balances|);
    if Enabled(s, i) {
      assert Underway(s, i);
    } else {
      WaitsHolding(t, a);
      var b := t.op.receiver;
      var j := s.owners[b].value;
      HoldersUnfinished(s.threads[j], b);
      InstrAccount(s.threads[j], |s.balances|);
      assert j != i && s.bank == Some(i);
      assert HoldsBank(s.threads[j]) ==> s.bank == Some(j);
      if Enabled(s, j) {
        assert Underway(s, j);
      } else {
        WaitsHolding(s.threads[j], b);
      }
    }
  }

  lemma SomeoneMoves(s: State, i: nat)
    requires Locked(s) && i < |s.threads| && !Finished(s.threads[i])
    ensures Enabled(s, i) || exists j: nat :: Underway(s, j)
  {
    hide HoldsBank, HoldsAccount, Code;
    InstrAccount(s.threads[i], |s.balances|);
    var instr := InstrOf(s.threads[i]);
    if instr.LockBank? && s.bank.Some? {
      var j := s.bank.value;
      HoldersUnfinished(s.threads[j], 0);
      InstrAccount(s.threads[j], |s.balances|);
      if Enabled(s, j) {
        assert Underway(s, j);
      } else {
        HolderMoves(s, InstrOf(s.threads[j]).a);
      }
    } else if instr.LockAccount? && s.owners[instr.a].Some? {
      HolderMoves(s, instr.a);
    } else {
      assert Enabled(s, i);
    }
  }

  /**
   In every state of every run, while a call is unfinished it can take a step, or another call that
   has begun can: a caller that makes several calls in turn is never kept waiting by calls to come.
   */
  lemma NoDeadlock(balances: seq<int>, ops: seq<Op>, schedule: seq<nat>, i: nat)
    requires forall i :: 0 <= i < |ops| ==> WfOp(ops[i], |balances|)
    requires Run(balances, ops, schedule).Some? && i < |ops| && !Finished(Run(balances, ops, schedule).value.threads[i])
    ensures var s := Run(balances, ops, schedule).value;
            Enabled(s, i) || exists j: nat :: Underway(s, j)
  {
    LockedHolds(balances, ops, schedule);
    SomeoneMoves(Run(balances, ops, schedule).value, i);
  }

  // ---------------------------------------------------------------- who waits for whom

  /** Under the bank lock a call only takes account locks; balances are read and written without it. */
  lemma BankLockIsBrief(t: Thread)
    requires HoldsBank(t)
    ensures InstrOf(t).LockAccount? || InstrOf(t).UnlockBank?
  {
  }

  lemma HoldsItsOwn(t: Thread, a: nat)
    requires HoldsAccount(t, a)
    ensures a in AccountsOf(t.op)
  {
  }

  /** Thread i waits for thread j, which is about to take or release a lock in the table, or uses the same account. */
  ghost predicate WaitsFor(s: State, i: nat, j: nat)
    requires Wf(s)
  {
    && i < |s.threads| && j < |s.threads| && i != j
    && match InstrOf(s.threads[i])
       case LockBank =>
         s.bank == Some(j) && (InstrOf(s.threads[j]).LockAccount? || InstrOf(s.threads[j]).UnlockBank?)
       case LockAccount(a) =>
         a < |s.owners| && s.owners[a] == Some(j)
         && a in AccountsOf(s.threads[i].op) && a in AccountsOf(s.threads[j].op)
       case _ => false
  }

  lemma NotTakenTwice(t: Thread, a: nat)
    requires InstrOf(t) == LockAccount(a) && (t.op.Transfer? ==> t.op.sender != t.op.receiver)
    ensures !HoldsAccount(t, a)
  {
  }

  lemma WaitsForBank(s: State, i: nat)
    requires Locked(s) && i < |s.threads| && InstrOf(s.threads[i]).LockBank? && s.bank.Some?
    ensures exists j: nat :: WaitsFor(s, i, j)
  {
    hide HoldsBank, HoldsAccount, Code;
    var j := s.bank.value;
    BankLockIsBrief(s.threads[j]);
    assert WaitsFor(s, i, j);
  }

  lemma WaitsForAccount(s: State, i: nat, a: nat)
    requires Locked(s) && i < |s.threads| && InstrOf(s.threads[i]) == LockAccount(a) && a < |s.owners|
             && s.owners[a].Some?
    ensures exists j: nat :: WaitsFor(s, i, j)
  {
    hide HoldsBank, HoldsAccount, Code;
    var j := s.owners[a].value;
    InstrAccount(s.threads[i], |s.balances|);
    assert HoldsAccount(s.threads[j], a);
    HoldsItsOwn(s.threads[j], a);
    NotTakenTwice(s.threads[i], a);
    assert WaitsFor(s, i, j);
  }

  /**
   In every state of every run, an unfinished call that cannot move waits for a call on one of its own
   accounts, or for one that is just locking its accounts: calls on other accounts never hold it up in
   their critical sections.
   */
  lemma WaitsOnlyForConflicts(balances: seq<int>, ops: seq<Op>, schedule: seq<nat>, i: nat)
    requires forall j :: 0 <= j < |ops| ==> WfOp(ops[j], |balances|)
    requires Run(balances, ops, schedule).Some? && i < |ops| && !Finished(Run(balances, ops, schedule).value.threads[i])
    ensures var s := Run(balances, ops, schedule).value;
            Enabled(s, i) || exists j: nat :: WaitsFor(s, i, j)
  {
    LockedHolds(balances, ops, schedule);
    var s := Run(balances, ops, schedule).value;
    hide Run, Locked, Code, WaitsFor;
    InstrAccount(s.threads[i], |s.balances|);
    if !Enabled(s, i) {
      match InstrOf(s.threads[i])
      case LockBank => WaitsForBank(s, i);
      case LockAccount(a) => WaitsForAccount(s, i, a);
    }
  }

  // ---------------------------------------------------------------- termination

  function Sum(s: seq<int>): int {
    if s == [] then 0 else Sum(s[..|s| - 1]) + s[|s| - 1]
  }

  lemma {:induction false} SumUpdate(s: seq<int>, i: nat, x: int)
    requires i < |s|
    ensures Sum(s[i := x]) == Sum(s) - s[i] + x
  {
    var last := |s| - 1;
    if i < last {
      SumUpdate(s[..last], i, x);
      assert s[i := x][..last] == s[..last][i := x];
    } else {
      assert s[i := x][..last] == s[..last];
    }
  }

  lemma {:induction false} SumBelow(s: seq<int>, t: seq<int>)
    requires |s| == |t| && forall i :: 0 <= i < |s| ==> s[i] <= t[i]
    ensures Sum(s) <= Sum(t)
  {
    if s != [] {
      SumBelow(s[..|s| - 1], t[..|t| - 1]);
    }
  }

  function Lengths(ops: seq<Op>): seq<int> {
    seq(|ops|, i requires 0 <= i < |ops| => Length(ops[i]))
  }

  function Counters(threads: seq<Thread>): seq<int> {
    seq(|threads|, i requires 0 <= i < |threads| => threads[i].pc)
  }

  lemma {:induction false} ZeroSum(n: nat)
    ensures Sum(seq(n, _ => 0)) == 0
  {
    if n > 0 {
      ZeroSum(n - 1);
      assert seq(n, _ => 0)[..n - 1] == seq(n - 1, _ => 0);
    }
  }

  /** No run is longer than its calls; with NoDeadlock, every run that is carried on finishes every call. */
  lemma {:induction false} RunsEnd(balances: seq<int>, ops: seq<Op>, schedule: seq<nat>)
    requires forall i :: 0 <= i < |ops| ==> WfOp(ops[i], |balances|)
    requires Run(balances, ops, schedule).Some?
    ensures |schedule| <= Sum(Counters(Run(balances, ops, schedule).value.threads)) <= Sum(Lengths(ops))
  {
    var threads := Run(balances, ops, schedule).value.threads;
    SumBelow(Counters(threads), Lengths(ops));
    if schedule == [] {
      SumBelow(seq(|ops|, _ => 0), Counters(threads));
      ZeroSum(|ops|);
    } else {
      hide Next;
      var before, i := Run(balances, ops, schedule[..|schedule| - 1]).value, schedule[|schedule| - 1];
      RunsEnd(balances, ops, schedule[..|schedule| - 1]);
      SumUpdate(Counters(before.threads), i, threads[i].pc);
      assert Counters(threads) == Counters(before.threads)[i := threads[i].pc];
    }
  }

  // ---------------------------------------------------------------- the ledger

  /** What a thread has written to an account so far. */
  function Written(t: Thread, a: nat): int {
    match t.op
    case Deposit(x, amount) => if a == x && t.pc > 4 then amount else 0
    case Withdraw(x, amount) => if a == x && t.ok && t.pc > 5 then -amount else 0
    case Transfer(x, y, amount, _) =>
      if a == x && t.ok && t.pc > 6 then -amount
      else if a == y && t.ok && t.pc > 8 then amount
      else 0
    case DepositAndCompare(x, amount, _) => if a == x && t.pc > 4 then amount else 0
    case GetBalance(_) => 0
  }

  function AllWritten(threads: seq<Thread>, a: nat): seq<int> {
    seq(|threads|, i requires 0 <= i < |threads| => Written(threads[i], a))
  }

  /** What a finished call means for an account, given what it answered. */
  function Net(op: Op, ok: bool, a: nat): int {
    match op
    case Deposit(x, amount) => if a == x then amount else 0
    case Withdraw(x, amount) => if a == x && ok then -amount else 0
    case Transfer(x, y, amount, _) => if !ok then 0 else (if a == y then amount else 0) - (if a == x then amount else 0)
    case DepositAndCompare(x, amount, _) => if a == x then amount else 0
    case GetBalance(_) => 0
  }

  function Nets(threads: seq<Thread>, a: nat): seq<int> {
    seq(|threads|, i requires 0 <= i < |threads| => Net(threads[i].op, threads[i].ok, a))
  }

  /** A thread about to write knows the balance, since it holds the account. */
  ghost predicate Current(s: State)
    requires Wf(s)
  {
    forall i :: 0 <= i < |s.threads| && InstrOf(s.threads[i]).Write? ==>
      InstrOf(s.threads[i]).a < |s.balances| && s.threads[i].reg == s.balances[InstrOf(s.threads[i]).a]
  }

  lemma InstrTouchesHeld(t: Thread)
    ensures InstrOf(t).Test? || InstrOf(t).Read? || InstrOf(t).Write? ==> HoldsAccount(t, InstrOf(t).a)
  {
  }

  /** A write comes right after the read of the same account. */
  lemma WriteFollowsRead(t: Thread, t': Thread)
    requires t'.op == t.op && InstrOf(t').Write?
    requires t'.pc == t.pc + 1 || (InstrOf(t).Test? && t'.pc == Skip(t.op))
    ensures InstrOf(t) == Read(InstrOf(t').a)
  {
  }

  lemma CurrentStep(s: State, i: nat)
    requires Locked(s) && Current(s) && Enabled(s, i)
    ensures Current(Next(s, i))
  {
    hide HoldsBank, HoldsAccount, Code;
    var s' := Next(s, i);
    InstrAccount(s.threads[i], |s.balances|);
    InstrTouchesHeld(s.threads[i]);
    if InstrOf(s'.threads[i]).Write? {
      WriteFollowsRead(s.threads[i], s'.threads[i]);
    }
    forall j: nat | j < |s.threads| && j != i && InstrOf(s.threads[j]).Write?
      ensures s'.balances[InstrOf(s.threads[j]).a] == s.balances[InstrOf(s.threads[j]).a]
    {
      var a := InstrOf(s.threads[j]).a;
      InstrTouchesHeld(s.threads[j]);
      assert s.owners[a] == Some(j) && (HoldsAccount(s.threads[i], a) ==> s.owners[a] == Some(i));
    }
  }

  ghost predicate Booked(s: State, balances: seq<int>) {
    |balances| == |s.balances| && forall a: nat :: a < |balances| ==>
        s.balances[a] == balances[a] + Sum(AllWritten(s.threads, a))
  }

  /** A step adds to what its thread has written exactly what it writes. */
  lemma InstrWritten(t: Thread, t': Thread, a: nat)
    requires t'.op == t.op && !InstrOf(t).Halt? && (t.op.Transfer? ==> t.op.sender != t.op.receiver)
    requires if InstrOf(t).Test? then t'.pc == (if t'.ok then t.pc + 1 else Skip(t.op)) else t'.pc == t.pc + 1
    requires t'.ok == t.ok || InstrOf(t).Test? || InstrOf(t).Compare?
    requires InstrOf(t).Write? && (t.op.Withdraw? || t.op.Transfer?) ==> t.ok
    ensures Written(t', a) == Written(t, a) + match InstrOf(t) case Write(x, d) => (if x == a then d else 0) case _ => 0
  {
  }

  /** A withdrawal or transfer gets to its writes only after its test succeeded. */
  ghost predicate Approved(t: Thread) {
    (t.op.Withdraw? && 4 <= t.pc <= 5 ==> t.ok) && (t.op.Transfer? && 5 <= t.pc <= 8 ==> t.ok)
  }

  lemma ApprovedStep(t: Thread, t': Thread)
    requires Approved(t) && t'.op == t.op
    requires if InstrOf(t).Test? then t'.pc == (if t'.ok then t.pc + 1 else Skip(t.op)) else t'.pc == t.pc + 1
    requires t'.ok == t.ok || InstrOf(t).Test? || InstrOf(t).Compare?
    ensures Approved(t')
    ensures InstrOf(t).Write? && (t.op.Withdraw? || t.op.Transfer?) ==> t.ok
  {
  }

  ghost predicate Ledger(s: State, balances: seq<int>) {
    && Locked(s) && Current(s) && Booked(s, balances)
    && forall i :: 0 <= i < |s.threads| ==> Approved(s.threads[i])
  }

  lemma BookedStep(s: State, i: nat, balances: seq<int>)
    requires Wf(s) && Ledger(s, balances) && Enabled(s, i)
    ensures Booked(Next(s, i), balances)
  {
    hide HoldsBank, HoldsAccount, Code, Locked, Written, Approved;
    var s' := Next(s, i);
    var t, t' := s.threads[i], s'.threads[i];
    InstrAccount(t, |s.balances|);
    ApprovedStep(t, t');
    forall a: nat | a < |balances|
      ensures s'.balances[a] == balances[a] + Sum(AllWritten(s'.threads, a))
    {
      InstrWritten(t, t', a);
      SumUpdate(AllWritten(s.threads, a), i, Written(t', a));
      assert AllWritten(s'.threads, a) == AllWritten(s.threads, a)[i := Written(t', a)];
    }
  }

  lemma LedgerStep(s: State, i: nat, balances: seq<int>)
    requires Wf(s) && Ledger(s, balances) && Enabled(s, i)
    ensures Ledger(Next(s, i), balances)
  {
    hide HoldsBank, HoldsAccount, Code, Locked, Approved, Current, Booked;
    LockedStep(s, i);
    CurrentStep(s, i);
    BookedStep(s, i, balances);
    ApprovedStep(s.threads[i], Next(s, i).threads[i]);
  }

  lemma {:induction false} LedgerHolds(balances: seq<int>, ops: seq<Op>, schedule: seq<nat>)
    requires forall i :: 0 <= i < |ops| ==> WfOp(ops[i], |balances|)
    requires Run(balances, ops, schedule).Some?
    ensures Ledger(Run(balances, ops, schedule).value, balances)
  {
    if schedule == [] {
      LockedHolds(balances, ops, []);
      hide Locked;
      forall a: nat | a < |balances|
        ensures Sum(AllWritten(Start(balances, ops).threads, a)) == 0
      {
        ZeroSum(|ops|);
        assert AllWritten(Start(balances, ops).threads, a) == seq(|ops|, _ => 0);
      }
    } else {
      hide Next, Ledger;
      LedgerHolds(balances, ops, schedule[..|schedule| - 1]);
      LedgerStep(Run(balances, ops, schedule[..|schedule| - 1]).value, schedule[|schedule| - 1], balances);
    }
  }

  ghost predicate Quiet(s: State) {
    forall i :: 0 <= i < |s.threads| ==> Finished(s.threads[i])
  }

  lemma AllIsWritten(t: Thread, a: nat)
    requires Finished(t) && (t.op.Transfer? ==> t.op.sender != t.op.receiver)
    ensures Written(t, a) == Net(t.op, t.ok, a)
  {
  }

  /** When every call has returned, each balance is what the calls say it is. */
  lemma LedgerAgrees(balances: seq<int>, ops: seq<Op>, schedule: seq<nat>, a: nat)
    requires forall i :: 0 <= i < |ops| ==> WfOp(ops[i], |balances|)
    requires Run(balances, ops, schedule).Some? && Quiet(Run(balances, ops, schedule).value) && a < |balances|
    ensures var s := Run(balances, ops, schedule).value;
            s.balances[a] == balances[a] + Sum(Nets(s.threads, a))
  {
    LedgerHolds(balances, ops, schedule);
    var s := Run(balances, ops, schedule).value;
    hide Run, Locked, Current, Approved, Written, Net;
    forall i | 0 <= i < |s.threads|
      ensures Written(s.threads[i], a) == Net(s.threads[i].op, s.threads[i].ok, a)
    {
      AllIsWritten(s.threads[i], a);
    }
    assert AllWritten(s.threads, a) == Nets(s.threads, a);
  }
}
