/** The bank's methods as one caller sees them when no other call runs. */
module BankAlone {
  import B = Bank

  /** Every balance has changed by what the call means for it, and no account came or went. */
  ghost predicate Changed(before: map<nat, int>, after: map<nat, int>, op: B.Op, ok: bool) {
    after.Keys == before.Keys && forall a :: a in before ==> after[a] == before[a] + B.Net(op, ok, a)
  }

  class Bank {
    var accounts: map<nat, int>

    constructor ()
      ensures accounts == map[]
    {
      accounts := map[];
    }

    /** False when the account exists already, which the source answers with a panic. */
    method CreateAccount(accountID: nat) returns (created: bool)
      modifies this
      ensures created <==> accountID !in old(accounts)
      ensures accounts == if created then old(accounts)[accountID := 0] else old(accounts)
    {
      if accountID in accounts {
        return false;
      }
      accounts := accounts[accountID := 0];
      created := true;
    }

    method Deposit(accountID: nat, amount: int)
      requires accountID in accounts
      modifies this
      ensures Changed(old(accounts), accounts, B.Deposit(accountID, amount), true)
    {
      var newBalance := accounts[accountID] + amount;
      accounts := accounts[accountID := newBalance];
    }

    method Withdraw(accountID: nat, amount: int) returns (ok: bool)
      requires accountID in accounts
      modifies this
      ensures ok <==> old(accounts)[accountID] >= amount
      ensures Changed(old(accounts), accounts, B.Withdraw(accountID, amount), ok)
    {
      if accounts[accountID] >= amount {
        var newBalance := accounts[accountID] - amount;
        accounts := accounts[accountID := newBalance];
        ok := true;
      } else {
        ok := false;
      }
    }

    method Transfer(sender: nat, receiver: nat, amount: int, allowOverdraw: bool) returns (success: bool)
      requires sender in accounts && receiver in accounts && sender != receiver
      modifies this
      ensures success <==> old(accounts)[sender] >= amount || allowOverdraw
      ensures Changed(old(accounts), accounts, B.Transfer(sender, receiver, amount, allowOverdraw), success)
    {
      success := false;
      if accounts[sender] >= amount || allowOverdraw {
        accounts := accounts[sender := accounts[sender] - amount];
        accounts := accounts[receiver := accounts[receiver] + amount];
        success := true;
      }
    }

    method GetBalance(accountID: nat) returns (balance: int)
      requires accountID in accounts
      ensures balance == accounts[accountID]
    {
      balance := accounts[accountID];
    }

    method DepositAndCompare(accountID: nat, amount: int, compareThreshold: int) returns (compareResult: bool)
      requires accountID in accounts
      modifies this
      ensures compareResult <==> old(accounts)[accountID] + amount >= compareThreshold
      ensures Changed(old(accounts), accounts, B.DepositAndCompare(accountID, amount, compareThreshold), compareResult)
    {
      Deposit(accountID, amount);
      var balance := GetBalance(accountID);
      compareResult := balance >= compareThreshold;
    }
  }
}
