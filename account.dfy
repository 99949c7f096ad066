/**
  Account and PositiveAccount of collective_accounting/account.py.

  An account holds its current `balance` and its `diff` to the target state.
  In this file `change_balance` also lowers `diff`, so that a balance change
  retires an expectation. PositiveAccount is the same class with a guard on
  `change_balance`; here the subclass is the constant flag `nonNegative`.
*/
module Account {
  import opened Outcomes
  import opened Money

  class Account {
    var balance: Cents
    var diff: Cents
    /** true for a PositiveAccount */
    const nonNegative: bool

    /** Account(balance=0, diff=0), the dataclass defaults. */
    constructor Default()
      ensures balance == 0 && diff == 0 && !nonNegative
      ensures IsSettled()
    {
      balance, diff, nonNegative := 0, 0, false;
    }

    /** Account(balance, diff), or PositiveAccount(balance, diff) when nonNegative. */
    constructor (balance: Cents, diff: Cents, nonNegative: bool)
      ensures this.balance == balance && this.diff == diff && this.nonNegative == nonNegative
    {
      this.balance, this.diff, this.nonNegative := balance, diff, nonNegative;
    }

    predicate IsSettled()
      reads this
    {
      diff == 0
    }

    /** expect: raise the expectation by amount. Inherited, unguarded, by PositiveAccount. */
    method Expect(amount: Cents)
      modifies this
      ensures diff == old(diff) + amount && balance == old(balance)
      ensures IsSettled() <==> old(diff) == -amount
    {
      diff := diff + amount;
    }

    /**
      change_balance: move the balance by amount and retire as much of the
      expectation; a PositiveAccount refuses to go below zero and then
      changes nothing.
    */
    method ChangeBalance(amount: Cents) returns (res: Outcome)
      modifies this
      ensures res.Fail? <==> nonNegative && old(balance) + amount < 0
      ensures res.Fail? ==> res.error == NegativeBalance && balance == old(balance) && diff == old(diff)
      ensures res.Pass? ==> balance == old(balance) + amount && diff == old(diff) - amount
      ensures balance + diff == old(balance + diff)
      ensures nonNegative && old(balance) >= 0 ==> balance >= 0
    {
      if nonNegative && -amount > balance {
        return Fail(NegativeBalance);
      }
      balance := balance + amount;
      diff := diff - amount;
      res := Pass;
    }
  }
}
