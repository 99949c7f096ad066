/**
  The draft `Accounts` map (collective_accounting/models_next.py): a
  dictionary from account name to Decimal balance that validates the names
  it accepts, changes one balance at a time and checks that the balances
  sum to zero. Balances are exact reals; the dictionary's insertion order is
  kept as the sequence of its names, which is the order `sum` visits them in.
*/
module NextModels {
  import Snapshots

  /** The Python exception class a call raises. */
  datatype Exception = TypeError | ValueError | RuntimeError

  /** A call either completes or raises. */
  datatype Status = Done | Raised(exception: Exception)

  /** An argument as Python sees it: a str, or an object of any other type. */
  datatype Arg = Str(text: string) | NotStr

  /** The balances of the listed names added up, in order; an unlisted name adds nothing. */
  function BalanceSum(names: seq<string>, balances: map<string, real>): real
  {
    if names == [] then 0.0
    else (if names[0] in balances then balances[names[0]] else 0.0) + BalanceSum(names[1..], balances)
  }

  /** Adding one name at the end adds its balance. */
  lemma {:induction false} BalanceSumSnoc(names: seq<string>, n: string, balances: map<string, real>)
    requires n in balances
    ensures BalanceSum(names + [n], balances) == BalanceSum(names, balances) + balances[n]
  {
    if names == [] {
      assert names + [n] == [n] && [n][1..] == [];
    } else {
      assert (names + [n])[1..] == names[1..] + [n];
      BalanceSumSnoc(names[1..], n, balances);
    }
  }

  /** Changing the balance of a name that is not listed does not change the sum. */
  lemma {:induction false} BalanceSumOther(names: seq<string>, n: string, v: real, balances: map<string, real>)
    requires n !in Snapshots.Names(names)
    ensures BalanceSum(names, balances[n := v]) == BalanceSum(names, balances)
  {
    if names != [] {
      BalanceSumOther(names[1..], n, v, balances);
    }
  }

  /**
    Adding an amount to the balance of a name listed once adds the amount
    to the sum: a change nets out exactly when the amounts it adds do.
  */
  lemma {:induction false} BalanceSumChange(names: seq<string>, n: string, amount: real, balances: map<string, real>)
    requires Snapshots.Distinct(names) && n in Snapshots.Names(names) && n in balances
    ensures BalanceSum(names, balances[n := balances[n] + amount]) == BalanceSum(names, balances) + amount
  {
    if names[0] == n {
      BalanceSumOther(names[1..], n, balances[n] + amount, balances);
    } else {
      BalanceSumChange(names[1..], n, amount, balances);
    }
  }

  /** models_next.Accounts: a Dict[str, Decimal] with validated insertion. */
  class Accounts {
    /** The keys, in insertion order. */
    var names: seq<string>
    var balances: map<string, real>

    /** The keys are listed once each, in the order they were inserted. */
    ghost predicate Valid()
      reads this
    {
      Snapshots.Distinct(names) && balances.Keys == Snapshots.Names(names)
    }

    /** sum(self.values()). */
    function Total(): real
      reads this
    {
      BalanceSum(names, balances)
    }

    /** An empty map. */
    constructor ()
      ensures Valid() && names == [] && balances == map[]
    {
      names, balances := [], map[];
    }

    /**
      add_account: a non-string name raises TypeError, an empty or existing
      name raises ValueError and nothing changes; otherwise the name is
      inserted last with a zero balance and every other entry is kept. The
      total is unchanged either way.
    */
    method AddAccount(name: Arg) returns (status: Status)
      requires Valid()
      modifies this
      ensures Valid() && Total() == old(Total())
      ensures name.NotStr? ==> status == Raised(TypeError)
      ensures name.Str? && (name.text == "" || name.text in old(balances)) ==> status == Raised(ValueError)
      ensures status.Done? <==> name.Str? && name.text != "" && name.text !in old(balances)
      ensures status.Done? ==> names == old(names) + [name.text] && balances == old(balances)[name.text := 0.0]
      ensures status.Raised? ==> names == old(names) && balances == old(balances)
    {
      if name.NotStr? {
        return Raised(TypeError);
      }
      var n := name.text;
      if n == "" {
        return Raised(ValueError);
      }
      if n in balances {
        return Raised(ValueError);
      }
      Snapshots.NamesSnoc(names, n);
      Snapshots.DistinctSnoc(names, n);
      BalanceSumOther(names, n, 0.0, balances);
      BalanceSumSnoc(names, n, balances[n := 0.0]);
      names, balances := names + [n], balances[n := 0.0];
      status := Done;
    }

    /**
      change_balance: the amount is added to that one balance and the total
      moves by the amount; an unknown name raises ValueError and inserts
      nothing.
    */
    method ChangeBalance(name: string, amount: real) returns (status: Status)
      requires Valid()
      modifies this
      ensures Valid() && names == old(names)
      ensures name !in old(balances) ==> status == Raised(ValueError) && balances == old(balances)
      ensures name in old(balances) ==> status == Done && balances == old(balances)[name := old(balances)[name] + amount]
      ensures Total() == old(Total()) + (if status.Done? then amount else 0.0)
    {
      if name !in balances {
        return Raised(ValueError);
      }
      BalanceSumChange(names, name, amount, balances);
      balances := balances[name := balances[name] + amount];
      status := Done;
    }

    /** check_balances: passes exactly when the balances sum to zero, else raises RuntimeError. */
    method CheckBalances() returns (status: Status)
      requires Valid()
      ensures status.Done? <==> Total() == 0.0
      ensures status.Raised? ==> status.exception == RuntimeError
    {
      var error := 0.0;
      for i := 0 to |names|
        invariant error == BalanceSum(names[..i], balances)
      {
        Snapshots.NamesIndex(names, i);
        BalanceSumSnoc(names[..i], names[i], balances);
        assert names[..i + 1] == names[..i] + [names[i]];
        error := error + balances[names[i]];
      }
      assert names[..|names|] == names;
      if error != 0.0 {
        return Raised(RuntimeError);
      }
      return Done;
    }
  }
}
