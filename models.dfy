/**
  The first group model (collective_accounting/models.py): a list of
  accounts with a float credit each, and an expense shared equally among
  all of them. Credits are exact reals.
*/
module GroupModels {
  import opened Outcomes

  /** models.Account: a name and a credit that change_credit moves. */
  class Account {
    const name: string
    var credit: real

    /** Account(name): credit 0. */
    constructor (name: string)
      ensures this.name == name && credit == 0.0
    {
      this.name := name;
      credit := 0.0;
    }

    /** change_credit: the change is added to the credit. */
    method ChangeCredit(change: real)
      modifies this
      ensures credit == old(credit) + change
    {
      credit := credit + change;
    }
  }

  /** The names of the accounts, in list order. */
  function NamesOf(accounts: seq<Account>): (r: seq<string>)
    ensures |r| == |accounts| && forall i :: 0 <= i < |r| ==> r[i] == accounts[i].name
  {
    if accounts == [] then [] else [accounts[0].name] + NamesOf(accounts[1..])
  }

  /** The credits of the accounts, in list order. */
  function CreditsOf(accounts: seq<Account>): (r: seq<real>)
    reads accounts
    ensures |r| == |accounts| && forall i :: 0 <= i < |r| ==> r[i] == accounts[i].credit
  {
    if accounts == [] then [] else [accounts[0].credit] + CreditsOf(accounts[1..])
  }

  /** Index of the first name equal to `name`, or the length when there is none. */
  function FirstIndex(names: seq<string>, name: string): (i: nat)
    ensures i <= |names|
    ensures i < |names| ==> names[i] == name
    ensures forall j :: 0 <= j < i ==> names[j] != name
  {
    if names == [] then 0
    else if names[0] == name then 0
    else 1 + FirstIndex(names[1..], name)
  }

  /** The credits added up. */
  function CreditSum(credits: seq<real>): real
  {
    if credits == [] then 0.0 else credits[0] + CreditSum(credits[1..])
  }

  /** No name occurs twice. */
  predicate DistinctNames(names: seq<string>)
  {
    forall i, j :: 0 <= i < j < |names| ==> names[i] != names[j]
  }

  /**
    add_shared_expense on the credits: with n accounts, the first account
    named `name` gains value - value / n, every account named otherwise
    loses value / n, and any later account with that name is left alone.
    An empty group divides by zero and an unknown name fails, both before
    any credit changes.
  */
  function SharedExpense(names: seq<string>, credits: seq<real>, name: string, value: real): (r: Result<seq<real>>)
    requires |names| == |credits|
    ensures |names| == 0 ==> r == Err(DivisionByZero)
    ensures |names| > 0 && name !in names ==> r == Err(UnknownAccount(name))
    ensures r.Ok? <==> name in names
    ensures r.Ok? ==> |r.value| == |credits|
  {
    if |names| == 0 then Err(DivisionByZero)
    else
      var share := value / (|names| as real);
      var payer := FirstIndex(names, name);
      if payer == |names| then Err(UnknownAccount(name))
      else Ok(Debited(credits[payer := credits[payer] + (value - share)], names, name, share))
  }

  /** SharedExpense is the payer's credit followed by the debits of the others. */
  lemma SharedExpenseIs(names: seq<string>, credits: seq<real>, name: string, value: real,
                        payer: nat, share: real, credited: seq<real>, result: seq<real>)
    requires |names| == |credits| && payer == FirstIndex(names, name) < |names|
    requires share == value / (|names| as real)
    requires credited == credits[payer := credits[payer] + (value - share)]
    requires result == Debited(credited, names, name, share)
    ensures SharedExpense(names, credits, name, value) == Ok(result)
  {
  }

  /** A sequence that is x everywhere but at p, where it is y, sums to (n - 1) x + y. */
  lemma {:induction false} SumAllButOne(s: seq<real>, p: nat, x: real, y: real)
    requires p < |s| && s[p] == y
    requires forall i :: 0 <= i < |s| && i != p ==> s[i] == x
    ensures CreditSum(s) == (|s| - 1) as real * x + y
  {
    if p == 0 {
      SumConstant(s[1..], x);
    } else {
      SumAllButOne(s[1..], p - 1, x, y);
    }
  }

  lemma {:induction false} SumConstant(s: seq<real>, x: real)
    requires forall i :: 0 <= i < |s| ==> s[i] == x
    ensures CreditSum(s) == |s| as real * x
  {
    if s != [] {
      SumConstant(s[1..], x);
    }
  }

  /** Sums of sequences of the same length add up pointwise. */
  lemma {:induction false} SumPointwise(a: seq<real>, b: seq<real>, c: seq<real>)
    requires |a| == |b| == |c|
    requires forall i :: 0 <= i < |c| ==> c[i] == a[i] + b[i]
    ensures CreditSum(c) == CreditSum(a) + CreditSum(b)
  {
    if c != [] {
      SumPointwise(a[1..], b[1..], c[1..]);
    }
  }

  /** n shares of value / n make up value. */
  lemma ShareTimes(n: nat, value: real)
    requires n > 0
    ensures (n as real) * (value / (n as real)) == value
  {
  }

  /** Distributing a product over n - 1. */
  lemma Distribute(n: nat, x: real)
    ensures (n - 1) as real * x == (n as real) * x - x
  {
  }

  /** The entry of SharedExpense's result at index k. */
  lemma SharedExpenseAt(names: seq<string>, credits: seq<real>, name: string, value: real, k: nat)
    requires |names| == |credits| && k < |names| && name in names
    ensures var share := value / (|names| as real);
      var payer := FirstIndex(names, name);
      SharedExpense(names, credits, name, value).value[k] ==
        if k == payer then credits[k] + (value - share)
        else if names[k] != name then credits[k] - share
        else credits[k]
  {
  }

  /** One credit of value - share and n - 1 debits of share, where n shares make value, cancel out. */
  lemma DeltaSum(delta: seq<real>, payer: nat, value: real, share: real)
    requires payer < |delta| && share == value / (|delta| as real)
    requires delta[payer] == value - share
    requires forall i :: 0 <= i < |delta| && i != payer ==> delta[i] == -share
    ensures CreditSum(delta) == 0.0
  {
    SumAllButOne(delta, payer, -share, value - share);
    Distribute(|delta|, -share);
    ShareTimes(|delta|, value);
  }

  /** The credits with every account not named `name` debited the share. */
  function Debited(credits: seq<real>, names: seq<string>, name: string, share: real): (r: seq<real>)
    requires |names| == |credits|
    ensures |r| == |credits|
    ensures forall k :: 0 <= k < |r| ==> r[k] == if names[k] != name then credits[k] - share else credits[k]
  {
    seq(|credits|, k requires 0 <= k < |credits| => if names[k] != name then credits[k] - share else credits[k])
  }

  /**
    With distinct names, a shared expense moves credit between accounts
    without creating any: the credits sum to what they summed to before.
  */
  lemma SharedExpenseKeepsSum(names: seq<string>, credits: seq<real>, name: string, value: real)
    requires |names| == |credits| && DistinctNames(names)
    ensures var r := SharedExpense(names, credits, name, value);
      r.Ok? ==> CreditSum(r.value) == CreditSum(credits)
  {
    var r := SharedExpense(names, credits, name, value);
    if r.Ok? {
      var n := |names|;
      var share := value / (n as real);
      var payer := FirstIndex(names, name);
      var delta := seq(n, i requires 0 <= i < n => if i == payer then value - share else -share);
      forall i | 0 <= i < n
        ensures r.value[i] == credits[i] + delta[i]
      {
        SharedExpenseAt(names, credits, name, value, i);
        if i != payer {
          assert names[i] != names[payer];
        }
      }
      SumPointwise(credits, delta, r.value);
      DeltaSum(delta, payer, value, share);
    }
  }

  /** Three fresh accounts and an expense of 9 paid by the first: 6, -3 and -3. */
  lemma SharedCreditSample()
    ensures SharedExpense(["antoine", "baptiste", "renan"], [0.0, 0.0, 0.0], "antoine", 9.0) == Ok([6.0, -3.0, -3.0])
    ensures SharedExpense(["antoine", "baptiste", "renan"], [0.0, 0.0, 0.0], "finn", 9.0) == Err(UnknownAccount("finn"))
  {
    var names := ["antoine", "baptiste", "renan"];
    assert FirstIndex(names, "antoine") == 0;
    var r := Debited([6.0, 0.0, 0.0], names, "antoine", 3.0);
    assert r[0] == 6.0 && r[1] == -3.0 && r[2] == -3.0;
    assert r == [6.0, -3.0, -3.0];
    assert 9.0 / (|names| as real) == 3.0;
    assert [0.0, 0.0, 0.0][0 := 0.0 + (9.0 - 3.0)] == [6.0, 0.0, 0.0];
    SharedExpenseIs(names, [0.0, 0.0, 0.0], "antoine", 9.0, 0, 3.0, [6.0, 0.0, 0.0], r);
    assert "finn" !in names;
  }

  /** models.Group: the accounts, in the order they were added. */
  class Group {
    var accounts: seq<Account>

    /** No account object is listed twice, so changing one credit changes one entry. */
    ghost predicate Valid()
      reads this
    {
      forall i, j :: 0 <= i < j < |accounts| ==> accounts[i] != accounts[j]
    }

    /** An empty group. */
    constructor ()
      ensures Valid() && accounts == []
    {
      accounts := [];
    }

    function Names(): seq<string>
      reads this
    {
      NamesOf(accounts)
    }

    function Credits(): seq<real>
      reads this, accounts
    {
      CreditsOf(accounts)
    }

    /**
      as_dict: each name maps to a credit. Every listed name is a key, every
      key is listed, and a name listed more than once keeps the credit of
      its last account.
    */
    function AsDict(): (d: map<string, real>)
      reads this, accounts
      ensures forall i :: 0 <= i < |accounts| ==> accounts[i].name in d
      ensures forall k :: k in d ==> k in Names()
      ensures forall i :: 0 <= i < |accounts| && (forall j :: i < j < |accounts| ==> accounts[j].name != accounts[i].name) ==>
        d[accounts[i].name] == accounts[i].credit
    {
      DictOfEntries(accounts);
      DictOf(accounts)
    }

    /**
      get: the first account with that name, or KeyError when there is none.
    */
    function Get(name: string): (r: Result<Account>)
      reads this
      ensures r.Ok? <==> name in Names()
      ensures r.Err? ==> r.error == MissingKey(name)
      ensures r.Ok? ==> exists i :: 0 <= i < |accounts| && r.value == accounts[i] && r.value.name == name &&
                          forall j :: 0 <= j < i ==> accounts[j].name != name
    {
      var i := FirstIndex(Names(), name);
      if i == |accounts| then Err(MissingKey(name)) else Ok(accounts[i])
    }

    /**
      add_account: a new account with credit 0 is appended and returned;
      the name is not checked against the others.
    */
    method AddAccount(name: string) returns (account: Account)
      requires Valid()
      modifies this
      ensures Valid() && fresh(account)
      ensures account.name == name && account.credit == 0.0
      ensures accounts == old(accounts) + [account]
    {
      account := new Account(name);
      accounts := accounts + [account];
    }

    /**
      add_shared_expense: the credits change as SharedExpense says, or, when
      it fails, not at all.
    */
    method AddSharedExpense(name: string, value: real) returns (res: Outcome)
      requires Valid()
      modifies accounts
      ensures res == OutcomeOf(SharedExpense(old(Names()), old(Credits()), name, value))
      ensures res.Pass? ==> Credits() == SharedExpense(old(Names()), old(Credits()), name, value).value
      ensures res.Fail? ==> Credits() == old(Credits())
    {
      var names := Names();
      ghost var credits := Credits();
      ghost var spec := SharedExpense(names, credits, name, value);
      var n := |accounts|;
      if n == 0 {
        assert spec == Err(DivisionByZero);
        return Fail(DivisionByZero);
      }
      var share := value / (n as real);
      // the accounts named `name`, of which the first is credited
      var payer := 0;
      while payer < n && names[payer] != name
        invariant payer <= n
        invariant forall j :: 0 <= j < payer ==> names[j] != name
      {
        payer := payer + 1;
      }
      assert payer == FirstIndex(names, name) by {
        FirstIndexUnique(names, name, payer);
      }
      if payer == n {
        assert name !in names;
        assert spec == Err(UnknownAccount(name));
        return Fail(UnknownAccount(name));
      }
      ApplyExpense(names, name, value, payer, share);
      res := Pass;
    }

    /**
      The credit moves of a shared expense once the payer is found: the
      payer is credited first, then every account named otherwise is debited.
    */
    method ApplyExpense(names: seq<string>, name: string, value: real, payer: nat, share: real)
      requires Valid() && names == Names()
      requires payer == FirstIndex(names, name) < |names| && share == value / (|names| as real)
      modifies accounts
      ensures SharedExpense(names, old(Credits()), name, value) == Ok(Credits())
    {
      ghost var credits := Credits();
      ChangeCreditAt(payer, value - share);
      ghost var credited := Credits();
      assert credited == credits[payer := credits[payer] + (value - share)];
      DebitOthers(names, name, share);
      ghost var result := Credits();
      assert result == Debited(credited, names, name, share);
      SharedExpenseIs(names, credits, name, value, payer, share, credited, result);
    }

    /** change_credit on the k-th account: only the k-th credit moves. */
    method ChangeCreditAt(k: nat, change: real)
      requires Valid() && k < |accounts|
      modifies accounts[k]
      ensures Credits() == old(Credits())[k := old(Credits())[k] + change]
    {
      ghost var before := Credits();
      var accs := accounts;
      assert forall j :: 0 <= j < |accs| && j != k ==> accs[j] != accs[k];
      accs[k].ChangeCredit(change);
      CreditsAre(accs, before[k := before[k] + change]);
    }

    /** The loop over the accounts not named `name`: each is debited the share, in list order. */
    method DebitOthers(names: seq<string>, name: string, share: real)
      requires Valid() && names == Names()
      modifies accounts
      ensures Credits() == Debited(old(Credits()), names, name, share)
    {
      ghost var start := Credits();
      var accs := accounts;
      for i := 0 to |accs|
        invariant forall k :: 0 <= k < |accs| ==>
          accs[k].credit == if k < i && names[k] != name then start[k] - share else start[k]
      {
        if names[i] != name {
          DebitAt(accs, i, share, start, names, name);
        }
      }
      CreditsAre(accs, Debited(start, names, name, share));
    }
  }

  /** One step of the debit loop: the i-th account loses the share and no other credit moves. */
  method DebitAt(accs: seq<Account>, i: nat, share: real, ghost start: seq<real>, ghost names: seq<string>, ghost name: string)
    requires i < |accs| == |start| == |names| && names[i] != name
    requires forall k, j :: 0 <= k < j < |accs| ==> accs[k] != accs[j]
    requires forall k :: 0 <= k < |accs| ==>
      accs[k].credit == if k < i && names[k] != name then start[k] - share else start[k]
    modifies accs[i]
    ensures forall k :: 0 <= k < |accs| ==>
      accs[k].credit == if k < i + 1 && names[k] != name then start[k] - share else start[k]
  {
    accs[i].ChangeCredit(-share);
    assert forall k :: 0 <= k < |accs| && k != i ==> accs[k] != accs[i];
  }

  /** Accounts whose credits are d, entry by entry, have the credit sequence d. */
  lemma CreditsAre(accs: seq<Account>, d: seq<real>)
    requires |d| == |accs| && forall k :: 0 <= k < |accs| ==> accs[k].credit == d[k]
    ensures CreditsOf(accs) == d
  {
  }

  /** The name-to-credit map of a list of accounts, later accounts overriding earlier ones. */
  function DictOf(accounts: seq<Account>): map<string, real>
    reads accounts
  {
    if accounts == [] then map[]
    else
      var last := accounts[|accounts| - 1];
      DictOf(accounts[..|accounts| - 1])[last.name := last.credit]
  }

  /** Every listed name is a key of DictOf, and every key is listed. */
  lemma {:induction false} DictOfKeys(accounts: seq<Account>)
    ensures forall k :: k in DictOf(accounts) <==> k in NamesOf(accounts)
  {
    if accounts != [] {
      var init := accounts[..|accounts| - 1];
      DictOfKeys(init);
      assert NamesOf(accounts) == NamesOf(init) + [accounts[|accounts| - 1].name];
    }
  }

  /** A name maps to the credit of its last account. */
  lemma {:induction false} DictOfLatest(accounts: seq<Account>, i: nat)
    requires i < |accounts|
    requires forall j :: i < j < |accounts| ==> accounts[j].name != accounts[i].name
    ensures accounts[i].name in DictOf(accounts) && DictOf(accounts)[accounts[i].name] == accounts[i].credit
  {
    var last := |accounts| - 1;
    var init := accounts[..last];
    if i < last {
      assert accounts[last].name != accounts[i].name;
      DictOfLatest(init, i);
    }
  }

  /** DictOf has every listed name as a key, no other key, and the credit of a name's last account. */
  lemma DictOfEntries(accounts: seq<Account>)
    ensures forall i :: 0 <= i < |accounts| ==> accounts[i].name in DictOf(accounts)
    ensures forall k :: k in DictOf(accounts) ==> k in NamesOf(accounts)
    ensures forall i :: 0 <= i < |accounts| && (forall j :: i < j < |accounts| ==> accounts[j].name != accounts[i].name) ==>
      DictOf(accounts)[accounts[i].name] == accounts[i].credit
  {
    DictOfKeys(accounts);
    forall i | 0 <= i < |accounts| && (forall j :: i < j < |accounts| ==> accounts[j].name != accounts[i].name)
      ensures DictOf(accounts)[accounts[i].name] == accounts[i].credit
    {
      DictOfLatest(accounts, i);
    }
  }

  /** The first index is the only index that satisfies FirstIndex's contract. */
  lemma {:induction false} FirstIndexUnique(names: seq<string>, name: string, i: nat)
    requires i <= |names|
    requires i < |names| ==> names[i] == name
    requires forall j :: 0 <= j < i ==> names[j] != name
    ensures i == FirstIndex(names, name)
  {
    if names != [] && names[0] != name {
      FirstIndexUnique(names[1..], name, i - 1);
    }
  }
}
