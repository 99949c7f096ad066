/**
  LedgerState: the ordered map from account name to account that every
  operation transforms. Its source file is not part of this model; its
  primitives are the ones the operations call (add_account, remove_account,
  add_pot / has_pot, change_balance, change_diff, create_debt,
  internal_transfer, check_equilibrium, len) with the behaviour the
  operation tests pin down.

  `Snapshot` is the value of a state (what a ledger record keeps); each
  primitive is a function on snapshots. `LedgerState` is the mutable state
  that `apply_to` works on, and each of its methods is proved to do what
  the primitive of the same name specifies.
*/
module Snapshots {
  import opened Outcomes
  import opened Money

  type Name = string

  /** The reserved name of the common pot. */
  const POT: Name := "POT"

  /**
    An account: its balance and its diff to the target state. The account
    stored under POT is the PositiveAccount; every other one is a plain
    Account.
  */
  datatype Entry = Entry(balance: Cents, diff: Cents)

  const Fresh := Entry(0, 0)

  /** The set of the names listed. */
  function Names(s: seq<Name>): set<Name>
  {
    if s == [] then {} else {s[0]} + Names(s[1..])
  }

  /** No name occurs twice. */
  predicate Distinct(s: seq<Name>)
  {
    s == [] || (s[0] !in Names(s[1..]) && Distinct(s[1..]))
  }

  /** The value of a LedgerState: account names in insertion order, and their accounts. */
  datatype Snapshot = Snapshot(names: seq<Name>, accounts: map<Name, Entry>) {
    /** Names are unique and are exactly the keys of the map. */
    ghost predicate Valid()
    {
      Distinct(names) && accounts.Keys == Names(names)
    }

    predicate HasPot()
    {
      POT in accounts
    }
  }

  const Empty := Snapshot([], map[])

  function DiffAt(accounts: map<Name, Entry>, n: Name): Cents
  {
    if n in accounts then accounts[n].diff else 0
  }

  function DiffOf(s: Snapshot, n: Name): Cents { DiffAt(s.accounts, n) }

  function BalanceOf(s: Snapshot, n: Name): Cents
  {
    if n in s.accounts then s.accounts[n].balance else 0
  }

  /** Sum of the diffs of the listed accounts. */
  function DiffSum(names: seq<Name>, accounts: map<Name, Entry>): Cents
  {
    if names == [] then 0 else DiffAt(accounts, names[0]) + DiffSum(names[1..], accounts)
  }

  /** Sum of the diffs of all accounts; zero is equilibrium. */
  function TotalDiff(s: Snapshot): Cents { DiffSum(s.names, s.accounts) }

  /** Every listed name is in the set of names. */
  lemma {:induction false} NamesIndex(s: seq<Name>, i: int)
    requires 0 <= i < |s|
    ensures s[i] in Names(s)
  {
    if i > 0 {
      NamesIndex(s[1..], i - 1);
    }
  }

  /** Names(s) holds exactly the elements of s. */
  lemma {:induction false} NamesOf(s: seq<Name>)
    ensures forall m :: m in Names(s) <==> m in s
  {
    if s != [] {
      NamesOf(s[1..]);
      assert forall m :: m in s <==> m == s[0] || m in s[1..];
    }
  }

  lemma {:induction false} NamesSnoc(s: seq<Name>, x: Name)
    ensures Names(s + [x]) == Names(s) + {x}
  {
    if s == [] {
      assert s + [x] == [x] && [x][1..] == [];
    } else {
      assert (s + [x])[1..] == s[1..] + [x];
      NamesSnoc(s[1..], x);
    }
  }

  lemma {:induction false} DistinctSnoc(s: seq<Name>, x: Name)
    requires Distinct(s) && x !in Names(s)
    ensures Distinct(s + [x])
  {
    if s == [] {
      assert s + [x] == [x] && [x][1..] == [];
    } else {
      assert (s + [x])[1..] == s[1..] + [x];
      NamesSnoc(s[1..], x);
      DistinctSnoc(s[1..], x);
    }
  }

  /** The names of s without n, order kept. */
  function Without(s: seq<Name>, n: Name): (r: seq<Name>)
    ensures Names(r) == Names(s) - {n}
    ensures Distinct(s) ==> Distinct(r)
    ensures Distinct(s) && n in Names(s) ==> |r| == |s| - 1
    ensures n !in Names(s) ==> r == s
  {
    if s == [] then []
    else
      var rest := Without(s[1..], n);
      if s[0] == n then rest
      else
        assert ([s[0]] + rest)[1..] == rest;
        [s[0]] + rest
  }

  /** The accounts other than the pot, in insertion order: creditors or debitors None. */
  function Users(s: Snapshot): seq<Name>
  {
    Without(s.names, POT)
  }

  ghost predicate SameBalances(a: Snapshot, b: Snapshot)
  {
    forall m :: BalanceOf(a, m) == BalanceOf(b, m)
  }

  ghost predicate SameDiffs(a: Snapshot, b: Snapshot)
  {
    forall m :: DiffOf(a, m) == DiffOf(b, m)
  }

  // ---------------------------------------------------------------- sums

  lemma {:induction false} DiffSumUpdate(names: seq<Name>, accounts: map<Name, Entry>, n: Name, e: Entry)
    requires Distinct(names)
    ensures DiffSum(names, accounts[n := e])
         == DiffSum(names, accounts) + (if n in Names(names) then e.diff - DiffAt(accounts, n) else 0)
  {
    if names != [] {
      DiffSumUpdate(names[1..], accounts, n, e);
    }
  }

  lemma {:induction false} DiffSumWithout(names: seq<Name>, accounts: map<Name, Entry>, n: Name)
    requires Distinct(names)
    ensures DiffSum(Without(names, n), accounts - {n})
         == DiffSum(names, accounts) - (if n in Names(names) then DiffAt(accounts, n) else 0)
  {
    if names != [] {
      DiffSumWithout(names[1..], accounts, n);
      if names[0] != n {
        var r := Without(names, n);
        assert r == [names[0]] + Without(names[1..], n);
        assert r[1..] == Without(names[1..], n);
      }
    }
  }

  lemma {:induction false} DiffSumAppend(names: seq<Name>, n: Name, accounts: map<Name, Entry>)
    ensures DiffSum(names + [n], accounts) == DiffSum(names, accounts) + DiffAt(accounts, n)
  {
    if names == [] {
      assert names + [n] == [n];
    } else {
      assert (names + [n])[1..] == names[1..] + [n];
      DiffSumAppend(names[1..], n, accounts);
    }
  }

  /** Adding an account with a zero diff keeps the total diff. */
  lemma AddEntryTotal(s: Snapshot, n: Name, e: Entry)
    requires s.Valid() && n !in s.accounts && e.diff == 0
    ensures TotalDiff(Snapshot(s.names + [n], s.accounts[n := e])) == TotalDiff(s)
  {
    DiffSumAppend(s.names, n, s.accounts[n := e]);
    DiffSumUpdate(s.names, s.accounts, n, e);
  }

  // ---------------------------------------------------------------- primitives

  /** add_account: a fresh account (balance 0, diff 0) appended in insertion order. */
  function AddAccount(s: Snapshot, name: Name): (r: Result<Snapshot>)
    requires s.Valid()
    ensures r.Ok? <==> name != "" && name !in s.accounts
    ensures r.Err? ==> r.error == if name == "" then InvalidName else DuplicateAccount(name)
    ensures r.Ok? ==> r.value.Valid() && r.value.names == s.names + [name]
    ensures r.Ok? ==> name in r.value.accounts && r.value.accounts[name] == Fresh
    ensures r.Ok? ==> TotalDiff(r.value) == TotalDiff(s)
  {
    if name == "" then Err(InvalidName)
    else if name in s.accounts then Err(DuplicateAccount(name))
    else
      AddEntryTotal(s, name, Fresh);
      DistinctSnoc(s.names, name);
      NamesSnoc(s.names, name);
      Ok(Snapshot(s.names + [name], s.accounts[name := Fresh]))
  }

  /** add_account leaves every existing account as it was. */
  lemma AddAccountKeeps(s: Snapshot, name: Name)
    requires s.Valid()
    ensures var r := AddAccount(s, name);
      r.Ok? ==> forall m :: m in s.accounts ==> m in r.value.accounts && r.value.accounts[m] == s.accounts[m]
  {
  }

  /** remove_account: only a settled account can go; the others keep their order. */
  function RemoveAccount(s: Snapshot, name: Name): (r: Result<Snapshot>)
    requires s.Valid()
    ensures r.Ok? <==> name in s.accounts && s.accounts[name].diff == 0
    ensures r.Err? ==> r.error == if name !in s.accounts then UnknownAccount(name) else NotSettled(name)
    ensures r.Ok? ==> r.value.Valid() && r.value.names == Without(s.names, name)
    ensures r.Ok? ==> name !in r.value.accounts
    ensures r.Ok? ==> TotalDiff(r.value) == TotalDiff(s)
  {
    if name !in s.accounts then Err(UnknownAccount(name))
    else if s.accounts[name].diff != 0 then Err(NotSettled(name))
    else
      DiffSumWithout(s.names, s.accounts, name);
      Ok(Snapshot(Without(s.names, name), s.accounts - {name}))
  }

  /** remove_account leaves every other account as it was. */
  lemma RemoveAccountKeeps(s: Snapshot, name: Name)
    requires s.Valid()
    ensures var r := RemoveAccount(s, name);
      r.Ok? ==> forall m :: m != name && m in s.accounts ==> m in r.value.accounts && r.value.accounts[m] == s.accounts[m]
  {
  }

  /** add_pot: the pot, a PositiveAccount, appended under the reserved name. */
  function AddPot(s: Snapshot): (r: Result<Snapshot>)
    requires s.Valid()
    ensures r.Ok? <==> !s.HasPot()
    ensures r.Err? ==> r.error == PotAlreadyExists
    ensures r.Ok? ==> r.value.Valid() && r.value.HasPot() && r.value.names == s.names + [POT]
    ensures r.Ok? ==> r.value.accounts[POT] == Entry(0, 0)
    ensures r.Ok? ==> TotalDiff(r.value) == TotalDiff(s)
  {
    if s.HasPot() then Err(PotAlreadyExists)
    else
      AddEntryTotal(s, POT, Entry(0, 0));
      DistinctSnoc(s.names, POT);
      NamesSnoc(s.names, POT);
      Ok(Snapshot(s.names + [POT], s.accounts[POT := Entry(0, 0)]))
  }

  /** add_pot leaves every existing account as it was. */
  lemma AddPotKeeps(s: Snapshot)
    requires s.Valid()
    ensures var r := AddPot(s);
      r.Ok? ==> forall m :: m in s.accounts ==> m in r.value.accounts && r.value.accounts[m] == s.accounts[m]
  {
  }

  /**
    change_balance(name, amount): moves the balance of that one account and
    nothing else; the pot may not go below zero.
  */
  function ChangeBalance(s: Snapshot, name: Name, amount: Cents): (r: Result<Snapshot>)
    requires s.Valid()
    ensures r.Ok? <==> name in s.accounts && (name == POT ==> s.accounts[name].balance + amount >= 0)
    ensures r.Err? ==> r.error == if name !in s.accounts then UnknownAccount(name) else NegativeBalance
    ensures r.Ok? ==> r.value.Valid() && r.value.names == s.names && TotalDiff(r.value) == TotalDiff(s)
    ensures r.Ok? ==> BalanceOf(r.value, name) == BalanceOf(s, name) + amount
  {
    if name !in s.accounts then Err(UnknownAccount(name))
    else
      var e := s.accounts[name];
      if name == POT && -amount > e.balance then Err(NegativeBalance)
      else
        var e' := e.(balance := e.balance + amount);
        DiffSumUpdate(s.names, s.accounts, name, e');
        Ok(Snapshot(s.names, s.accounts[name := e']))
  }

  /** change_balance touches no diff and no other balance, and adds or removes no account. */
  lemma ChangeBalanceEffect(s: Snapshot, name: Name, amount: Cents)
    requires s.Valid()
    ensures var r := ChangeBalance(s, name, amount);
      r.Ok? ==> SameDiffs(s, r.value) &&
                forall m :: BalanceOf(r.value, m) == BalanceOf(s, m) + (if m == name then amount else 0)
  {
  }

  /** change_diff(name, amount): raises the expectation of that one account. */
  function ChangeDiff(s: Snapshot, name: Name, amount: Cents): (r: Result<Snapshot>)
    requires s.Valid()
    ensures r.Ok? <==> name in s.accounts
    ensures r.Err? ==> r.error == UnknownAccount(name)
    ensures r.Ok? ==> r.value.Valid() && r.value.names == s.names && TotalDiff(r.value) == TotalDiff(s) + amount
    ensures r.Ok? ==> DiffOf(r.value, name) == DiffOf(s, name) + amount
  {
    if name !in s.accounts then Err(UnknownAccount(name))
    else
      var e := s.accounts[name];
      var e' := e.(diff := e.diff + amount);
      DiffSumUpdate(s.names, s.accounts, name, e');
      Ok(Snapshot(s.names, s.accounts[name := e']))
  }

  /** change_diff touches no balance and no other diff, and adds or removes no account. */
  lemma ChangeDiffEffect(s: Snapshot, name: Name, amount: Cents)
    requires s.Valid()
    ensures var r := ChangeDiff(s, name, amount);
      r.Ok? ==> SameBalances(s, r.value) &&
                forall m :: DiffOf(r.value, m) == DiffOf(s, m) + (if m == name then amount else 0)
  {
  }

  /** What the listed accounts receive in total for account m, amounts[i] going to who[i]. */
  function Credited(who: seq<Name>, amounts: seq<Cents>, m: Name): Cents
    requires |who| == |amounts|
  {
    if who == [] then 0
    else (if who[0] == m then amounts[0] else 0) + Credited(who[1..], amounts[1..], m)
  }

  /** Adds amounts[i] to the diff of who[i], in order; fails at the first unknown name. */
  function AddToDiffs(s: Snapshot, who: seq<Name>, amounts: seq<Cents>): (r: Result<Snapshot>)
    requires s.Valid() && |who| == |amounts|
    ensures r.Ok? ==> r.value.Valid() && r.value.names == s.names && TotalDiff(r.value) == TotalDiff(s) + Sum(amounts)
    decreases |who|
  {
    if who == [] then Ok(s)
    else
      match ChangeDiff(s, who[0], amounts[0])
      case Err(e) => Err(e)
      case Ok(s1) => AddToDiffs(s1, who[1..], amounts[1..])
  }

  /**
    add_to_diffs succeeds exactly when every listed name is an account; then
    each account's diff rises by what it is credited, and nothing else moves.
  */
  lemma {:induction false} AddToDiffsEffect(s: Snapshot, who: seq<Name>, amounts: seq<Cents>)
    requires s.Valid() && |who| == |amounts|
    ensures var r := AddToDiffs(s, who, amounts);
      (r.Ok? <==> forall i :: 0 <= i < |who| ==> who[i] in s.accounts) &&
      (r.Ok? ==> SameBalances(s, r.value) &&
                 forall m :: DiffOf(r.value, m) == DiffOf(s, m) + Credited(who, amounts, m))
    decreases |who|
  {
    if who != [] {
      ChangeDiffEffect(s, who[0], amounts[0]);
      var r1 := ChangeDiff(s, who[0], amounts[0]);
      if r1.Ok? {
        AddToDiffsEffect(r1.value, who[1..], amounts[1..]);
        assert forall i :: 1 <= i < |who| ==> who[i] == who[1..][i - 1];
      }
    }
  }

  /** The accounts a create_debt side names: None stands for every user, in insertion order. */
  function Resolve(s: Snapshot, who: Option<seq<Name>>): seq<Name>
  {
    match who
    case None => Users(s)
    case Some(names) => names
  }

  datatype Option<T> = None | Some(value: T)

  function Negated(s: seq<Cents>): (r: seq<Cents>)
    ensures |r| == |s| && Sum(r) == -Sum(s)
    ensures forall i :: 0 <= i < |s| ==> r[i] == -s[i]
  {
    if s == [] then [] else
      var r := [-s[0]] + Negated(s[1..]);
      assert r[1..] == Negated(s[1..]);
      r
  }

  lemma {:induction false} CreditedNegated(who: seq<Name>, amounts: seq<Cents>, m: Name)
    requires |who| == |amounts|
    ensures Credited(who, Negated(amounts), m) == -Credited(who, amounts, m)
  {
    if who != [] {
      assert Negated(amounts)[1..] == Negated(amounts[1..]);
      CreditedNegated(who[1..], amounts[1..], m);
    }
  }

  /** A side of create_debt that can be split: at least one account, every one of them known. */
  predicate Known(s: Snapshot, who: seq<Name>)
  {
    |who| > 0 && forall i :: 0 <= i < |who| ==> who[i] in s.accounts
  }

  /** The share of `amount` that side `who` of a create_debt assigns to account m. */
  function Portion(s: Snapshot, amount: Cents, who: Option<seq<Name>>, m: Name): Cents
  {
    var names := Resolve(s, who);
    if |names| == 0 then 0 else Credited(names, Shares(amount, |names|).value, m)
  }

  /**
    create_debt(amount, creditors, debitors): a split of amount is added to
    the creditors' diffs and a split of amount subtracted from the
    debitors' diffs, so the total diff is unchanged; a side with no account
    is a division by zero.
  */
  function CreateDebt(s: Snapshot, amount: Cents, creditors: Option<seq<Name>>, debitors: Option<seq<Name>>)
    : (r: Result<Snapshot>)
    requires s.Valid()
    ensures |Resolve(s, creditors)| == 0 ==> r == Err(DivisionByZero)
    ensures r.Ok? ==> r.value.Valid() && r.value.names == s.names && TotalDiff(r.value) == TotalDiff(s)
  {
    var cs, ds := Resolve(s, creditors), Resolve(s, debitors);
    match Shares(amount, |cs|)
    case Err(e) => Err(e)
    case Ok(credits) =>
      match AddToDiffs(s, cs, credits)
      case Err(e) => Err(e)
      case Ok(s1) =>
        match Shares(amount, |ds|)
        case Err(e) => Err(e)
        case Ok(debits) => AddToDiffs(s1, ds, Negated(debits))
  }

  /**
    create_debt succeeds exactly when both sides name at least one account and
    only known ones; each account's diff then moves by what the creditor side
    grants it minus what the debitor side charges it, and no balance moves.
  */
  lemma CreateDebtEffect(s: Snapshot, amount: Cents, creditors: Option<seq<Name>>, debitors: Option<seq<Name>>)
    requires s.Valid()
    ensures var r := CreateDebt(s, amount, creditors, debitors);
      (r.Ok? <==> Known(s, Resolve(s, creditors)) && Known(s, Resolve(s, debitors))) &&
      (r.Ok? ==> (SameBalances(s, r.value) &&
         forall m :: DiffOf(r.value, m) == DiffOf(s, m) + Portion(s, amount, creditors, m) - Portion(s, amount, debitors, m)))
  {
    var cs, ds := Resolve(s, creditors), Resolve(s, debitors);
    if |cs| > 0 {
      var credits := Shares(amount, |cs|).value;
      AddToDiffsEffect(s, cs, credits);
      var r1 := AddToDiffs(s, cs, credits);
      if r1.Ok? && |ds| > 0 {
        var debits := Shares(amount, |ds|).value;
        AddToDiffsEffect(r1.value, ds, Negated(debits));
        forall m
          ensures Credited(ds, Negated(debits), m) == -Credited(ds, debits, m)
        {
          CreditedNegated(ds, debits, m);
        }
      }
    }
  }

  /**
    internal_transfer(amount, sender, receiver): amount of balance leaves the
    sender for the receiver, and the expectation moves the other way.
  */
  function InternalTransfer(s: Snapshot, amount: Cents, sender: Name, receiver: Name): (r: Result<Snapshot>)
    requires s.Valid()
    ensures sender !in s.accounts ==> r == Err(UnknownAccount(sender))
    ensures r.Ok? ==> r.value.Valid() && r.value.names == s.names && TotalDiff(r.value) == TotalDiff(s)
  {
    match ChangeBalance(s, sender, -amount)
    case Err(e) => Err(e)
    case Ok(s1) =>
      match ChangeDiff(s1, sender, amount)
      case Err(e) => Err(e)
      case Ok(s2) =>
        match ChangeBalance(s2, receiver, amount)
        case Err(e) => Err(e)
        case Ok(s3) => ChangeDiff(s3, receiver, -amount)
  }

  /** internal_transfer moves the balance one way and the diff the other, for both parties. */
  lemma InternalTransferEffect(s: Snapshot, amount: Cents, sender: Name, receiver: Name)
    requires s.Valid()
    ensures var r := InternalTransfer(s, amount, sender, receiver);
      r.Ok? ==> (sender in s.accounts && receiver in s.accounts &&
        (forall m :: BalanceOf(r.value, m) == BalanceOf(s, m)
                       - (if m == sender then amount else 0) + (if m == receiver then amount else 0)) &&
        (forall m :: DiffOf(r.value, m) == DiffOf(s, m)
                       + (if m == sender then amount else 0) - (if m == receiver then amount else 0)))
  {
    var r := InternalTransfer(s, amount, sender, receiver);
    if r.Ok? {
      var s1 := ChangeBalance(s, sender, -amount).value;
      var s2 := ChangeDiff(s1, sender, amount).value;
      var s3 := ChangeBalance(s2, receiver, amount).value;
      assert r == ChangeDiff(s3, receiver, -amount);
      ChangeBalanceEffect(s, sender, -amount);
      ChangeDiffEffect(s1, sender, amount);
      ChangeBalanceEffect(s2, receiver, amount);
      ChangeDiffEffect(s3, receiver, -amount);
      var t := r.value;
      forall m
        ensures BalanceOf(t, m) == BalanceOf(s, m) - (if m == sender then amount else 0) + (if m == receiver then amount else 0)
      {
        assert BalanceOf(t, m) == BalanceOf(s3, m) && BalanceOf(s2, m) == BalanceOf(s1, m);
      }
      forall m
        ensures DiffOf(t, m) == DiffOf(s, m) + (if m == sender then amount else 0) - (if m == receiver then amount else 0)
      {
        assert DiffOf(s1, m) == DiffOf(s, m) && DiffOf(s3, m) == DiffOf(s2, m);
      }
    }
  }

  /**
    internal_transfer between two different accounts succeeds exactly when
    both exist and the pot, on either side, does not go below zero.
  */
  lemma InternalTransferSucceeds(s: Snapshot, amount: Cents, sender: Name, receiver: Name)
    requires s.Valid() && sender != receiver
    ensures InternalTransfer(s, amount, sender, receiver).Ok? <==>
      sender in s.accounts && receiver in s.accounts &&
      (sender == POT ==> BalanceOf(s, POT) >= amount) &&
      (receiver == POT ==> BalanceOf(s, POT) + amount >= 0)
  {
    var r1 := ChangeBalance(s, sender, -amount);
    if r1.Ok? {
      ChangeBalanceEffect(s, sender, -amount);
      var r2 := ChangeDiff(r1.value, sender, amount);
      ChangeDiffEffect(r1.value, sender, amount);
      assert BalanceOf(r2.value, receiver) == BalanceOf(s, receiver);
    }
  }

  /** check_equilibrium: fails, with the error amount, unless the diffs sum to zero. */
  function CheckEquilibrium(s: Snapshot): (o: Outcome)
    ensures o.Pass? <==> TotalDiff(s) == 0
    ensures o.Fail? ==> o.error == Unbalanced(TotalDiff(s))
  {
    var total := TotalDiff(s);
    if total == 0 then Pass else Fail(Unbalanced(total))
  }

  // ---------------------------------------------------------------- facts about the primitives

  /** The user list names every account but the pot, once each. */
  lemma UsersCount(s: Snapshot)
    requires s.Valid()
    ensures Distinct(Users(s))
    ensures Names(Users(s)) == s.accounts.Keys - {POT}
    ensures |Users(s)| == if s.HasPot() then |s.names| - 1 else |s.names|
  {
  }

  /** With distinct recipients, each one gets exactly its own amount and outsiders get nothing. */
  lemma {:induction false} CreditedDistinct(who: seq<Name>, amounts: seq<Cents>, m: Name)
    requires |who| == |amounts| && Distinct(who)
    ensures m !in Names(who) ==> Credited(who, amounts, m) == 0
    ensures forall i :: 0 <= i < |who| && who[i] == m ==> Credited(who, amounts, m) == amounts[i]
  {
    if who != [] {
      var rest, more := who[1..], amounts[1..];
      CreditedDistinct(rest, more, m);
      forall i | 1 <= i < |who| && who[i] == m
        ensures Credited(who, amounts, m) == amounts[i]
      {
        assert rest[i - 1] == m && more[i - 1] == amounts[i];
        NamesIndex(rest, i - 1);
      }
    }
  }

  lemma CreditedSingle(n: Name, a: Cents, m: Name)
    ensures Credited([n], [a], m) == if m == n then a else 0
  {
    assert [n][1..] == [];
  }

  /** A one-account side of create_debt takes the whole amount. */
  lemma PortionSingle(s: Snapshot, amount: Cents, n: Name, m: Name)
    ensures Portion(s, amount, Some([n]), m) == if m == n then amount else 0
  {
    assert Shares(amount, 1).value == [amount];
    CreditedSingle(n, amount, m);
  }

  /** Splitting k times a over the k users asks exactly a of each of them. */
  lemma PortionUsersEqual(s: Snapshot, a: Cents, m: Name)
    requires s.Valid() && |Users(s)| > 0
    ensures Portion(s, a * |Users(s)|, None, m) == if m in s.accounts && m != POT then a else 0
  {
    var users := Users(s);
    UsersCount(s);
    SharesOfMultiple(a, |users|);
    CreditedDistinct(users, seq(|users|, _ => a), m);
    NamesOf(users);
  }

  /** A result reached by a primitive: its outcome, and on success the new value. */
  ghost predicate Reached(r: Result<Snapshot>, res: Outcome, after: Snapshot)
  {
    OutcomeOf(r) == res && (r.Ok? ==> after == r.value)
  }

  /** As Reached, and on failure nothing changed. */
  ghost predicate Committed(before: Snapshot, r: Result<Snapshot>, res: Outcome, after: Snapshot)
  {
    Reached(r, res, after) && (r.Err? ==> after == before)
  }

  lemma {:induction false} DistinctCardinality(s: seq<Name>)
    requires Distinct(s)
    ensures |Names(s)| == |s|
  {
    if s != [] {
      DistinctCardinality(s[1..]);
    }
  }
}

/** The LedgerState that operations mutate in place. */
module State {
  import opened Outcomes
  import opened Money
  import opened Snapshots

  class LedgerState {
    var names: seq<Name>
    var accounts: map<Name, Entry>

    function Value(): Snapshot
      reads this
    {
      Snapshot(names, accounts)
    }

    ghost predicate Valid()
      reads this
    {
      Value().Valid()
    }

    /** copy(state): a new state holding the same accounts. */
    constructor Copy(s: Snapshot)
      requires s.Valid()
      ensures Valid() && Value() == s
    {
      names, accounts := s.names, s.accounts;
    }

    predicate HasPot()
      reads this
    {
      POT in accounts
    }

    /** len(state): the number of accounts, the pot included. */
    function Len(): (n: nat)
      reads this
      requires Valid()
      ensures n == |accounts| && n == |names|
    {
      DistinctCardinality(names);
      assert |accounts.Keys| == |accounts|;
      |names|
    }

    method AddAccount(name: Name) returns (res: Outcome)
      requires Valid()
      modifies this
      ensures Valid() && Committed(old(Value()), Snapshots.AddAccount(old(Value()), name), res, Value())
    {
      if name == "" {
        return Fail(InvalidName);
      }
      if name in accounts {
        return Fail(DuplicateAccount(name));
      }
      DistinctSnoc(names, name);
      NamesSnoc(names, name);
      names, accounts := names + [name], accounts[name := Fresh];
      res := Pass;
    }

    method RemoveAccount(name: Name) returns (res: Outcome)
      requires Valid()
      modifies this
      ensures Valid() && Committed(old(Value()), Snapshots.RemoveAccount(old(Value()), name), res, Value())
    {
      if name !in accounts {
        return Fail(UnknownAccount(name));
      }
      if accounts[name].diff != 0 {
        return Fail(NotSettled(name));
      }
      names, accounts := Without(names, name), accounts - {name};
      res := Pass;
    }

    method AddPot() returns (res: Outcome)
      requires Valid()
      modifies this
      ensures Valid() && Committed(old(Value()), Snapshots.AddPot(old(Value())), res, Value())
    {
      if POT in accounts {
        return Fail(PotAlreadyExists);
      }
      DistinctSnoc(names, POT);
      NamesSnoc(names, POT);
      names, accounts := names + [POT], accounts[POT := Entry(0, 0)];
      res := Pass;
    }

    method ChangeBalance(name: Name, amount: Cents) returns (res: Outcome)
      requires Valid()
      modifies this
      ensures Valid() && Committed(old(Value()), Snapshots.ChangeBalance(old(Value()), name, amount), res, Value())
    {
      if name !in accounts {
        return Fail(UnknownAccount(name));
      }
      var e := accounts[name];
      if name == POT && -amount > e.balance {
        return Fail(NegativeBalance);
      }
      accounts := accounts[name := e.(balance := e.balance + amount)];
      res := Pass;
    }

    method ChangeDiff(name: Name, amount: Cents) returns (res: Outcome)
      requires Valid()
      modifies this
      ensures Valid() && Committed(old(Value()), Snapshots.ChangeDiff(old(Value()), name, amount), res, Value())
    {
      if name !in accounts {
        return Fail(UnknownAccount(name));
      }
      var e := accounts[name];
      accounts := accounts[name := e.(diff := e.diff + amount)];
      res := Pass;
    }

    /** Adds amounts[i] to the diff of who[i], one account at a time. */
    method AddToDiffs(who: seq<Name>, amounts: seq<Cents>) returns (res: Outcome)
      requires Valid() && |who| == |amounts|
      modifies this
      ensures Valid() && Reached(Snapshots.AddToDiffs(old(Value()), who, amounts), res, Value())
    {
      for i := 0 to |who|
        invariant Valid()
        invariant Snapshots.AddToDiffs(old(Value()), who, amounts) == Snapshots.AddToDiffs(Value(), who[i..], amounts[i..])
      {
        assert who[i..][1..] == who[i + 1..] && amounts[i..][1..] == amounts[i + 1..];
        res := ChangeDiff(who[i], amounts[i]);
        if res.Fail? {
          return;
        }
      }
      assert who[|who|..] == [];
      res := Pass;
    }

    method CreateDebt(amount: Cents, creditors: Option<seq<Name>>, debitors: Option<seq<Name>>)
      returns (res: Outcome)
      requires Valid()
      modifies this
      ensures Valid() && Reached(Snapshots.CreateDebt(old(Value()), amount, creditors, debitors), res, Value())
    {
      var cs, ds := Resolve(Value(), creditors), Resolve(Value(), debitors);
      var credits := Shares(amount, |cs|);
      if credits.Err? {
        return Fail(credits.error);
      }
      res := AddToDiffs(cs, credits.value);
      if res.Fail? {
        return;
      }
      var debits := Shares(amount, |ds|);
      if debits.Err? {
        return Fail(debits.error);
      }
      res := AddToDiffs(ds, Negated(debits.value));
    }

    method InternalTransfer(amount: Cents, sender: Name, receiver: Name) returns (res: Outcome)
      requires Valid()
      modifies this
      ensures Valid() && Reached(Snapshots.InternalTransfer(old(Value()), amount, sender, receiver), res, Value())
    {
      ghost var s0 := Value();
      res := ChangeBalance(sender, -amount);
      if res.Fail? { return; }
      ghost var s1 := Value();
      assert Snapshots.ChangeBalance(s0, sender, -amount) == Ok(s1);
      res := ChangeDiff(sender, amount);
      if res.Fail? { return; }
      ghost var s2 := Value();
      assert Snapshots.ChangeDiff(s1, sender, amount) == Ok(s2);
      res := ChangeBalance(receiver, amount);
      if res.Fail? { return; }
      ghost var s3 := Value();
      assert Snapshots.ChangeBalance(s2, receiver, amount) == Ok(s3);
      res := ChangeDiff(receiver, -amount);
    }

    method CheckEquilibrium() returns (res: Outcome)
      ensures res == Snapshots.CheckEquilibrium(Value())
      ensures res.Pass? <==> TotalDiff(Value()) == 0
    {
      res := Snapshots.CheckEquilibrium(Value());
    }
  }

}
