/**
  The ten ledger operations (collective_accounting/operations.py and
  lausa/operations.py). Both packages define the same variants with the same
  `apply_to`; lausa's SharedExpense also carries tags, which
  collective_accounting's lacks. One datatype serves both: a
  collective_accounting SharedExpense is one with no tags.

  `Effect` is what `apply_to` does, as a function on snapshots; `ApplyTo`
  is `apply_to` itself, mutating the LedgerState it is handed, and is proved
  to reach what `Effect` says.
*/
module Operations {
  import opened Outcomes
  import opened Money
  import opened Snapshots
  import State

  datatype Operation =
    | AddAccount(name: Name)
    | RemoveAccount(name: Name)
    | AddPot
    | Debt(amount: Cents, creditor: Name, debitor: Name, subject: string)
    | TransferDebt(amount: Cents, oldDebitor: Name, newDebitor: Name)
    | RequestContribution(amount: Cents)
    | SharedExpense(amount: Cents, payer: Name, subject: string, tags: seq<string>)
    | Transfer(amount: Cents, sender: Name, receiver: Name)
    | Reimburse(amount: Cents, receiver: Name)
    | PaysContribution(amount: Cents, sender: Name)
  {
    /** lausa's AccountingOperation: the operations that move debts or money, not accounts. */
    predicate IsAccounting()
    {
      !(AddAccount? || RemoveAccount? || AddPot?)
    }

    /** The operations that only apply to a ledger with a pot. */
    predicate NeedsPot()
    {
      RequestContribution? || Reimburse? || PaysContribution?
    }

    /**
      apply_to, on the value of the state. It fails with the operation's own
      error before any primitive runs when AddAccount names the pot, when
      AddPot finds a pot, or when a pot operation finds none. Every success
      is debt-neutral: the diffs still sum to what they summed to before; and
      an accounting operation neither adds nor removes an account.
    */
    function Effect(s: Snapshot): (r: Result<Snapshot>)
      requires s.Valid()
      ensures AddAccount? && name == POT ==> r == Err(ReservedName)
      ensures AddPot? ==> (r.Ok? <==> !s.HasPot())
      ensures AddPot? && s.HasPot() ==> r == Err(PotAlreadyExists)
      ensures NeedsPot() && !s.HasPot() ==> r == Err(NoPot)
      ensures r.Ok? ==> r.value.Valid() && TotalDiff(r.value) == TotalDiff(s)
      ensures r.Ok? && IsAccounting() ==> r.value.names == s.names
    {
      match this
      case AddAccount(n) =>
        if n == POT then Err(ReservedName) else Snapshots.AddAccount(s, n)
      case RemoveAccount(n) => Snapshots.RemoveAccount(s, n)
      case AddPot =>
        if s.HasPot() then Err(PotAlreadyExists) else Snapshots.AddPot(s)
      case Debt(a, c, d, _) => CreateDebt(s, a, Some([c]), Some([d]))
      case TransferDebt(a, o, n) => CreateDebt(s, a, Some([o]), Some([n]))
      case RequestContribution(a) => ApplyRequestContribution(s, a)
      case SharedExpense(a, p, _, _) => ApplySharedExpense(s, a, p)
      case Transfer(a, from, to) => InternalTransfer(s, a, from, to)
      case Reimburse(a, to) => ApplyReimburse(s, a, to)
      case PaysContribution(a, from) => ApplyPaysContribution(s, a, from)
    }

    /**
      apply_to(state): the state ends as Effect says, and an operation
      refused by its own guard leaves the state untouched.
    */
    method ApplyTo(state: State.LedgerState) returns (res: Outcome)
      requires state.Valid()
      modifies state
      ensures state.Valid() && Reached(Effect(old(state.Value())), res, state.Value())
      ensures (AddAccount? && name == POT) || (AddPot? && old(state.HasPot())) || (NeedsPot() && !old(state.HasPot()))
              ==> state.Value() == old(state.Value())
    {
      if IsAccounting() {
        res := ApplyAccounting(state);
      } else {
        res := ApplyAccount(state);
      }
    }

    /** apply_to of lausa's AccountOperation subclasses, which add or remove accounts. */
    method ApplyAccount(state: State.LedgerState) returns (res: Outcome)
      requires !IsAccounting() && state.Valid()
      modifies state
      ensures state.Valid() && Reached(Effect(old(state.Value())), res, state.Value())
      ensures (AddAccount? && name == POT) || (AddPot? && old(state.HasPot())) ==> state.Value() == old(state.Value())
    {
      ghost var s := state.Value();
      match this
      case AddAccount(n) =>
        if n == POT {
          return Fail(ReservedName);
        }
        assert Effect(s) == Snapshots.AddAccount(s, n);
        res := state.AddAccount(n);
      case RemoveAccount(n) =>
        assert Effect(s) == Snapshots.RemoveAccount(s, n);
        res := state.RemoveAccount(n);
      case AddPot =>
        if state.HasPot() {
          return Fail(PotAlreadyExists);
        }
        assert Effect(s) == Snapshots.AddPot(s);
        res := state.AddPot();
    }

    /** apply_to of lausa's AccountingOperation subclasses, which move debts and money. */
    method ApplyAccounting(state: State.LedgerState) returns (res: Outcome)
      requires IsAccounting() && state.Valid()
      modifies state
      ensures state.Valid() && Reached(Effect(old(state.Value())), res, state.Value())
      ensures NeedsPot() && !old(state.HasPot()) ==> state.Value() == old(state.Value())
    {
      if MovesMoney() {
        res := ApplyMoneyMove(state);
      } else {
        res := ApplyDebtMove(state);
      }
    }

    /** The accounting operations that go through internal_transfer and move balances. */
    predicate MovesMoney()
    {
      Transfer? || Reimburse? || PaysContribution?
    }

    method ApplyDebtMove(state: State.LedgerState) returns (res: Outcome)
      requires IsAccounting() && !MovesMoney() && state.Valid()
      modifies state
      ensures state.Valid() && Reached(Effect(old(state.Value())), res, state.Value())
      ensures NeedsPot() && !old(state.HasPot()) ==> state.Value() == old(state.Value())
    {
      ghost var s := state.Value();
      match this
      case Debt(a, c, d, _) =>
        assert Effect(s) == CreateDebt(s, a, Some([c]), Some([d]));
        res := state.CreateDebt(a, Some([c]), Some([d]));
      case TransferDebt(a, o, n) =>
        assert Effect(s) == CreateDebt(s, a, Some([o]), Some([n]));
        res := state.CreateDebt(a, Some([o]), Some([n]));
      case RequestContribution(a) =>
        res := RequestContributionOn(state, a);
      case SharedExpense(a, p, _, _) =>
        res := SharedExpenseOn(state, a, p);
    }

    method ApplyMoneyMove(state: State.LedgerState) returns (res: Outcome)
      requires MovesMoney() && state.Valid()
      modifies state
      ensures state.Valid() && Reached(Effect(old(state.Value())), res, state.Value())
      ensures NeedsPot() && !old(state.HasPot()) ==> state.Value() == old(state.Value())
    {
      ghost var s := state.Value();
      match this
      case Transfer(a, from, to) =>
        assert Effect(s) == InternalTransfer(s, a, from, to);
        res := state.InternalTransfer(a, from, to);
      case Reimburse(a, to) =>
        res := ReimburseOn(state, a, to);
      case PaysContribution(a, from) =>
        res := PaysContributionOn(state, a, from);
    }
  }

  /** RequestContribution.apply_to: the pot is owed a by each of the other accounts. */
  function ApplyRequestContribution(s: Snapshot, a: Cents): (r: Result<Snapshot>)
    requires s.Valid()
    ensures r.Ok? ==> r.value.Valid() && r.value.names == s.names && TotalDiff(r.value) == TotalDiff(s)
  {
    if !s.HasPot() then Err(NoPot)
    else CreateDebt(s, Requested(a, |s.names| - 1), Some([POT]), None)
  }

  /** Reimburse.apply_to: a transfer out of the pot. */
  function ApplyReimburse(s: Snapshot, a: Cents, receiver: Name): (r: Result<Snapshot>)
    requires s.Valid()
    ensures r.Ok? ==> r.value.Valid() && r.value.names == s.names && TotalDiff(r.value) == TotalDiff(s)
  {
    if !s.HasPot() then Err(NoPot) else InternalTransfer(s, a, POT, receiver)
  }

  /** PaysContribution.apply_to: a transfer into the pot. */
  function ApplyPaysContribution(s: Snapshot, a: Cents, sender: Name): (r: Result<Snapshot>)
    requires s.Valid()
    ensures r.Ok? ==> r.value.Valid() && r.value.names == s.names && TotalDiff(r.value) == TotalDiff(s)
  {
    if !s.HasPot() then Err(NoPot) else InternalTransfer(s, a, sender, POT)
  }

  /**
    SharedExpense.apply_to: the payer's balance pays the amount, then the
    payer is owed it by the pot if there is one, else by all the users.
  */
  function ApplySharedExpense(s: Snapshot, a: Cents, payer: Name): (r: Result<Snapshot>)
    requires s.Valid()
    ensures payer !in s.accounts ==> r == Err(UnknownAccount(payer))
    ensures r.Ok? ==> r.value.Valid() && r.value.names == s.names && TotalDiff(r.value) == TotalDiff(s)
  {
    match ChangeBalance(s, payer, -a)
    case Err(e) => Err(e)
    case Ok(s1) =>
      if s1.HasPot() then CreateDebt(s1, a, Some([payer]), Some([POT]))
      else CreateDebt(s1, a, Some([payer]), None)
  }

  /** What a contribution request asks of the pot's debtors: a from each of `users` accounts. */
  function Requested(a: Cents, users: int): Cents { a * users }

  /** RequestContribution.apply_to on the state itself. */
  method RequestContributionOn(state: State.LedgerState, a: Cents) returns (res: Outcome)
    requires state.Valid()
    modifies state
    ensures state.Valid() && Reached(ApplyRequestContribution(old(state.Value()), a), res, state.Value())
    ensures !old(state.HasPot()) ==> state.Value() == old(state.Value())
  {
    if !state.HasPot() {
      return Fail(NoPot);
    }
    var k := state.Len();
    res := state.CreateDebt(Requested(a, k - 1), Some([POT]), None);
  }

  /** Reimburse.apply_to on the state itself. */
  method ReimburseOn(state: State.LedgerState, a: Cents, receiver: Name) returns (res: Outcome)
    requires state.Valid()
    modifies state
    ensures state.Valid() && Reached(ApplyReimburse(old(state.Value()), a, receiver), res, state.Value())
    ensures !old(state.HasPot()) ==> state.Value() == old(state.Value())
  {
    if !state.HasPot() {
      return Fail(NoPot);
    }
    res := state.InternalTransfer(a, POT, receiver);
  }

  /** PaysContribution.apply_to on the state itself. */
  method PaysContributionOn(state: State.LedgerState, a: Cents, sender: Name) returns (res: Outcome)
    requires state.Valid()
    modifies state
    ensures state.Valid() && Reached(ApplyPaysContribution(old(state.Value()), a, sender), res, state.Value())
    ensures !old(state.HasPot()) ==> state.Value() == old(state.Value())
  {
    if !state.HasPot() {
      return Fail(NoPot);
    }
    res := state.InternalTransfer(a, sender, POT);
  }

  /** SharedExpense.apply_to on the state itself. */
  method SharedExpenseOn(state: State.LedgerState, a: Cents, payer: Name) returns (res: Outcome)
    requires state.Valid()
    modifies state
    ensures state.Valid() && Reached(ApplySharedExpense(old(state.Value()), a, payer), res, state.Value())
  {
    ghost var s0 := state.Value();
    res := state.ChangeBalance(payer, -a);
    if res.Fail? {
      return;
    }
    assert ChangeBalance(s0, payer, -a) == Ok(state.Value());
    if state.HasPot() {
      res := state.CreateDebt(a, Some([payer]), Some([POT]));
    } else {
      res := state.CreateDebt(a, Some([payer]), None);
    }
  }

  // ---------------------------------------------------------------- effects of each variant

  /** A create_debt between two single accounts: known names, creditor up, debitor down, balances kept. */
  lemma PairDebt(s: Snapshot, a: Cents, creditor: Name, debitor: Name)
    requires s.Valid()
    ensures var r := CreateDebt(s, a, Some([creditor]), Some([debitor]));
      (r.Ok? <==> creditor in s.accounts && debitor in s.accounts) &&
      (r.Ok? ==> (SameBalances(s, r.value) &&
         forall m :: DiffOf(r.value, m) == DiffOf(s, m) + (if m == creditor then a else 0) - (if m == debitor then a else 0)))
  {
    CreateDebtEffect(s, a, Some([creditor]), Some([debitor]));
    forall m
      ensures Portion(s, a, Some([creditor]), m) == if m == creditor then a else 0
      ensures Portion(s, a, Some([debitor]), m) == if m == debitor then a else 0
    {
      PortionSingle(s, a, creditor, m);
      PortionSingle(s, a, debitor, m);
    }
  }

  /** Debt: the creditor's diff rises and the debitor's falls by the amount; no balance moves. */
  lemma DebtEffect(s: Snapshot, a: Cents, creditor: Name, debitor: Name, subject: string)
    requires s.Valid()
    ensures var r := Debt(a, creditor, debitor, subject).Effect(s);
      (r.Ok? <==> creditor in s.accounts && debitor in s.accounts) &&
      (r.Ok? ==> (SameBalances(s, r.value) &&
         forall m :: DiffOf(r.value, m) == DiffOf(s, m) + (if m == creditor then a else 0) - (if m == debitor then a else 0)))
  {
    PairDebt(s, a, creditor, debitor);
  }

  /** TransferDebt: the old debitor is relieved of the amount, the new one takes it on. */
  lemma TransferDebtEffect(s: Snapshot, a: Cents, oldDebitor: Name, newDebitor: Name)
    requires s.Valid()
    ensures var r := TransferDebt(a, oldDebitor, newDebitor).Effect(s);
      (r.Ok? <==> oldDebitor in s.accounts && newDebitor in s.accounts) &&
      (r.Ok? ==> (SameBalances(s, r.value) &&
         forall m :: DiffOf(r.value, m) == DiffOf(s, m) + (if m == oldDebitor then a else 0) - (if m == newDebitor then a else 0)))
  {
    PairDebt(s, a, oldDebitor, newDebitor);
  }

  /**
    A create_debt from the pot to every user for a times the number of
    users: the pot expects the total, each user owes a.
  */
  lemma ContributionDebt(s: Snapshot, a: Cents, total: Cents)
    requires s.Valid() && s.HasPot() && total == a * |Users(s)|
    ensures var r := CreateDebt(s, total, Some([POT]), None);
      (r.Ok? <==> |Users(s)| > 0) &&
      (r.Ok? ==> (SameBalances(s, r.value) &&
         DiffOf(r.value, POT) == DiffOf(s, POT) + total &&
         forall m :: m in s.accounts && m != POT ==> DiffOf(r.value, m) == DiffOf(s, m) - a))
  {
    var k := |Users(s)|;
    UsersCount(s);
    CreateDebtEffect(s, total, Some([POT]), None);
    forall i | 0 <= i < k
      ensures Users(s)[i] in s.accounts
    {
      NamesIndex(Users(s), i);
    }
    if k > 0 {
      forall m
        ensures Portion(s, total, Some([POT]), m) == if m == POT then total else 0
        ensures Portion(s, total, None, m) == if m in s.accounts && m != POT then a else 0
      {
        PortionSingle(s, total, POT, m);
        PortionUsersEqual(s, a, m);
      }
    }
  }

  /**
    RequestContribution(a) on a ledger with a pot and k users: the pot
    expects a times k, each user owes a; it fails only when there is no pot
    or no user.
  */
  lemma RequestContributionEffect(s: Snapshot, a: Cents)
    requires s.Valid()
    ensures var r := RequestContribution(a).Effect(s);
      (r.Ok? <==> s.HasPot() && |Users(s)| > 0) &&
      (r.Ok? ==> (SameBalances(s, r.value) &&
         DiffOf(r.value, POT) == DiffOf(s, POT) + a * |Users(s)| &&
         forall m :: m in s.accounts && m != POT ==> DiffOf(r.value, m) == DiffOf(s, m) - a))
  {
    assert RequestContribution(a).Effect(s) == ApplyRequestContribution(s, a);
    if s.HasPot() {
      UsersCount(s);
      assert Requested(a, |s.names| - 1) == a * |Users(s)|;
      ContributionDebt(s, a, Requested(a, |s.names| - 1));
    }
  }

  /**
    SharedExpense(a, payer) on a ledger with a pot: the payer's balance
    falls by a, the payer expects a back and the pot owes it.
  */
  lemma SharedExpenseWithPotEffect(s: Snapshot, a: Cents, payer: Name, subject: string, tags: seq<string>)
    requires s.Valid() && s.HasPot()
    ensures var r := SharedExpense(a, payer, subject, tags).Effect(s);
      (payer !in s.accounts ==> r == Err(UnknownAccount(payer))) &&
      (payer != POT ==> (r.Ok? <==> payer in s.accounts)) &&
      (r.Ok? ==> (
         (forall m :: BalanceOf(r.value, m) == BalanceOf(s, m) - (if m == payer then a else 0)) &&
         forall m :: DiffOf(r.value, m) == DiffOf(s, m) + (if m == payer then a else 0) - (if m == POT then a else 0)))
  {
    assert SharedExpense(a, payer, subject, tags).Effect(s) == ApplySharedExpense(s, a, payer);
    var r1 := ChangeBalance(s, payer, -a);
    if r1.Ok? {
      var s1 := r1.value;
      ChangeBalanceEffect(s, payer, -a);
      PairDebt(s1, a, payer, POT);
    }
  }

  /**
    A create_debt from one creditor to every account of a ledger without a
    pot: the creditor expects a, and account i owes share i of a.
  */
  lemma DebtOfAll(s: Snapshot, a: Cents, creditor: Name)
    requires s.Valid() && !s.HasPot()
    ensures var r := CreateDebt(s, a, Some([creditor]), None);
      (r.Ok? <==> creditor in s.accounts) &&
      (r.Ok? ==> (SameBalances(s, r.value) &&
         forall i :: 0 <= i < |s.names| ==>
           DiffOf(r.value, s.names[i]) == DiffOf(s, s.names[i]) + (if s.names[i] == creditor then a else 0)
                                          - Shares(a, |s.names|).value[i]))
  {
    UsersCount(s);
    assert Users(s) == s.names;
    CreateDebtEffect(s, a, Some([creditor]), None);
    forall i | 0 <= i < |s.names|
      ensures s.names[i] in s.accounts
    {
      NamesIndex(s.names, i);
    }
    forall i | 0 <= i < |s.names|
      ensures Portion(s, a, None, s.names[i]) == Shares(a, |s.names|).value[i]
    {
      CreditedDistinct(s.names, Shares(a, |s.names|).value, s.names[i]);
    }
    forall m
      ensures Portion(s, a, Some([creditor]), m) == if m == creditor then a else 0
    {
      PortionSingle(s, a, creditor, m);
    }
  }

  /**
    SharedExpense(a, payer) on a ledger without a pot: the payer's balance
    falls by a, the payer expects a back, and the users owe the shares of a
    in their order, the first share taking the rounding remainder.
  */
  lemma SharedExpenseWithoutPotEffect(s: Snapshot, a: Cents, payer: Name, subject: string, tags: seq<string>)
    requires s.Valid() && !s.HasPot()
    ensures var r := SharedExpense(a, payer, subject, tags).Effect(s);
      (r.Ok? <==> payer in s.accounts) &&
      (r.Ok? ==> (
         (forall m :: BalanceOf(r.value, m) == BalanceOf(s, m) - (if m == payer then a else 0)) &&
         forall i :: 0 <= i < |s.names| ==>
           DiffOf(r.value, s.names[i]) == DiffOf(s, s.names[i]) + (if s.names[i] == payer then a else 0)
                                          - Shares(a, |s.names|).value[i]))
  {
    assert SharedExpense(a, payer, subject, tags).Effect(s) == ApplySharedExpense(s, a, payer);
    ChangeBalanceEffect(s, payer, -a);
    var r1 := ChangeBalance(s, payer, -a);
    if r1.Ok? {
      DebtOfAll(r1.value, a, payer);
    }
  }

  /** Transfer: the sender's balance goes to the receiver, and the diffs move the other way. */
  lemma TransferEffect(s: Snapshot, a: Cents, sender: Name, receiver: Name)
    requires s.Valid()
    ensures var r := Transfer(a, sender, receiver).Effect(s);
      (sender !in s.accounts ==> r == Err(UnknownAccount(sender))) &&
      (sender != receiver ==> (r.Ok? <==>
         (sender in s.accounts && receiver in s.accounts &&
          (sender == POT ==> BalanceOf(s, POT) >= a) && (receiver == POT ==> BalanceOf(s, POT) + a >= 0)))) &&
      (r.Ok? ==> (sender in s.accounts && receiver in s.accounts &&
         (forall m :: BalanceOf(r.value, m) == BalanceOf(s, m) - (if m == sender then a else 0) + (if m == receiver then a else 0)) &&
         forall m :: DiffOf(r.value, m) == DiffOf(s, m) + (if m == sender then a else 0) - (if m == receiver then a else 0)))
  {
    InternalTransferEffect(s, a, sender, receiver);
    if sender != receiver {
      InternalTransferSucceeds(s, a, sender, receiver);
    }
  }

  /** Reimburse: a transfer out of the pot, which may not go below zero. */
  lemma ReimburseEffect(s: Snapshot, a: Cents, receiver: Name)
    requires s.Valid() && s.HasPot()
    ensures var r := Reimburse(a, receiver).Effect(s);
      (BalanceOf(s, POT) < a ==> r == Err(NegativeBalance)) &&
      (receiver != POT ==> (r.Ok? <==> receiver in s.accounts && BalanceOf(s, POT) >= a)) &&
      (r.Ok? ==> (receiver in s.accounts &&
         (forall m :: BalanceOf(r.value, m) == BalanceOf(s, m) - (if m == POT then a else 0) + (if m == receiver then a else 0)) &&
         forall m :: DiffOf(r.value, m) == DiffOf(s, m) + (if m == POT then a else 0) - (if m == receiver then a else 0)))
  {
    assert Reimburse(a, receiver).Effect(s) == ApplyReimburse(s, a, receiver);
    InternalTransferEffect(s, a, POT, receiver);
    if receiver != POT {
      InternalTransferSucceeds(s, a, POT, receiver);
    }
  }

  /** PaysContribution: a transfer into the pot. */
  lemma PaysContributionEffect(s: Snapshot, a: Cents, sender: Name)
    requires s.Valid() && s.HasPot()
    ensures var r := PaysContribution(a, sender).Effect(s);
      (sender !in s.accounts ==> r == Err(UnknownAccount(sender))) &&
      (sender != POT ==> (r.Ok? <==> sender in s.accounts && BalanceOf(s, POT) + a >= 0)) &&
      (r.Ok? ==> (
         (forall m :: BalanceOf(r.value, m) == BalanceOf(s, m) - (if m == sender then a else 0) + (if m == POT then a else 0)) &&
         forall m :: DiffOf(r.value, m) == DiffOf(s, m) + (if m == sender then a else 0) - (if m == POT then a else 0)))
  {
    assert PaysContribution(a, sender).Effect(s) == ApplyPaysContribution(s, a, sender);
    InternalTransferEffect(s, a, sender, POT);
    if sender != POT {
      InternalTransferSucceeds(s, a, sender, POT);
    }
  }
}
