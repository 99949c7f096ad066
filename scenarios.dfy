/**
  The ledger scenarios of the test suite (tests/test_ledger.py), replayed on
  the model. Each scenario is a list of operations replayed from the empty
  ledger; the lemmas state the accounts it ends with. Amounts are in cents:
  the wrappers' `amount=125` is RoundToCent(Units(125)) == 12500 by
  Money.RoundToCentOfUnits.

  The proofs go one operation at a time: a step lemma per operation kind
  returns the next snapshot and what it holds, and ReplayFirst moves the
  replay one operation on.
*/
module Scenarios {
  import opened Outcomes
  import opened Money
  import opened Snapshots
  import opened Operations
  import opened Ledgers

  /** Replay of a list whose first operation succeeds continues from its result. */
  lemma ReplayFirst(s: Snapshot, ops: seq<Operation>, t: Snapshot)
    requires s.Valid() && ops != [] && Step(s, ops[0]) == Ok(t)
    ensures Replay(s, ops) == Replay(t, ops[1..])
  {
  }

  /** A replay that succeeds has a first step that succeeds, and continues from its result. */
  lemma ReplayOkFirst(s: Snapshot, ops: seq<Operation>) returns (u: Snapshot)
    requires s.Valid() && ops != [] && Replay(s, ops).Ok?
    ensures Step(s, ops[0]) == Ok(u) && u.Valid()
    ensures Replay(s, ops) == Replay(u, ops[1..])
  {
    u := Step(s, ops[0]).value;
  }

  /** Replay of a concatenation continues from what the first part reached. */
  lemma {:induction false} ReplayConcat(s: Snapshot, a: seq<Operation>, b: seq<Operation>, t: Snapshot)
    requires s.Valid() && Replay(s, a) == Ok(t)
    ensures Replay(s, a + b) == Replay(t, b)
    decreases |a|
  {
    if a == [] {
      assert a + b == b;
    } else {
      var u := ReplayOkFirst(s, a);
      assert (a + b)[0] == a[0];
      ReplayFirst(s, a + b, u);
      assert (a + b)[1..] == a[1..] + b;
      ReplayConcat(u, a[1..], b, t);
    }
  }

  /** On an equilibrated state, a new ordinary name is appended with a fresh account. */
  lemma AddAccountStep(s: Snapshot, n: Name)
    requires s.Valid() && TotalDiff(s) == 0 && n != "" && n != POT && n !in s.accounts
    ensures Step(s, AddAccount(n)) == Ok(Snapshot(s.names + [n], s.accounts[n := Fresh]))
  {
  }

  const Populated := Snapshot(["antoine", "baptiste", "renan"],
    map["antoine" := Fresh, "baptiste" := Fresh, "renan" := Fresh])

  const PopulateOps: seq<Operation> := [AddAccount("antoine"), AddAccount("baptiste"), AddAccount("renan")]

  /** test_ledger's populate scenario: three fresh accounts, in the order they were added. */
  lemma PopulateScenario()
    ensures Replay(Empty, PopulateOps) == Ok(Populated)
    ensures Populated.Valid() && TotalDiff(Populated) == 0
  {
    var s1 := Snapshot(["antoine"], map["antoine" := Fresh]);
    var s2 := Snapshot(["antoine", "baptiste"], map["antoine" := Fresh, "baptiste" := Fresh]);
    AddAccountStep(Empty, "antoine");
    assert Empty.names + ["antoine"] == s1.names;
    ReplayFirst(Empty, PopulateOps, s1);
    AddAccountStep(s1, "baptiste");
    assert s1.names + ["baptiste"] == s2.names;
    ReplayFirst(s1, PopulateOps[1..], s2);
    AddAccountStep(s2, "renan");
    assert s2.names + ["renan"] == Populated.names;
    assert s2.accounts["renan" := Fresh] == Populated.accounts;
    ReplayFirst(s2, PopulateOps[2..], Populated);
    assert PopulateOps[1..][1..] == PopulateOps[2..] && PopulateOps[2..][1..] == [];
  }

  const ExpenseOps: seq<Operation> := [
    SharedExpense(12500, "antoine", "potatoes", []),
    Transfer(3000, "baptiste", "antoine"),
    TransferDebt(4000, "renan", "baptiste"),
    Debt(3000, "baptiste", "renan", "lunch at baustelle")]

  /** Three accounts with the given balance and diff each, in the populated order, in equilibrium. */
  ghost predicate Trio(s: Snapshot, ab: Cents, ad: Cents, bb: Cents, bd: Cents, rb: Cents, rd: Cents)
  {
    s.Valid() && TotalDiff(s) == 0 && s.names == Populated.names &&
    BalanceOf(s, "antoine") == ab && DiffOf(s, "antoine") == ad &&
    BalanceOf(s, "baptiste") == bb && DiffOf(s, "baptiste") == bd &&
    BalanceOf(s, "renan") == rb && DiffOf(s, "renan") == rd
  }

  /** antoine pays 125 for everyone: 125 split as 41.66, 41.67, 41.67. */
  lemma ExpenseStep() returns (t: Snapshot)
    ensures Step(Populated, ExpenseOps[0]) == Ok(t)
    ensures Trio(t, -12500, 8334, 0, -4167, 0, -4167)
  {
    PopulateScenario();
    var s := Populated;
    SharedExpenseWithoutPotEffect(s, 12500, "antoine", "potatoes", []);
    DivideSamples();
    t := ExpenseOps[0].Effect(s).value;
    assert s.names[0] == "antoine" && s.names[1] == "baptiste" && s.names[2] == "renan";
  }

  /** A transfer between two users succeeds and moves the amount. */
  lemma TransferStep(s: Snapshot, a: Cents, sender: Name, receiver: Name) returns (t: Snapshot)
    requires s.Valid() && TotalDiff(s) == 0 && sender != receiver && sender != POT && receiver != POT
    requires sender in s.accounts && receiver in s.accounts
    ensures Step(s, Transfer(a, sender, receiver)) == Ok(t)
    ensures t.Valid() && TotalDiff(t) == 0 && t.names == s.names
    ensures forall m :: BalanceOf(t, m) == BalanceOf(s, m) - (if m == sender then a else 0) + (if m == receiver then a else 0)
    ensures forall m :: DiffOf(t, m) == DiffOf(s, m) + (if m == sender then a else 0) - (if m == receiver then a else 0)
  {
    TransferEffect(s, a, sender, receiver);
    t := Transfer(a, sender, receiver).Effect(s).value;
  }

  /** A debt transfer between two accounts succeeds and moves the debt. */
  lemma TransferDebtStep(s: Snapshot, a: Cents, oldDebitor: Name, newDebitor: Name) returns (t: Snapshot)
    requires s.Valid() && TotalDiff(s) == 0
    requires oldDebitor in s.accounts && newDebitor in s.accounts
    ensures Step(s, TransferDebt(a, oldDebitor, newDebitor)) == Ok(t)
    ensures t.Valid() && TotalDiff(t) == 0 && t.names == s.names && SameBalances(s, t)
    ensures forall m :: DiffOf(t, m) == DiffOf(s, m) + (if m == oldDebitor then a else 0) - (if m == newDebitor then a else 0)
  {
    TransferDebtEffect(s, a, oldDebitor, newDebitor);
    t := TransferDebt(a, oldDebitor, newDebitor).Effect(s).value;
  }

  /** A debt between two accounts succeeds. */
  lemma DebtStep(s: Snapshot, a: Cents, creditor: Name, debitor: Name, subject: string) returns (t: Snapshot)
    requires s.Valid() && TotalDiff(s) == 0
    requires creditor in s.accounts && debitor in s.accounts
    ensures Step(s, Debt(a, creditor, debitor, subject)) == Ok(t)
    ensures t.Valid() && TotalDiff(t) == 0 && t.names == s.names && SameBalances(s, t)
    ensures forall m :: DiffOf(t, m) == DiffOf(s, m) + (if m == creditor then a else 0) - (if m == debitor then a else 0)
  {
    DebtEffect(s, a, creditor, debitor, subject);
    t := Debt(a, creditor, debitor, subject).Effect(s).value;
  }

  /** The operations of the shared-expense scenario, on the populated ledger. */
  lemma ExpenseScenarioFromPopulated()
    ensures var r := Replay(Populated, ExpenseOps);
      r.Ok? && Trio(r.value, -9500, 5334, -3000, -2167, 0, -3167)
  {
    PopulateScenario();
    var ops := ExpenseOps;
    var s1 := ExpenseStep();
    ReplayFirst(Populated, ops, s1);
    var ops1 := ops[1..];
    var s2 := TransferStep(s1, 3000, "baptiste", "antoine");
    ReplayFirst(s1, ops1, s2);
    var ops2 := ops1[1..];
    var s3 := TransferDebtStep(s2, 4000, "renan", "baptiste");
    ReplayFirst(s2, ops2, s3);
    var ops3 := ops2[1..];
    var s4 := DebtStep(s3, 3000, "baptiste", "renan", "lunch at baustelle");
    ReplayFirst(s3, ops3, s4);
    assert ops3[1..] == [];
  }

  const PotOps: seq<Operation> := [
    Operation.AddPot,
    RequestContribution(5000),
    PaysContribution(5000, "antoine"),
    PaysContribution(3000, "baptiste"),
    PaysContribution(5000, "renan"),
    SharedExpense(12500, "antoine", "potatoes", []),
    Reimburse(10000, "antoine")]

  /** The three users and the pot, with the given balance and diff each, in equilibrium. */
  ghost predicate WithPot(s: Snapshot, ab: Cents, ad: Cents, bb: Cents, bd: Cents, rb: Cents, rd: Cents, pb: Cents, pd: Cents)
  {
    s.Valid() && TotalDiff(s) == 0 && s.names == Populated.names + [POT] &&
    BalanceOf(s, "antoine") == ab && DiffOf(s, "antoine") == ad &&
    BalanceOf(s, "baptiste") == bb && DiffOf(s, "baptiste") == bd &&
    BalanceOf(s, "renan") == rb && DiffOf(s, "renan") == rd &&
    BalanceOf(s, POT) == pb && DiffOf(s, POT) == pd
  }

  /** The pot joins the populated ledger with a zero account. */
  lemma AddPotStep() returns (t: Snapshot)
    ensures Step(Populated, Operation.AddPot) == Ok(t)
    ensures WithPot(t, 0, 0, 0, 0, 0, 0, 0, 0)
  {
    PopulateScenario();
    t := Snapshot(Populated.names + [POT], Populated.accounts[POT := Entry(0, 0)]);
    assert Operation.AddPot.Effect(Populated) == Snapshots.AddPot(Populated);
  }

  /** The pot asks 50 of each of the three users. */
  lemma ContributionStep(s: Snapshot) returns (t: Snapshot)
    requires WithPot(s, 0, 0, 0, 0, 0, 0, 0, 0)
    ensures Step(s, RequestContribution(5000)) == Ok(t)
    ensures WithPot(t, 0, -5000, 0, -5000, 0, -5000, 0, 15000)
  {
    UsersCount(s);
    RequestContributionEffect(s, 5000);
    PotMembers(s);
    t := RequestContribution(5000).Effect(s).value;
  }

  /** A user pays into the pot. */
  lemma PaysStep(s: Snapshot, a: Cents, sender: Name) returns (t: Snapshot)
    requires s.Valid() && TotalDiff(s) == 0 && s.HasPot() && sender != POT && sender in s.accounts
    requires BalanceOf(s, POT) + a >= 0
    ensures Step(s, PaysContribution(a, sender)) == Ok(t)
    ensures t.Valid() && TotalDiff(t) == 0 && t.names == s.names
    ensures forall m :: BalanceOf(t, m) == BalanceOf(s, m) - (if m == sender then a else 0) + (if m == POT then a else 0)
    ensures forall m :: DiffOf(t, m) == DiffOf(s, m) + (if m == sender then a else 0) - (if m == POT then a else 0)
  {
    PaysContributionEffect(s, a, sender);
    t := PaysContribution(a, sender).Effect(s).value;
  }

  /** A user's shared expense on a ledger with a pot: the pot owes it. */
  lemma PotExpenseStep(s: Snapshot, a: Cents, payer: Name) returns (t: Snapshot)
    requires s.Valid() && TotalDiff(s) == 0 && s.HasPot() && payer != POT && payer in s.accounts
    ensures Step(s, SharedExpense(a, payer, "potatoes", [])) == Ok(t)
    ensures t.Valid() && TotalDiff(t) == 0 && t.names == s.names
    ensures forall m :: BalanceOf(t, m) == BalanceOf(s, m) - (if m == payer then a else 0)
    ensures forall m :: DiffOf(t, m) == DiffOf(s, m) + (if m == payer then a else 0) - (if m == POT then a else 0)
  {
    SharedExpenseWithPotEffect(s, a, payer, "potatoes", []);
    t := SharedExpense(a, payer, "potatoes", []).Effect(s).value;
  }

  /** The pot reimburses a user out of its balance. */
  lemma ReimburseStep(s: Snapshot, a: Cents, receiver: Name) returns (t: Snapshot)
    requires s.Valid() && TotalDiff(s) == 0 && s.HasPot() && receiver != POT && receiver in s.accounts
    requires BalanceOf(s, POT) >= a
    ensures Step(s, Reimburse(a, receiver)) == Ok(t)
    ensures t.Valid() && TotalDiff(t) == 0 && t.names == s.names
    ensures forall m :: BalanceOf(t, m) == BalanceOf(s, m) - (if m == POT then a else 0) + (if m == receiver then a else 0)
    ensures forall m :: DiffOf(t, m) == DiffOf(s, m) + (if m == POT then a else 0) - (if m == receiver then a else 0)
  {
    ReimburseEffect(s, a, receiver);
    t := Reimburse(a, receiver).Effect(s).value;
  }

  /** The populated names and the pot are all accounts. */
  lemma PotMembers(s: Snapshot)
    requires s.Valid() && s.names == Populated.names + [POT]
    ensures "antoine" in s.accounts && "baptiste" in s.accounts && "renan" in s.accounts && POT in s.accounts
  {
    NamesIndex(s.names, 0);
    NamesIndex(s.names, 1);
    NamesIndex(s.names, 2);
    NamesIndex(s.names, 3);
  }

  /** The pot is added and a contribution of 50 requested. */
  lemma PotRequested() returns (s: Snapshot)
    ensures WithPot(s, 0, -5000, 0, -5000, 0, -5000, 0, 15000)
    ensures Populated.Valid() && Replay(Populated, PotOps) == Replay(s, PotOps[2..])
  {
    PopulateScenario();
    var s1 := AddPotStep();
    ReplayFirst(Populated, PotOps, s1);
    s := ContributionStep(s1);
    ReplayFirst(s1, PotOps[1..], s);
    assert PotOps[1..][1..] == PotOps[2..];
  }

  /** antoine pays his contribution. */
  lemma FirstContributionPaid() returns (s: Snapshot)
    ensures WithPot(s, -5000, 0, 0, -5000, 0, -5000, 5000, 10000)
    ensures Populated.Valid() && Replay(Populated, PotOps) == Replay(s, PotOps[3..])
  {
    var s2 := PotRequested();
    PotMembers(s2);
    s := PaysStep(s2, 5000, "antoine");
    ReplayFirst(s2, PotOps[2..], s);
    assert PotOps[2..][1..] == PotOps[3..];
  }

  /** baptiste pays 30 of his. */
  lemma PotFirstPayments() returns (s: Snapshot)
    ensures WithPot(s, -5000, 0, -3000, -2000, 0, -5000, 8000, 7000)
    ensures Populated.Valid() && Replay(Populated, PotOps) == Replay(s, PotOps[4..])
  {
    var s3 := FirstContributionPaid();
    PotMembers(s3);
    s := PaysStep(s3, 3000, "baptiste");
    ReplayFirst(s3, PotOps[3..], s);
    assert PotOps[3..][1..] == PotOps[4..];
  }

  /** renan pays his contribution: every user has paid and the pot holds 130. */
  lemma ContributionsPaid() returns (s: Snapshot)
    ensures WithPot(s, -5000, 0, -3000, -2000, -5000, 0, 13000, 2000)
    ensures Populated.Valid() && Replay(Populated, PotOps) == Replay(s, PotOps[5..])
  {
    var s4 := PotFirstPayments();
    PotMembers(s4);
    s := PaysStep(s4, 5000, "renan");
    ReplayFirst(s4, PotOps[4..], s);
    assert PotOps[4..][1..] == PotOps[5..];
  }

  /** The operations of the pot scenario, on the populated ledger. */
  lemma PotScenarioFromPopulated()
    ensures var r := Replay(Populated, PotOps);
      r.Ok? && WithPot(r.value, -7500, 2500, -3000, -2000, -5000, 0, 3000, -500)
  {
    var s5 := ContributionsPaid();
    PotMembers(s5);
    var s6 := PotExpenseStep(s5, 12500, "antoine");
    ReplayFirst(s5, PotOps[5..], s6);
    var s7 := ReimburseStep(s6, 10000, "antoine");
    ReplayFirst(s6, PotOps[5..][1..], s7);
    assert PotOps[5..][1..][1..] == [];
  }

  /** test_ledger's shared-expense scenario, from a new ledger. */
  lemma SharedExpenseScenario()
    ensures var r := Replay(Empty, PopulateOps + ExpenseOps);
      r.Ok? && Trio(r.value, -9500, 5334, -3000, -2167, 0, -3167)
  {
    PopulateScenario();
    ReplayConcat(Empty, PopulateOps, ExpenseOps, Populated);
    ExpenseScenarioFromPopulated();
  }

  /** test_ledger's pot scenario, from a new ledger. */
  lemma PotScenario()
    ensures var r := Replay(Empty, PopulateOps + PotOps);
      r.Ok? && WithPot(r.value, -7500, 2500, -3000, -2000, -5000, 0, 3000, -500)
  {
    PopulateScenario();
    ReplayConcat(Empty, PopulateOps, PotOps, Populated);
    PotScenarioFromPopulated();
  }

  const ListOps: seq<Operation> := [
    SharedExpense(12500, "antoine", "potatoes", []),
    SharedExpense(6000, "baptiste", "pumpkins", []),
    SharedExpense(3000, "renan", "endivias", []),
    SharedExpense(12500, "antoine", "onions", []),
    Transfer(3000, "baptiste", "antoine")]

  /** The three populated accounts, no pot, in equilibrium. */
  ghost predicate ThreeUsers(s: Snapshot)
  {
    s.Valid() && TotalDiff(s) == 0 && s.names == Populated.names && !s.HasPot()
  }

  /** The populated names are accounts and none is the pot. */
  lemma ThreeUsersMembers(s: Snapshot)
    requires s.Valid() && s.names == Populated.names
    ensures "antoine" in s.accounts && "baptiste" in s.accounts && "renan" in s.accounts && !s.HasPot()
  {
    NamesIndex(s.names, 0);
    NamesIndex(s.names, 1);
    NamesIndex(s.names, 2);
    assert s.names == ["antoine"] + (["baptiste"] + (["renan"] + []));
  }

  /** A user's shared expense on a ledger without a pot succeeds. */
  lemma PlainExpenseStep(s: Snapshot, a: Cents, payer: Name, subject: string) returns (t: Snapshot)
    requires ThreeUsers(s) && payer in s.accounts
    ensures Step(s, SharedExpense(a, payer, subject, [])) == Ok(t) && ThreeUsers(t)
  {
    SharedExpenseWithoutPotEffect(s, a, payer, subject, []);
    t := SharedExpense(a, payer, subject, []).Effect(s).value;
    ThreeUsersMembers(t);
  }

  /** Every operation of test_ledger's list-expenses scenario is recorded. */
  lemma ListScenarioReplays()
    ensures Replay(Empty, PopulateOps + ListOps).Ok?
  {
    PopulateScenario();
    ReplayConcat(Empty, PopulateOps, ListOps, Populated);
    var s0 := Populated;
    ThreeUsersMembers(s0);
    var s1 := PlainExpenseStep(s0, 12500, "antoine", "potatoes");
    ReplayFirst(s0, ListOps, s1);
    ThreeUsersMembers(s1);
    var s2 := PlainExpenseStep(s1, 6000, "baptiste", "pumpkins");
    ReplayFirst(s1, ListOps[1..], s2);
    ThreeUsersMembers(s2);
    var s3 := PlainExpenseStep(s2, 3000, "renan", "endivias");
    ReplayFirst(s2, ListOps[2..], s3);
    ThreeUsersMembers(s3);
    var s4 := PlainExpenseStep(s3, 12500, "antoine", "onions");
    ReplayFirst(s3, ListOps[3..], s4);
    ThreeUsersMembers(s4);
    var s5 := TransferStep(s4, 3000, "baptiste", "antoine");
    ReplayFirst(s4, ListOps[4..], s5);
    assert ListOps[1..][1..] == ListOps[2..] && ListOps[2..][1..] == ListOps[3..];
    assert ListOps[3..][1..] == ListOps[4..] && ListOps[4..][1..] == [];
  }

  /** The ledger's expenses in that scenario: the four shared expenses, in order, and not the transfer. */
  lemma ListScenarioExpenses()
    ensures ExpensesOf(PopulateOps + ListOps) == ListOps[..4]
  {
    ExpensesOfConcat(PopulateOps, ListOps);
    ExpensesOfConcat(PopulateOps[..1], PopulateOps[1..]);
    ExpensesOfConcat(PopulateOps[1..2], PopulateOps[2..]);
    assert PopulateOps[..1] + PopulateOps[1..] == PopulateOps;
    assert PopulateOps[1..2] + PopulateOps[2..] == PopulateOps[1..];
    assert ExpensesOf(PopulateOps) == [];
    ExpensesOfConcat(ListOps[..4], ListOps[4..]);
    assert ListOps[..4] + ListOps[4..] == ListOps;
  }
}
