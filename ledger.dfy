/**
  The ledger (collective_accounting/ledger.py and lausa/ledger.py): an
  append-only list of records, each an operation and the state it led to.
  `apply` works on a copy of the current state, checks the equilibrium of
  the result and appends a record only when both succeed; loading a ledger
  replays its operations one by one from the empty ledger.
*/
module Ledgers {
  import opened Outcomes
  import opened Money
  import opened Snapshots
  import opened Operations
  import opened Expenses
  import Mutable = State

  datatype LedgerRecord = LedgerRecord(state: Snapshot, operation: Operation)

  /** Ledger.state: the state of the last record, or a new empty state. */
  function StateOf(records: seq<LedgerRecord>): Snapshot
  {
    if records == [] then Empty else records[|records| - 1].state
  }

  /** Ledger.operations: the operations of the records, in order. */
  function OperationsOf(records: seq<LedgerRecord>): (ops: seq<Operation>)
    ensures |ops| == |records|
    ensures forall i :: 0 <= i < |records| ==> ops[i] == records[i].operation
  {
    if records == [] then [] else OperationsOf(records[..|records| - 1]) + [records[|records| - 1].operation]
  }

  /**
    What apply does to the value of the state: the operation's effect, then
    check_equilibrium. A success is equilibrated; it can only follow an
    equilibrated state, and from one it fails exactly when the operation does.
  */
  function Step(s: Snapshot, op: Operation): (r: Result<Snapshot>)
    requires s.Valid()
    ensures r.Ok? ==> r.value.Valid() && TotalDiff(r.value) == 0 && TotalDiff(s) == 0
    ensures r.Ok? ==> r == op.Effect(s)
    ensures TotalDiff(s) == 0 ==> r == op.Effect(s)
  {
    var t :- op.Effect(s);
    match CheckEquilibrium(t)
    case Pass => Ok(t)
    case Fail(e) => Err(e)
  }

  /** Applying operations one by one, from the first, stopping at the first failure. */
  function Replay(s: Snapshot, ops: seq<Operation>): (r: Result<Snapshot>)
    requires s.Valid()
    ensures r.Ok? ==> r.value.Valid()
    ensures ops == [] ==> r == Ok(s)
    decreases |ops|
  {
    if ops == [] then Ok(s)
    else
      match Step(s, ops[0])
      case Err(e) => Err(e)
      case Ok(t) => Replay(t, ops[1..])
  }

  /** Replaying one more operation applies it to what the others reached. */
  lemma {:induction false} ReplaySnoc(s: Snapshot, ops: seq<Operation>, op: Operation)
    requires s.Valid()
    ensures Replay(s, ops + [op]) ==
      match Replay(s, ops)
      case Err(e) => Err(e)
      case Ok(t) => Step(t, op)
    decreases |ops|
  {
    if ops == [] {
      assert ops + [op] == [op];
      assert [op][1..] == [];
    } else {
      assert (ops + [op])[0] == ops[0];
      assert (ops + [op])[1..] == ops[1..] + [op];
      match Step(s, ops[0])
      case Err(_) =>
      case Ok(t) => ReplaySnoc(t, ops[1..], op);
    }
  }

  /** Each record's state is what its operation did to the state of the record before. */
  ghost predicate Chained(records: seq<LedgerRecord>)
    decreases |records|
  {
    records == [] ||
    (var before := records[..|records| - 1];
     var last := records[|records| - 1];
     Chained(before) && StateOf(before).Valid() && Step(StateOf(before), last.operation) == Ok(last.state))
  }

  /** Every recorded state is valid and equilibrated: its diffs sum to zero. */
  lemma {:induction false} ChainedEquilibrated(records: seq<LedgerRecord>)
    requires Chained(records)
    ensures StateOf(records).Valid()
    ensures forall i :: 0 <= i < |records| ==> records[i].state.Valid() && TotalDiff(records[i].state) == 0
    decreases |records|
  {
    if records != [] {
      var before := records[..|records| - 1];
      ChainedEquilibrated(before);
      assert forall i :: 0 <= i < |before| ==> before[i] == records[i];
    }
  }

  /** Replaying the recorded operations from the empty state reaches the current state. */
  lemma {:induction false} ChainedReplay(records: seq<LedgerRecord>)
    requires Chained(records)
    ensures Replay(Empty, OperationsOf(records)) == Ok(StateOf(records))
    decreases |records|
  {
    if records != [] {
      var before := records[..|records| - 1];
      ChainedReplay(before);
      ReplaySnoc(Empty, OperationsOf(before), records[|records| - 1].operation);
    }
  }

  /** One more record, for the operation apply accepted. */
  lemma ChainedSnoc(records: seq<LedgerRecord>, op: Operation, t: Snapshot)
    requires Chained(records) && StateOf(records).Valid()
    requires Step(StateOf(records), op) == Ok(t)
    ensures Chained(records + [LedgerRecord(t, op)])
  {
    var after := records + [LedgerRecord(t, op)];
    assert after[..|after| - 1] == records;
  }

  /**
    The record apply leaves: on success one more record, for the operation
    and the state it reached; on failure the records as they were.
  */
  ghost predicate Applied(before: seq<LedgerRecord>, op: Operation, res: Outcome, after: seq<LedgerRecord>)
    requires StateOf(before).Valid()
  {
    var r := Step(StateOf(before), op);
    res == OutcomeOf(r) && after == if r.Ok? then before + [LedgerRecord(r.value, op)] else before
  }

  /** Ledger.expenses: the SharedExpense operations, in their order. */
  function ExpensesOf(ops: seq<Operation>): (es: seq<Expense>)
    ensures |es| <= |ops|
    ensures forall e: Expense :: multiset(es)[e] == multiset(ops)[e]
  {
    if ops == [] then []
    else
      assert ops == [ops[0]] + ops[1..];
      if ops[0].SharedExpense? then [ops[0]] + ExpensesOf(ops[1..]) else ExpensesOf(ops[1..])
  }

  /** The expenses of a concatenation are those of each part, in order; other operations are dropped. */
  lemma {:induction false} ExpensesOfConcat(a: seq<Operation>, b: seq<Operation>)
    ensures ExpensesOf(a + b) == ExpensesOf(a) + ExpensesOf(b)
    ensures forall op: Operation :: !op.SharedExpense? ==> ExpensesOf([op]) == []
  {
    forall op: Operation | !op.SharedExpense?
      ensures ExpensesOf([op]) == []
    {
      assert [op][1..] == [];
    }
    if a == [] {
      assert a + b == b;
    } else {
      assert (a + b)[0] == a[0];
      assert (a + b)[1..] == a[1..] + b;
      ExpensesOfConcat(a[1..], b);
    }
  }

  class Ledger {
    var records: seq<LedgerRecord>

    ghost predicate Valid()
      reads this
    {
      Chained(records) && StateOf(records).Valid()
    }

    /** Ledger(): no records. */
    constructor ()
      ensures Valid() && records == []
      ensures State() == Empty && Operations() == []
    {
      records := [];
    }

    function State(): Snapshot
      reads this
    {
      StateOf(records)
    }

    function Operations(): seq<Operation>
      reads this
    {
      OperationsOf(records)
    }

    function Expenses(): seq<Expense>
      reads this
    {
      ExpensesOf(OperationsOf(records))
    }

    /**
      apply(operation): applies the operation to a copy of the state and
      checks its equilibrium; only when both succeed is a record appended.
    */
    method Apply(op: Operation) returns (res: Outcome)
      requires Valid()
      modifies this
      ensures Valid()
      ensures old(StateOf(records)).Valid() && Applied(old(records), op, res, records)
    {
      var current := State();
      var newState := new Mutable.LedgerState.Copy(current);
      res := op.ApplyTo(newState);
      if res.Fail? {
        return;
      }
      res := newState.CheckEquilibrium();
      if res.Fail? {
        return;
      }
      ChainedSnoc(records, op, newState.Value());
      records := records + [LedgerRecord(newState.Value(), op)];
    }

    /** add_account(name) */
    method AddAccount(name: Name) returns (res: Outcome)
      requires Valid()
      modifies this
      ensures Valid()
      ensures old(StateOf(records)).Valid() && Applied(old(records), Operation.AddAccount(name), res, records)
    {
      res := Apply(Operation.AddAccount(name));
    }

    /** add_pot() */
    method AddPot() returns (res: Outcome)
      requires Valid()
      modifies this
      ensures Valid()
      ensures old(StateOf(records)).Valid() && Applied(old(records), Operation.AddPot, res, records)
    {
      res := Apply(Operation.AddPot);
    }

    /** record_debt(amount, creditor, debitor, subject) */
    method RecordDebt(amount: Number, creditor: Name, debitor: Name, subject: string) returns (res: Outcome)
      requires Valid()
      modifies this
      ensures Valid()
      ensures old(StateOf(records)).Valid()
              && Applied(old(records), Debt(RoundToCent(amount), creditor, debitor, subject), res, records)
    {
      res := Apply(Debt(RoundToCent(amount), creditor, debitor, subject));
    }

    /** record_shared_expense(amount, name, subject): an expense without tags. */
    method RecordSharedExpense(amount: Number, name: Name, subject: string) returns (res: Outcome)
      requires Valid()
      modifies this
      ensures Valid()
      ensures old(StateOf(records)).Valid()
              && Applied(old(records), SharedExpense(RoundToCent(amount), name, subject, []), res, records)
    {
      res := Apply(SharedExpense(RoundToCent(amount), name, subject, []));
    }

    /** record_transfer(amount, sender, receiver) */
    method RecordTransfer(amount: Number, sender: Name, receiver: Name) returns (res: Outcome)
      requires Valid()
      modifies this
      ensures Valid()
      ensures old(StateOf(records)).Valid()
              && Applied(old(records), Transfer(RoundToCent(amount), sender, receiver), res, records)
    {
      res := Apply(Transfer(RoundToCent(amount), sender, receiver));
    }

    /** record_transfer_debt(amount, old_debitor, new_debitor) */
    method RecordTransferDebt(amount: Number, oldDebitor: Name, newDebitor: Name) returns (res: Outcome)
      requires Valid()
      modifies this
      ensures Valid()
      ensures old(StateOf(records)).Valid()
              && Applied(old(records), TransferDebt(RoundToCent(amount), oldDebitor, newDebitor), res, records)
    {
      res := Apply(TransferDebt(RoundToCent(amount), oldDebitor, newDebitor));
    }

    /** request_contribution(amount) */
    method RequestContribution(amount: Number) returns (res: Outcome)
      requires Valid()
      modifies this
      ensures Valid()
      ensures old(StateOf(records)).Valid()
              && Applied(old(records), Operation.RequestContribution(RoundToCent(amount)), res, records)
    {
      res := Apply(Operation.RequestContribution(RoundToCent(amount)));
    }

    /** pays_contribution(amount, by): by is the sender. */
    method PaysContribution(amount: Number, sender: Name) returns (res: Outcome)
      requires Valid()
      modifies this
      ensures Valid()
      ensures old(StateOf(records)).Valid()
              && Applied(old(records), Operation.PaysContribution(RoundToCent(amount), sender), res, records)
    {
      res := Apply(Operation.PaysContribution(RoundToCent(amount), sender));
    }

    /** reimburse(amount, to) */
    method Reimburse(amount: Number, to: Name) returns (res: Outcome)
      requires Valid()
      modifies this
      ensures Valid()
      ensures old(StateOf(records)).Valid()
              && Applied(old(records), Operation.Reimburse(RoundToCent(amount), to), res, records)
    {
      res := Apply(Operation.Reimburse(RoundToCent(amount), to));
    }
  }

  /**
    The replay loop of load_from_file: a new ledger, then apply for each
    operation in order. The first failure stops it, as the exception does.
  */
  method LoadFromOperations(ops: seq<Operation>) returns (ledger: Ledger, res: Outcome)
    ensures fresh(ledger) && ledger.Valid()
    ensures res == OutcomeOf(Replay(Empty, ops))
    ensures res.Pass? ==> ledger.Operations() == ops && ledger.State() == Replay(Empty, ops).value
  {
    ledger := new Ledger();
    res := Pass;
    for i := 0 to |ops|
      invariant ledger.Valid() && res == Pass
      invariant ledger.Operations() == ops[..i]
      invariant Replay(ledger.State(), ops[i..]) == Replay(Empty, ops)
    {
      ghost var before := ledger.records;
      res := ledger.Apply(ops[i]);
      ApplyAdvances(before, ops, i, res, ledger.records);
      if res.Fail? {
        return;
      }
    }
  }

  /**
    One turn of the replay loop: apply of the i-th operation either fails as
    the whole replay does, or leaves one more operation recorded and the rest
    of the replay still reaching the same end.
  */
  lemma ApplyAdvances(before: seq<LedgerRecord>, ops: seq<Operation>, i: nat, res: Outcome, after: seq<LedgerRecord>)
    requires StateOf(before).Valid() && i < |ops|
    requires OperationsOf(before) == ops[..i]
    requires Replay(StateOf(before), ops[i..]) == Replay(Empty, ops)
    requires Applied(before, ops[i], res, after)
    ensures res.Fail? ==> res == OutcomeOf(Replay(Empty, ops))
    ensures res.Pass? ==> StateOf(after).Valid() && OperationsOf(after) == ops[..i + 1] &&
                          Replay(StateOf(after), ops[i + 1..]) == Replay(Empty, ops)
  {
    var r := Step(StateOf(before), ops[i]);
    ReplayUnfold(StateOf(before), ops, i);
    if r.Ok? {
      RecordedSnoc(before, LedgerRecord(r.value, ops[i]), ops, i);
    }
  }

  /** One more record whose operation is the i-th: the operations recorded are then the first i + 1. */
  lemma RecordedSnoc(before: seq<LedgerRecord>, rec: LedgerRecord, ops: seq<Operation>, i: nat)
    requires i < |ops| && OperationsOf(before) == ops[..i] && rec.operation == ops[i]
    ensures StateOf(before + [rec]) == rec.state
    ensures OperationsOf(before + [rec]) == ops[..i + 1]
  {
    assert (before + [rec])[..|before|] == before;
    assert ops[..i + 1] == ops[..i] + [ops[i]];
  }

  /** Replaying from the i-th operation on is a step, then replaying from the next one. */
  lemma ReplayUnfold(s: Snapshot, ops: seq<Operation>, i: nat)
    requires s.Valid() && i < |ops|
    ensures Step(s, ops[i]).Err? ==> Replay(s, ops[i..]) == Err(Step(s, ops[i]).error)
    ensures Step(s, ops[i]).Ok? ==> Replay(s, ops[i..]) == Replay(Step(s, ops[i]).value, ops[i + 1..])
  {
    assert ops[i..][0] == ops[i];
    assert ops[i..][1..] == ops[i + 1..];
  }
}
