# collective-accounting, modelled in Dafny

collective-accounting keeps the accounts of a group that shares expenses.
A ledger is an append-only list of records. Each record holds an operation and
the state that the operation produced.

The state is an ordered map from account names to accounts. Each account has:

- a **balance**: the money the account has put in or taken out;
- a **diff**: what it is owed, when positive, or what it owes, when negative.

One optional account, the **pot** (the reserved name `POT`), collects
contributions and may never have a negative balance.

There are ten operations:

- accounts: AddAccount, RemoveAccount, AddPot;
- debts: Debt, TransferDebt, RequestContribution, SharedExpense;
- money: Transfer, Reimburse, PaysContribution.

Every operation must leave the diffs summing to zero. `apply` works on a copy of
the current state and records it only when the operation and the equilibrium
check both succeed. The repository has two copies of this core:
`collective_accounting` and its successor `lausa`, which adds expense tags and
an `Expenses` list. Two older group models are also modelled: a group of credit
accounts, and a draft map of balances.

Money is modelled as a whole number of cents (`Money.Cents`). Every amount
entering the ledger goes through `round_to_cent`, which rounds half to even.
`divide` returns a quotient rounded to the cent plus the remainder that makes it
exact. A split of an amount between n accounts, the `Money.Shares` function,
gives the first account the quotient plus the remainder and every other account
the quotient. This is how the operations' tests distribute 100.00 between
three. The payer is owed 100.00 and charged the first share, 33.34, so its diff
ends at 66.66. The other two owe 33.33 each.

The files:

- `money.dfy`, `utils.dfy`: rounding, division, shares.
- `account.dfy`: `Account` / `PositiveAccount`, as a class.
- `ledger_state.dfy`:
  - module `Snapshots`: the state's value and its primitives, as functions;
  - module `State`: the mutable `LedgerState` whose methods are proved to
    match those functions.
- `operations.dfy`: the operations. One datatype serves both packages, and
  `apply_to` is proved against a function `Effect`.
- `expenses.dfy`: lausa's `Expenses`.
- `ledger.dfy`: the ledger as a class, the replay used when loading, and the
  invariants of the record chain.
- `io.dfy`: the dict form of an operation and its round trip.
- `models.dfy`: `models.Group`.
- `models_next.dfy`: `models_next.Accounts`.
- `scenarios.dfy`: the ledger tests' scenarios, replayed symbolically.
- `outcomes.dfy`: the error kinds, `Result` and `Outcome`.

The source of `LedgerState` is not part of this model. collective_accounting's
`operations.py` imports it from `account.py`, but that file holds only `Account`
and `PositiveAccount`. Its primitives (add_account, remove_account,
add_pot/has_pot, change_balance, create_debt, internal_transfer,
check_equilibrium, len) are modelled from two sources:

- how `operations.py` calls them;
- the values the operation and ledger tests expect.

The rows below cite those call sites. Two guards in these primitives, the
refusal of an empty name and of removing an unsettled account, are assumed
rather than fixed by any call site or test. They are listed under
"## Left out".

## Model

| member | source | states |
|---|---|---|
| Money.NearestEven | collective_accounting/money.py:4-5 | the integer is within half a unit of num/den, and an exact tie goes to the even neighbour (ROUND_HALF_EVEN) |
| Money.NearestEvenUnique | collective_accounting/money.py:4-5 | any integer with those two properties is NearestEven: the rounding is fully determined |
| Money.RoundToCent | collective_accounting/money.py:4-5 | round_to_cent: the cents are within half a cent of the exact amount, and ties go to an even cent |
| Money.RoundToCentOfCents | collective_accounting/money.py:4-5 | rounding an amount that is already in cents leaves it unchanged |
| Money.RoundToCentOfUnits | collective_accounting/money.py:4-5 | a whole number k is 100·k cents |
| Money.RoundToCentSamples | tests/test_money.py:6-8 | the test's samples 10 → 10.00 and 10.123 → 10.12; the ties 0.005 → 0.00 and 0.015 → 0.02 are not in any test and follow from Decimal's default ROUND_HALF_EVEN on exact decimal amounts (collective_accounting/money.py:4-5) |
| Money.Divide | collective_accounting/money.py:8-11 | divide fails exactly when the denominator is 0, reported as DivisionByZero for every amount (Decimal raises InvalidOperation rather than DivisionByZero for 0/0); otherwise quotient × denominator + remainder is exactly the amount |
| Money.DivideRemainderBound | collective_accounting/money.py:8-11 | the remainder is at most half the denominator in absolute value |
| Money.DivideExact | collective_accounting/money.py:8-11 | k·n divided by n is k with remainder 0 |
| Money.DivideSamples | tests/test_money.py:11-14 | the test's samples 9/3 = 3 r 0, 10/3 = 3.33 r 0.01 and 20/3 = 6.67 r −0.01; 100/3 = 33.33 r 0.01 is the split behind the 66.66 / −33.33 of tests/test_operations.py:103-105, and 125/3 = 41.67 r −0.01 the 83.34 / −41.67 split behind the 125.00 expense of tests/test_ledger.py:56 and the values at tests/test_ledger.py:94-96 |
| Money.Shares | collective_accounting/money.py:8-11 | a split into n shares fails exactly when n = 0; otherwise there are n shares summing exactly to the amount, the first being quotient + remainder and the others the quotient |
| Money.SharesOfMultiple | collective_accounting/money.py:8-11 | k·n split n ways gives n shares of k |
| Utils.RoundToCent | collective_accounting/utils.py:17-18 | the utils copy of round_to_cent agrees with the money one, within half a cent |
| Utils.Divide | collective_accounting/utils.py:21-24 | the utils copy of divide agrees with the money one: exact recombination and a bounded remainder |
| Account.Account.Default | collective_accounting/account.py:7-14 | a new Account has balance 0 and diff 0, is not a PositiveAccount, and is settled |
| Account.Account.constructor | collective_accounting/account.py:28-34 | an account built with a given balance, diff and kind (PositiveAccount or not) holds exactly those |
| Account.Account.IsSettled | collective_accounting/account.py:16-18 | is_settled: the diff is zero; when it holds is stated by Account.Account.Default and Account.Account.Expect |
| Account.Account.Expect | collective_accounting/account.py:20-21 | expect raises the diff by the amount and keeps the balance; the account is then settled exactly when its old diff was −amount |
| Account.Account.ChangeBalance | collective_accounting/account.py:23-34 | fails with NegativeBalance, changing nothing, exactly when a PositiveAccount would go below zero; otherwise the balance rises and the diff falls by the amount; balance + diff is kept, and a non-negative PositiveAccount stays non-negative |
| Snapshots.Without | collective_accounting/operations.py:35-36 | removing a name from the ordered names drops exactly that name and keeps the others distinct, one fewer when it was there |
| Snapshots.AddAccount | collective_accounting/operations.py:25-28 | add_account succeeds exactly for a non-empty, unused name (InvalidName / DuplicateAccount otherwise); the account is appended fresh and the total diff is unchanged |
| Snapshots.AddAccountKeeps | collective_accounting/operations.py:25-28 | add_account keeps every existing account as it was |
| Snapshots.RemoveAccount | collective_accounting/operations.py:35-36 | remove_account succeeds exactly for an existing account with diff 0 (UnknownAccount / NotSettled otherwise); the name is gone and the total diff is unchanged |
| Snapshots.RemoveAccountKeeps | collective_accounting/operations.py:35-36 | remove_account keeps every other account as it was |
| Snapshots.Snapshot.HasPot | collective_accounting/operations.py:41 | has_pot: the reserved pot name is an account; its use is stated by Snapshots.AddPot and Operations.Operation.Effect |
| Snapshots.AddPot | collective_accounting/operations.py:40-44 | add_pot succeeds exactly when there is no pot; the pot is appended with balance and diff 0 |
| Snapshots.AddPotKeeps | collective_accounting/operations.py:40-44 | add_pot keeps every existing account as it was |
| Snapshots.ChangeBalance | collective_accounting/operations.py:101 | change_balance succeeds exactly for a known account that is not the pot going below zero; that balance moves by the amount and the total diff does not |
| Snapshots.ChangeBalanceEffect | collective_accounting/operations.py:101 | change_balance moves that one balance and no diff |
| Snapshots.ChangeDiff | collective_accounting/account.py:20-21 | the state-level expect succeeds exactly for a known account; its diff, and the total diff, rise by the amount |
| Snapshots.ChangeDiffEffect | collective_accounting/account.py:20-21 | the state-level expect moves that one diff and no balance |
| Snapshots.AddToDiffs | collective_accounting/operations.py:57-60 | crediting a list of accounts raises the total diff by the sum of the amounts |
| Snapshots.AddToDiffsEffect | collective_accounting/operations.py:57-60 | crediting succeeds exactly when every listed name is known; each diff then rises by what that account is credited, and no balance moves |
| Snapshots.Negated | collective_accounting/operations.py:57-60 | the debit side of a debt is the credit split negated, entry by entry, with the opposite sum |
| Snapshots.CreditedNegated | collective_accounting/operations.py:57-60 | what an account is credited from the negated amounts is the negation of what it is credited from the amounts |
| Snapshots.CreateDebt | collective_accounting/operations.py:57-60 | create_debt with an empty side is a division by zero; a success keeps the accounts and the total diff |
| Snapshots.CreateDebtEffect | collective_accounting/operations.py:86-87 | create_debt succeeds exactly when both sides (None = every user) are non-empty and known; each diff then moves by its creditor share minus its debitor share, and no balance moves |
| Snapshots.InternalTransfer | collective_accounting/operations.py:116-119 | internal_transfer from an unknown sender fails with UnknownAccount; a success keeps the accounts and the total diff |
| Snapshots.InternalTransferEffect | collective_accounting/operations.py:116-119 | internal_transfer moves the amount of balance from sender to receiver and the same amount of diff the other way, for those two only |
| Snapshots.InternalTransferSucceeds | collective_accounting/operations.py:116-119 | between two distinct accounts, internal_transfer succeeds exactly when both are known and the pot would not go below zero |
| Snapshots.CheckEquilibrium | collective_accounting/ledger.py:89 | check_equilibrium passes exactly when the diffs sum to zero, and otherwise reports that sum |
| Snapshots.Users | collective_accounting/operations.py:86-87 | every account but the pot, in insertion order; stated by Snapshots.UsersCount |
| Snapshots.Resolve | collective_accounting/operations.py:107 | a create_debt side given as None stands for every user; stated by Snapshots.CreateDebtEffect and Snapshots.PortionUsersEqual |
| Snapshots.UsersCount | collective_accounting/operations.py:86-87 | the users are every account but the pot, once each: len(state) − 1 of them with a pot, len(state) without |
| Snapshots.PortionUsersEqual | collective_accounting/operations.py:86-87 | a·(number of users) split between all users gives every user exactly a |
| Snapshots.DistinctCardinality | collective_accounting/operations.py:87 | distinct names are as many as the accounts they name |
| State.LedgerState.Copy | collective_accounting/ledger.py:87 | the working copy that apply builds holds exactly the recorded state |
| State.LedgerState.HasPot | collective_accounting/operations.py:82 | has_pot of the working state, the same test as Snapshots.Snapshot.HasPot on its value |
| State.LedgerState.Len | collective_accounting/operations.py:87 | len(state) is the number of accounts |
| State.LedgerState.AddAccount | collective_accounting/operations.py:28 | the mutable add_account does what Snapshots.AddAccount says, and changes nothing on failure |
| State.LedgerState.RemoveAccount | collective_accounting/operations.py:36 | the mutable remove_account does what Snapshots.RemoveAccount says, and changes nothing on failure |
| State.LedgerState.AddPot | collective_accounting/operations.py:44 | the mutable add_pot does what Snapshots.AddPot says, and changes nothing on failure |
| State.LedgerState.ChangeBalance | collective_accounting/operations.py:101 | the mutable change_balance does what Snapshots.ChangeBalance says, and changes nothing on failure |
| State.LedgerState.ChangeDiff | collective_accounting/account.py:20-21 | the mutable expect does what Snapshots.ChangeDiff says, and changes nothing on failure |
| State.LedgerState.AddToDiffs | collective_accounting/operations.py:57-60 | crediting accounts in place, one at a time, reaches Snapshots.AddToDiffs |
| State.LedgerState.CreateDebt | collective_accounting/operations.py:57-60 | the mutable create_debt reaches Snapshots.CreateDebt |
| State.LedgerState.InternalTransfer | collective_accounting/operations.py:116-119 | the mutable internal_transfer reaches Snapshots.InternalTransfer |
| State.LedgerState.CheckEquilibrium | collective_accounting/ledger.py:89 | passes exactly when the state's diffs sum to zero |
| Operations.Operation.Effect | lausa/operations.py:29-196 | the operation's own guards come first: AddAccount("POT") → ReservedName, AddPot with a pot → PotAlreadyExists, a pot operation without a pot → NoPot; every success keeps the diffs' total, and an accounting operation keeps the account list |
| Operations.Operation.ApplyTo | collective_accounting/operations.py:15 | apply_to leaves the state as Effect says, and a guard's refusal leaves it untouched |
| Operations.Operation.ApplyAccount | lausa/operations.py:26-52 | an AccountOperation's apply_to reaches Effect; a guard's refusal changes nothing |
| Operations.Operation.ApplyAccounting | lausa/operations.py:58-196 | an AccountingOperation's apply_to reaches Effect; without a pot, a pot operation changes nothing |
| Operations.Operation.ApplyDebtMove | lausa/operations.py:61-119 | Debt, TransferDebt, RequestContribution and SharedExpense reach Effect in place |
| Operations.Operation.ApplyMoneyMove | lausa/operations.py:163-196 | Transfer, Reimburse and PaysContribution reach Effect in place |
| Operations.ApplyRequestContribution | collective_accounting/operations.py:81-88 | a success keeps the accounts and the total diff; its effect is stated by Operations.RequestContributionEffect |
| Operations.ApplyReimburse | collective_accounting/operations.py:127-132 | a success keeps the accounts and the total diff; its effect is stated by Operations.ReimburseEffect |
| Operations.ApplyPaysContribution | collective_accounting/operations.py:140-143 | a success keeps the accounts and the total diff; its effect is stated by Operations.PaysContributionEffect |
| Operations.ApplySharedExpense | collective_accounting/operations.py:100-107 | an unknown payer fails with UnknownAccount; a success keeps the accounts and the total diff |
| Operations.RequestContributionOn | collective_accounting/operations.py:81-88 | RequestContribution.apply_to reaches its effect, and changes nothing without a pot |
| Operations.ReimburseOn | collective_accounting/operations.py:127-132 | Reimburse.apply_to reaches its effect, and changes nothing without a pot |
| Operations.PaysContributionOn | collective_accounting/operations.py:140-143 | PaysContribution.apply_to reaches its effect, and changes nothing without a pot |
| Operations.SharedExpenseOn | collective_accounting/operations.py:100-107 | SharedExpense.apply_to reaches ApplySharedExpense in place |
| Operations.PairDebt | collective_accounting/operations.py:57-60 | a debt between one creditor and one debitor succeeds exactly when both are known; it raises the creditor's diff and lowers the debitor's by the amount, and moves no balance |
| Operations.DebtEffect | collective_accounting/operations.py:50-60 | Debt: the creditor is owed the amount and the debitor owes it; the balances are kept |
| Operations.TransferDebtEffect | collective_accounting/operations.py:63-74 | TransferDebt: the old debitor is relieved of the amount and the new one takes it on |
| Operations.ContributionDebt | collective_accounting/operations.py:86-87 | a debt of a·(users) to the pot charges each user exactly a, and the pot is owed the total |
| Operations.RequestContributionEffect | collective_accounting/operations.py:77-88 | RequestContribution succeeds exactly with a pot and at least one user; each user's diff then falls by the amount |
| Operations.SharedExpenseWithPotEffect | collective_accounting/operations.py:100-105 | with a pot, the payer's balance pays the amount and the payer is owed it by the pot |
| Operations.DebtOfAll | collective_accounting/operations.py:107 | without a pot, a debt from all users gives the creditor the amount and charges the i-th account the i-th share of the split |
| Operations.SharedExpenseWithoutPotEffect | collective_accounting/operations.py:106-107 | without a pot, the payer pays the amount and every account, the payer included, owes its share of the split to the payer |
| Operations.TransferEffect | collective_accounting/operations.py:110-119 | Transfer moves the balance from the sender to the receiver and the diff the other way; it fails only for an unknown account or an overdrawn pot |
| Operations.ReimburseEffect | collective_accounting/operations.py:122-132 | Reimburse fails when the pot holds less than the amount; otherwise it moves the amount from the pot to the receiver |
| Operations.PaysContributionEffect | collective_accounting/operations.py:135-143 | PaysContribution moves the amount from the sender into the pot, settling that much of the sender's debt |
| Expenses.Total | lausa/operations.py:123-127 | sum(): the amounts added up from 0; its properties are stated by Expenses.TotalConcat and Expenses.FilterTotal |
| Expenses.TotalConcat | lausa/operations.py:123-127 | the total of no expenses is 0, and the total of two lists is the sum of their totals |
| Expenses.Filter | lausa/operations.py:129-153 | the filter keeps each selected expense with its multiplicity and drops the others |
| Expenses.FilterSingle | lausa/operations.py:129-153 | one expense is kept exactly when it is selected |
| Expenses.FilterConcat | lausa/operations.py:129-153 | filtering keeps order: the filter of two lists is the concatenation of their filters |
| Expenses.FilterPartition | lausa/operations.py:129-153 | a query and its negation split the list between them: together they hold every expense exactly once |
| Expenses.FilterTotal | lausa/operations.py:129-153 | the totals of a query and its negation add up to the total |
| Expenses.TagList | lausa/operations.py:155-157 | tags(unique=False), the flattened tag lists in order; its members are stated by Expenses.TagListMembers |
| Expenses.TagListMembers | lausa/operations.py:155-157 | a tag is listed exactly when some expense carries it |
| Expenses.Unique | lausa/operations.py:155-157 | the unique tags are the same tags, each once |
| Expenses.Tags | lausa/operations.py:155-157 | tags() lists exactly the tags used; with unique, each once; otherwise every occurrence in order |
| Expenses.TagCount | lausa/operations.py:159-160 | tag_count, the multiset of all tag occurrences; its counts are stated by Expenses.TagCountOccurrences and Expenses.TagCountFilter |
| Expenses.TagCountOccurrences | lausa/operations.py:159-160 | tag_count gives each tag the number of its occurrences |
| Expenses.TagCountFilter | lausa/operations.py:159-160 | when no expense repeats a tag, a tag's count is the number of expenses the filter for that tag keeps |
| Expenses.SingleOccurrence | lausa/operations.py:159-160 | in a tag list without repeats, a tag occurs once or not at all |
| Io.MoneyToFloat | collective_accounting/io.py:10-14 | money_to_float turns an amount into a number of the same value and leaves other values alone |
| Io.NumberToMoney | collective_accounting/io.py:17-21 | number_to_money turns a number into its amount rounded to the cent and leaves other values alone |
| Io.ConvertersRoundTrip | collective_accounting/io.py:10-21 | number_to_money undoes money_to_float |
| Io.ClassName | collective_accounting/io.py:25 | `operation.__class__.__name__`; stated with Io.ClassNamed by Io.ClassNamedName |
| Io.ClassNamed | collective_accounting/io.py:31 | `getattr(operations, name)` among the operation classes; stated by Io.ClassNamedName and Io.ClassNamedSome |
| Io.ClassNamedName | collective_accounting/io.py:31 | looking up an operation class by its own name finds that class |
| Io.ClassNamedSome | collective_accounting/io.py:31 | a name that is found is that class's name |
| Io.AsDict | collective_accounting/io.py:24-26 | asdict of an operation has exactly its class's fields and holds amounts, not numbers |
| Io.OperationAsDict | collective_accounting/io.py:24-26 | operation_as_dict adds the class name under "operation" to the fields with amounts converted to numbers |
| Io.ToMoney | collective_accounting/io.py:32 | every field is passed through number_to_money, keys kept |
| Io.TextField | collective_accounting/io.py:33 | a text argument is present exactly when the field holds text |
| Io.AmountField | collective_accounting/io.py:33 | an amount argument is present exactly when the field holds an amount |
| Io.TagsField | lausa/operations.py:110 | tags default to none and must be a list of text |
| Io.Build | collective_accounting/io.py:33 | constructing an operation fails with BadFields unless the fields are exactly the class's; a success is of that class and belongs to the package |
| Io.LoadOperation | collective_accounting/io.py:29-33 | load_operation_from_dict fails without "operation" or with an unknown class name; a loaded operation is of the class named |
| Io.BuildAsDict | collective_accounting/io.py:24-33 | rebuilding an operation from its asdict gives it back |
| Io.DumpedFields | collective_accounting/io.py:24-33 | the dumped fields, converted back to money, are the operation's asdict |
| Io.RoundTrip | collective_accounting/io.py:24-33 | load_operation_from_dict(operation_as_dict(op)) == op for every operation of the package |
| Io.Dict.constructor | collective_accounting/io.py:29 | the dict holds the given entries |
| Io.Dict.Pop | collective_accounting/io.py:30 | pop removes the key and returns its value, or reports the missing key |
| Io.LoadOperationFromDict | collective_accounting/io.py:29-33 | loads as LoadOperation does on the dict as it was, and leaves the dict without "operation" |
| Ledgers.StateOf | collective_accounting/ledger.py:39-44 | Ledger.state: the last record's state, or an empty state; stated by Ledgers.ChainedReplay and Ledgers.ChainedEquilibrated |
| Ledgers.OperationsOf | collective_accounting/ledger.py:46-48 | the operations are those of the records, one for one, in order |
| Ledgers.Step | collective_accounting/ledger.py:85-93 | one apply succeeds only from and to an equilibrated state, with the operation's effect |
| Ledgers.Replay | collective_accounting/ledger.py:61-74 | replaying nothing gives the start state; every replayed state is valid |
| Ledgers.ReplaySnoc | collective_accounting/ledger.py:61-74 | replaying one more operation steps from what the others reached |
| Ledgers.ChainedEquilibrated | collective_accounting/ledger.py:85-93 | every recorded state is valid and its diffs sum to zero |
| Ledgers.ChainedReplay | collective_accounting/ledger.py:61-74 | replaying the recorded operations from an empty state reaches the current state |
| Ledgers.ChainedSnoc | collective_accounting/ledger.py:85-93 | appending the record of an accepted operation keeps the chain |
| Ledgers.ExpensesOf | lausa/ledger.py:55-59 | the expenses are the SharedExpense operations, with their multiplicities |
| Ledgers.ExpensesOfConcat | lausa/ledger.py:55-59 | the expenses keep the operations' order, and other operations contribute none |
| Ledgers.ReplayUnfold | collective_accounting/ledger.py:61-74 | replaying from the i-th operation is a step followed by replaying from the next one |
| Ledgers.Ledger.constructor | collective_accounting/ledger.py:34-48 | a new ledger has no records, an empty state and no operations |
| Ledgers.Ledger.State | lausa/ledger.py:44-49 | the ledger's state, Ledgers.StateOf of its records; stated by Ledgers.Ledger.constructor and Ledgers.LoadFromOperations |
| Ledgers.Ledger.Operations | lausa/ledger.py:51-53 | the ledger's operations, Ledgers.OperationsOf of its records; stated by Ledgers.LoadFromOperations |
| Ledgers.Ledger.Expenses | lausa/ledger.py:55-59 | the ledger's expenses, Ledgers.ExpensesOf of its operations; stated by Ledgers.ExpensesOfConcat |
| Ledgers.Ledger.Apply | collective_accounting/ledger.py:85-93 | apply appends one record with the new state exactly when the operation and the equilibrium check both succeed; otherwise the records are unchanged |
| Ledgers.Ledger.AddAccount | collective_accounting/ledger.py:101-102 | add_account applies AddAccount |
| Ledgers.Ledger.AddPot | collective_accounting/ledger.py:104-105 | add_pot applies AddPot |
| Ledgers.Ledger.RecordDebt | collective_accounting/ledger.py:107-110 | record_debt applies a Debt of the amount rounded to the cent |
| Ledgers.Ledger.RecordSharedExpense | collective_accounting/ledger.py:112-113 | record_shared_expense applies an untagged SharedExpense of the rounded amount |
| Ledgers.Ledger.RecordTransfer | collective_accounting/ledger.py:115-116 | record_transfer applies a Transfer of the rounded amount |
| Ledgers.Ledger.RecordTransferDebt | collective_accounting/ledger.py:118-123 | record_transfer_debt applies a TransferDebt of the rounded amount |
| Ledgers.Ledger.RequestContribution | collective_accounting/ledger.py:125-126 | request_contribution applies a RequestContribution of the rounded amount |
| Ledgers.Ledger.PaysContribution | collective_accounting/ledger.py:128-129 | pays_contribution applies a PaysContribution of the rounded amount |
| Ledgers.Ledger.Reimburse | collective_accounting/ledger.py:131-132 | reimburse applies a Reimburse of the rounded amount |
| Ledgers.ApplyAdvances | collective_accounting/ledger.py:61-74 | one turn of the load loop: a failing apply fails as the whole replay does, and a passing one records the next operation and leaves the rest of the replay reaching the same end |
| Ledgers.LoadFromOperations | collective_accounting/ledger.py:61-74 | loading succeeds exactly when the replay does, and then holds exactly those operations and the replayed state |
| Scenarios.ReplayConcat | collective_accounting/ledger.py:61-74 | replaying a + b is replaying b from where a ends |
| Scenarios.AddAccountStep | tests/test_operations.py:41-51 | adding a new name appends a fresh account |
| Scenarios.TransferStep | tests/test_operations.py:157-165 | a transfer between two users moves the balance one way and the diff the other |
| Scenarios.TransferDebtStep | tests/test_operations.py:123-133 | a debt transfer between known accounts moves the diffs only |
| Scenarios.DebtStep | tests/test_operations.py:83-93 | a debt between known accounts moves the diffs only |
| Scenarios.PopulateScenario | tests/test_ledger.py:39-53 | the populated ledger (antoine, baptiste, renan) replays to three fresh accounts |
| Scenarios.ExpenseStep | tests/test_ledger.py:56-97 | antoine's 125.00 expense leaves his balance at −125.00 and his diff at +83.34, and the other two diffs at −41.67 |
| Scenarios.ExpenseScenarioFromPopulated | tests/test_ledger.py:56-97 | the expense, transfer and debt sequence reaches the balances and diffs the ledger test expects |
| Scenarios.SharedExpenseScenario | tests/test_ledger.py:56-97 | the same, replayed from an empty ledger |
| Scenarios.AddPotStep | tests/test_operations.py:60-77 | adding a pot to the populated state appends an empty pot |
| Scenarios.ContributionStep | tests/test_operations.py:136-151 | a 50.00 contribution request charges each user 50.00 and makes the pot owed 150.00 |
| Scenarios.PaysStep | tests/test_operations.py:187-202 | paying into the pot moves the balance in and the diff out |
| Scenarios.PotExpenseStep | tests/test_operations.py:109-120 | with a pot, an expense is owed to the payer by the pot |
| Scenarios.ReimburseStep | tests/test_operations.py:168-184 | a reimbursement moves money out of the pot to the receiver |
| Scenarios.PotRequested | tests/test_ledger.py:100-143 | after the pot and the request, each user owes 50.00 |
| Scenarios.FirstContributionPaid | tests/test_ledger.py:100-143 | antoine's payment settles him and funds the pot with 50.00 |
| Scenarios.PotFirstPayments | tests/test_ledger.py:100-143 | baptiste's partial payment of 30.00 leaves him owing 20.00 |
| Scenarios.ContributionsPaid | tests/test_ledger.py:100-143 | renan's payment brings the pot to 130.00, still owed 20.00 |
| Scenarios.PotScenarioFromPopulated | tests/test_ledger.py:100-143 | the whole pot sequence, with an expense and a reimbursement, reaches the states the ledger test expects |
| Scenarios.PotScenario | tests/test_ledger.py:100-143 | the same, replayed from an empty ledger |
| Scenarios.PlainExpenseStep | tests/test_ledger.py:146-181 | an untagged expense paid by one of the three users keeps three users and no pot |
| Scenarios.ListScenarioReplays | tests/test_ledger.py:146-181 | the expense list of the listing test (four untagged expenses) replays without failure |
| Scenarios.ListScenarioExpenses | tests/test_ledger.py:146-181 | the ledger's expenses are exactly the four recorded expenses, in order |
| GroupModels.Account.constructor | collective_accounting/models.py:8-11 | a new account has the name and credit 0 |
| GroupModels.Account.ChangeCredit | collective_accounting/models.py:13-15 | change_credit adds the change to the credit |
| GroupModels.NamesOf | collective_accounting/models.py:34-35 | the names of the accounts, index by index |
| GroupModels.CreditsOf | collective_accounting/models.py:34-35 | the credits of the accounts, index by index |
| GroupModels.FirstIndex | collective_accounting/models.py:54-59 | the index found is the first account with that name, or the end when none has it |
| GroupModels.SharedExpense | collective_accounting/models.py:52-61 | a shared expense of an empty group divides by zero, of an unknown name fails, and otherwise succeeds with one credit per account |
| GroupModels.SharedExpenseAt | collective_accounting/models.py:57-61 | entry by entry: the payer (the first account of that name) gains value − share, every account with another name loses the share, and any later account of the payer's name keeps its credit |
| GroupModels.SharedExpenseKeepsSum | collective_accounting/models.py:52-61 | with distinct names, a shared expense keeps the sum of the credits |
| GroupModels.SharedCreditSample | test_models.py:73-76 | antoine's 9.00 among three gives 6, −3, −3; an unknown name fails |
| GroupModels.Debited | collective_accounting/models.py:60-61 | every account whose name is not the payer's loses the share; the others keep their credit |
| GroupModels.Group.constructor | collective_accounting/models.py:18-20 | a new group has no accounts |
| GroupModels.Group.AsDict | collective_accounting/models.py:34-35 | as_dict maps every account name, and only those, to a credit, the last account of a name winning |
| GroupModels.Group.Get | collective_accounting/models.py:37-44 | get returns the first account with that name, or reports the missing key exactly when there is none |
| GroupModels.Group.AddAccount | collective_accounting/models.py:46-50 | add_account appends and returns a new account of that name with credit 0 |
| GroupModels.Group.AddSharedExpense | collective_accounting/models.py:52-61 | add_shared_expense leaves the credits as SharedExpense says, and changes nothing when it fails |
| GroupModels.Group.ApplyExpense | collective_accounting/models.py:59-61 | crediting the payer and debiting the others in place reaches SharedExpense |
| GroupModels.Group.ChangeCreditAt | collective_accounting/models.py:59 | crediting one account in place changes only that credit |
| GroupModels.Group.DebitOthers | collective_accounting/models.py:60-61 | the debit loop lowers by the share exactly the credits of the accounts with another name |
| GroupModels.DictOfEntries | collective_accounting/models.py:34-35 | the dict comprehension maps each name to its last account's credit |
| GroupModels.FirstIndexUnique | collective_accounting/models.py:54-59 | the payer search loop's index is the first match |
| NextModels.BalanceSumSnoc | collective_accounting/models_next.py:28-30 | adding one name to the sum adds its balance |
| NextModels.BalanceSumOther | collective_accounting/models_next.py:28-30 | changing an unlisted balance does not change the sum |
| NextModels.BalanceSumChange | collective_accounting/models_next.py:21-30 | adding an amount to one listed balance adds it to the sum |
| NextModels.Accounts.constructor | collective_accounting/models_next.py:10-11 | a new Accounts map is empty |
| NextModels.Accounts.AddAccount | collective_accounting/models_next.py:12-19 | a non-string name raises TypeError, and an empty or existing name raises ValueError, changing nothing; otherwise the name is added last with balance 0; the sum is kept |
| NextModels.Accounts.ChangeBalance | collective_accounting/models_next.py:21-26 | an unknown name raises ValueError; otherwise that balance, and the sum, move by the amount |
| NextModels.Accounts.Total | collective_accounting/models_next.py:29 | sum(self.values()) over the keys in insertion order; stated by NextModels.BalanceSumChange and NextModels.Accounts.CheckBalances |
| NextModels.Accounts.CheckBalances | collective_accounting/models_next.py:28-30 | check_balances passes exactly when the balances sum to zero, and raises RuntimeError otherwise |

## Left out

- Decimal and float arithmetic: the ledger's money is exact cents, and the
  older models use exact reals. Decimal's 28-digit context precision and float
  rounding are not modelled.
- File persistence, which is I/O:
  - save_to_file, the file half of load_from_file, and edit in both ledger.py
    files;
  - export and from_file in models.py (23-32);
  - utils.py's timestamped file names (30-37).
- Display: utils.py 43-92, display.py and cli.py.
- Logging calls.
- LedgerState's own source is not part of this model. Its primitives follow the
  calls in operations.py and the values the tests expect.
- Snapshots.AddAccount: refusing an empty name (InvalidName) is assumed
  behaviour. No call site or test fixes it. Refusing an existing name is fixed
  by tests/test_ledger.py:288-295: adding "antoine" again inside `Ledger.edit`
  must raise RuntimeError before anything is recorded. The model reports it
  as DuplicateAccount, and `apply` then records nothing. The same goes for
  State.LedgerState.AddAccount.
- Snapshots.RemoveAccount: refusing an account whose diff is not zero
  (NotSettled) is assumed behaviour. No call site or test fixes it. The same
  goes for State.LedgerState.RemoveAccount.
- Ledgers.Ledger.Apply: `copy(self.state)` is a shallow copy, so the source's
  records could share account objects with the working state. The model's
  records hold values, so this aliasing is not captured.
- Ledgers.LoadFromOperations: reading the operations from YAML is not modelled.
  The first operation that raises ends the load with its error, as the
  exception does in the source.
- Io.LoadOperation: `getattr(operations, name)` is modelled as a lookup among
  the ten operation classes. Other module attributes are not modelled.
- Io.Build: a dataclass `__init__` checks no types, so Python builds an
  operation from a field of any type (`AddAccount(name=5)`). The model's
  TextField, AmountField and TagsField reject a field of the wrong kind, and
  Build reports it as BadFields. The model therefore refuses inputs that Python
  accepts.
- Io.LoadOperation: a non-string "operation" value is reported as NotAString.
  In Python, `getattr` raises TypeError for it.
- Expenses.Filter: the filter argument is None, one tag, or a list or tuple of
  tags. Any other argument, a set for instance, matches no `case`, so `pred` is
  never bound and Python raises UnboundLocalError. That error path is not
  modelled.
- Expenses.Tags: unique tags come from a Python set, whose order is arbitrary.
  The model keeps each tag at its last occurrence. The proved properties are
  only membership and distinctness.
- Ledgers.Ledger.RecordDebt: `Money(x)` is taken to be round_to_cent of x. The
  same holds for the other record_* methods.
- The pot is recognised by its reserved name "POT". In the model it is the only
  PositiveAccount in a state.
- collective_accounting's SharedExpense has no tags. It is the shared datatype's
  SharedExpense with an empty tag list.
- The Operation, AddAccount and Ledger stubs in models_next.py (33-65) have no
  behaviour and are not modelled.
- GroupModels.Group.AddSharedExpense requires the group's accounts to be
  distinct objects. The source does not guard against one account object being
  listed twice.
- GroupModels.Group.Get: `if not account` also rejects a falsy account object.
  A dataclass instance is always truthy, so only the missing name is modelled.
- GroupModels.Group.AddSharedExpense: the IndexError raised for a name with no
  account is reported as UnknownAccount(name). Nothing has changed at that
  point in either case.
- NextModels.Accounts.ChangeBalance: the name is a string, and `Decimal(amount)`
  of a non-number is not modelled.
