/**
  The operation serialiser (collective_accounting/io.py and lausa/io.py):
  an operation becomes a flat map from field name to value, tagged with
  its class name under "operation", and is rebuilt from such a map. The two
  copies differ only in the operation set they serve: lausa's SharedExpense
  has a `tags` field, collective_accounting's has none.

  A number in a map is an exact Number; Money(x) is x rounded to the cent,
  and float(Money) is the amount as an exact number of units.
*/
module Io {
  import opened Outcomes
  import opened Money
  import opened Snapshots
  import opened Operations

  datatype Package = Collective | Lausa

  /** A value held in an operation map. */
  datatype Value =
    | Amount(cents: Cents)          // a Money
    | Num(x: Number)                // a plain int or float
    | Text(text: string)
    | TextList(items: seq<string>)  // a tuple or list of strings

  type Record = map<string, Value>

  /** The operations a package can express: collective_accounting's SharedExpense has no tags. */
  predicate InPackage(pkg: Package, op: Operation)
  {
    pkg == Lausa || !op.SharedExpense? || op.tags == []
  }

  /** money_to_float: a Money becomes a plain number, any other value is kept. */
  function MoneyToFloat(v: Value): (r: Value)
    ensures !r.Amount?
    ensures v.Amount? ==> r.Num? && 100 * r.x.num == v.cents * r.x.den
    ensures !v.Amount? ==> r == v
  {
    if v.Amount? then Num(OfCents(v.cents)) else v
  }

  /** number_to_money: a plain number becomes Money, any other value is kept. */
  function NumberToMoney(v: Value): (r: Value)
    ensures !r.Num?
    ensures v.Num? ==> r.Amount? && -v.x.den <= 2 * (100 * v.x.num - r.cents * v.x.den) <= v.x.den
    ensures !v.Num? ==> r == v
  {
    if v.Num? then Amount(RoundToCent(v.x)) else v
  }

  /** Converting a value to a number and back gives it back, unless it was a plain number already. */
  lemma ConvertersRoundTrip(v: Value)
    requires !v.Num?
    ensures NumberToMoney(MoneyToFloat(v)) == v
  {
    if v.Amount? {
      RoundToCentOfCents(v.cents);
    }
  }

  /** The ten operation classes of the operations module. */
  datatype Class =
    | AddAccountClass | RemoveAccountClass | AddPotClass | DebtClass | TransferDebtClass
    | RequestContributionClass | SharedExpenseClass | TransferClass | ReimburseClass
    | PaysContributionClass

  function ClassOf(op: Operation): Class
  {
    match op
    case AddAccount(_) => AddAccountClass
    case RemoveAccount(_) => RemoveAccountClass
    case AddPot => AddPotClass
    case Debt(_, _, _, _) => DebtClass
    case TransferDebt(_, _, _) => TransferDebtClass
    case RequestContribution(_) => RequestContributionClass
    case SharedExpense(_, _, _, _) => SharedExpenseClass
    case Transfer(_, _, _) => TransferClass
    case Reimburse(_, _) => ReimburseClass
    case PaysContribution(_, _) => PaysContributionClass
  }

  /** operation.__class__.__name__ */
  function ClassName(c: Class): string
  {
    match c
    case AddAccountClass => "AddAccount"
    case RemoveAccountClass => "RemoveAccount"
    case AddPotClass => "AddPot"
    case DebtClass => "Debt"
    case TransferDebtClass => "TransferDebt"
    case RequestContributionClass => "RequestContribution"
    case SharedExpenseClass => "SharedExpense"
    case TransferClass => "Transfer"
    case ReimburseClass => "Reimburse"
    case PaysContributionClass => "PaysContribution"
  }

  /** getattr(operations, name): the operation class of that name, if there is one. */
  function ClassNamed(name: string): Option<Class>
  {
    if name == "AddAccount" then Some(AddAccountClass)
    else if name == "RemoveAccount" then Some(RemoveAccountClass)
    else if name == "AddPot" then Some(AddPotClass)
    else if name == "Debt" then Some(DebtClass)
    else if name == "TransferDebt" then Some(TransferDebtClass)
    else if name == "RequestContribution" then Some(RequestContributionClass)
    else if name == "SharedExpense" then Some(SharedExpenseClass)
    else if name == "Transfer" then Some(TransferClass)
    else if name == "Reimburse" then Some(ReimburseClass)
    else if name == "PaysContribution" then Some(PaysContributionClass)
    else None
  }

  /** Each class is found under its own name, so distinct classes have distinct names. */
  lemma ClassNamedName(c: Class)
    ensures ClassNamed(ClassName(c)) == Some(c)
  {
  }

  /** A name that finds a class is that class's name. */
  lemma ClassNamedSome(name: string)
    ensures ClassNamed(name).Some? ==> ClassName(ClassNamed(name).value) == name
  {
  }

  /** The dataclass fields of each operation class. */
  function Schema(pkg: Package, c: Class): set<string>
  {
    match c
    case AddAccountClass => {"name"}
    case RemoveAccountClass => {"name"}
    case AddPotClass => {}
    case DebtClass => {"amount", "creditor", "debitor", "subject"}
    case TransferDebtClass => {"amount", "old_debitor", "new_debitor"}
    case RequestContributionClass => {"amount"}
    case SharedExpenseClass =>
      if pkg == Lausa then {"amount", "payer", "subject", "tags"} else {"amount", "payer", "subject"}
    case TransferClass => {"amount", "sender", "receiver"}
    case ReimburseClass => {"amount", "receiver"}
    case PaysContributionClass => {"amount", "sender"}
  }

  /** dataclasses.asdict: each field under its name. */
  function AsDict(pkg: Package, op: Operation): (d: Record)
    ensures d.Keys == Schema(pkg, ClassOf(op))
    ensures forall k :: k in d ==> !d[k].Num?
  {
    match op
    case AddAccount(n) => map["name" := Text(n)]
    case RemoveAccount(n) => map["name" := Text(n)]
    case AddPot => map[]
    case Debt(a, c, d, s) => map["amount" := Amount(a), "creditor" := Text(c), "debitor" := Text(d), "subject" := Text(s)]
    case TransferDebt(a, o, n) => map["amount" := Amount(a), "old_debitor" := Text(o), "new_debitor" := Text(n)]
    case RequestContribution(a) => map["amount" := Amount(a)]
    case SharedExpense(a, p, s, t) =>
      var common := map["amount" := Amount(a), "payer" := Text(p), "subject" := Text(s)];
      if pkg == Lausa then common["tags" := TextList(t)] else common
    case Transfer(a, f, t) => map["amount" := Amount(a), "sender" := Text(f), "receiver" := Text(t)]
    case Reimburse(a, t) => map["amount" := Amount(a), "receiver" := Text(t)]
    case PaysContribution(a, f) => map["amount" := Amount(a), "sender" := Text(f)]
  }

  /**
    operation_as_dict: the class name under "operation" and every field
    under its own name, with Money turned into plain numbers.
  */
  function OperationAsDict(pkg: Package, op: Operation): (d: Record)
    ensures d.Keys == {"operation"} + Schema(pkg, ClassOf(op))
    ensures d["operation"] == Text(ClassName(ClassOf(op)))
    ensures forall k :: k in d ==> !d[k].Amount?
    ensures forall k :: k in d && k != "operation" ==> d[k] == MoneyToFloat(AsDict(pkg, op)[k])
  {
    var fields := AsDict(pkg, op);
    assert "operation" !in fields;
    var tagged := map["operation" := Text(ClassName(ClassOf(op)))] + fields;
    map k | k in tagged :: MoneyToFloat(tagged[k])
  }

  /** walk_values(number_to_money): the same keys, every plain number turned into Money. */
  function ToMoney(d: Record): (r: Record)
    ensures r.Keys == d.Keys
    ensures forall k :: k in r ==> !r[k].Num? && r[k] == NumberToMoney(d[k])
  {
    map k | k in d :: NumberToMoney(d[k])
  }

  function TextField(f: Record, k: string): (r: Result<string>)
    ensures r.Ok? <==> k in f && f[k].Text?
    ensures r.Ok? ==> r.value == f[k].text
  {
    if k in f && f[k].Text? then Ok(f[k].text) else Err(BadFields)
  }

  function AmountField(f: Record, k: string): (r: Result<Cents>)
    ensures r.Ok? <==> k in f && f[k].Amount?
    ensures r.Ok? ==> r.value == f[k].cents
  {
    if k in f && f[k].Amount? then Ok(f[k].cents) else Err(BadFields)
  }

  /** The tags keyword: absent means the default empty tuple. */
  function TagsField(f: Record): (r: Result<seq<string>>)
    ensures r.Ok? <==> "tags" !in f || f["tags"].TextList?
    ensures r.Ok? ==> r.value == if "tags" in f then f["tags"].items else []
  {
    if "tags" !in f then Ok([])
    else if f["tags"].TextList? then Ok(f["tags"].items)
    else Err(BadFields)
  }

  /**
    The keywords a class accepts: its fields, where lausa's SharedExpense
    may leave out its defaulted tags.
  */
  predicate Accepts(pkg: Package, c: Class, keys: set<string>)
  {
    keys == Schema(pkg, c) || (pkg == Lausa && c == SharedExpenseClass && keys == {"amount", "payer", "subject"})
  }

  /**
    operation_class(**fields): the keywords must be ones the class accepts,
    each holding a value of its kind.
  */
  function Build(pkg: Package, c: Class, f: Record): (r: Result<Operation>)
    ensures !Accepts(pkg, c, f.Keys) ==> r == Err(BadFields)
    ensures r.Ok? ==> ClassOf(r.value) == c && InPackage(pkg, r.value)
  {
    if !Accepts(pkg, c, f.Keys) then Err(BadFields)
    else
      match c
      case AddAccountClass =>
        var n :- TextField(f, "name");
        Ok(AddAccount(n))
      case RemoveAccountClass =>
        var n :- TextField(f, "name");
        Ok(RemoveAccount(n))
      case AddPotClass => Ok(AddPot)
      case DebtClass =>
        var a :- AmountField(f, "amount");
        var c :- TextField(f, "creditor");
        var d :- TextField(f, "debitor");
        var s :- TextField(f, "subject");
        Ok(Debt(a, c, d, s))
      case TransferDebtClass =>
        var a :- AmountField(f, "amount");
        var o :- TextField(f, "old_debitor");
        var n :- TextField(f, "new_debitor");
        Ok(TransferDebt(a, o, n))
      case RequestContributionClass =>
        var a :- AmountField(f, "amount");
        Ok(RequestContribution(a))
      case SharedExpenseClass =>
        var a :- AmountField(f, "amount");
        var p :- TextField(f, "payer");
        var s :- TextField(f, "subject");
        var t :- TagsField(f);
        Ok(SharedExpense(a, p, s, t))
      case TransferClass =>
        var a :- AmountField(f, "amount");
        var s :- TextField(f, "sender");
        var t :- TextField(f, "receiver");
        Ok(Transfer(a, s, t))
      case ReimburseClass =>
        var a :- AmountField(f, "amount");
        var t :- TextField(f, "receiver");
        Ok(Reimburse(a, t))
      case PaysContributionClass =>
        var a :- AmountField(f, "amount");
        var s :- TextField(f, "sender");
        Ok(PaysContribution(a, s))
  }

  /**
    load_operation_from_dict, on the value of its argument: the "operation"
    entry names the class, and the other entries, numbers turned into
    Money, are its keyword arguments.
  */
  function LoadOperation(pkg: Package, d: Record): (r: Result<Operation>)
    ensures "operation" !in d ==> r == Err(MissingKey("operation"))
    ensures "operation" in d && d["operation"].Text? && ClassNamed(d["operation"].text).None?
            ==> r == Err(UnknownOperation)
    ensures r.Ok? ==> "operation" in d && d["operation"] == Text(ClassName(ClassOf(r.value))) && InPackage(pkg, r.value)
  {
    if "operation" !in d then Err(MissingKey("operation"))
    else if !d["operation"].Text? then Err(NotAString)
    else
      ClassNamedSome(d["operation"].text);
      match ClassNamed(d["operation"].text)
      case None => Err(UnknownOperation)
      case Some(c) => Build(pkg, c, ToMoney(d - {"operation"}))
  }

  /** Rebuilding from the fields asdict produces gives the operation back. */
  lemma BuildAsDict(pkg: Package, op: Operation)
    requires InPackage(pkg, op)
    ensures Build(pkg, ClassOf(op), AsDict(pkg, op)) == Ok(op)
  {
  }

  /** The fields of a dumped operation, numbers turned back into Money, are its asdict. */
  lemma DumpedFields(pkg: Package, op: Operation)
    ensures ToMoney(OperationAsDict(pkg, op) - {"operation"}) == AsDict(pkg, op)
  {
    var fields := AsDict(pkg, op);
    var loaded := ToMoney(OperationAsDict(pkg, op) - {"operation"});
    assert "operation" !in fields;
    forall k | k in fields
      ensures loaded[k] == fields[k]
    {
      ConvertersRoundTrip(fields[k]);
    }
  }

  /** load_operation_from_dict(operation_as_dict(op)) == op, for every operation of the package. */
  lemma RoundTrip(pkg: Package, op: Operation)
    requires InPackage(pkg, op)
    ensures LoadOperation(pkg, OperationAsDict(pkg, op)) == Ok(op)
  {
    DumpedFields(pkg, op);
    ClassNamedName(ClassOf(op));
    BuildAsDict(pkg, op);
  }

  /** A mutable dictionary, as the argument of load_operation_from_dict. */
  class Dict {
    var entries: Record

    constructor (entries: Record)
      ensures this.entries == entries
    {
      this.entries := entries;
    }

    /** dict.pop(key): removes and returns the entry; KeyError when it is absent. */
    method Pop(key: string) returns (r: Result<Value>)
      modifies this
      ensures entries == old(entries) - {key}
      ensures key in old(entries) ==> r == Ok(old(entries)[key])
      ensures key !in old(entries) ==> r == Err(MissingKey(key))
    {
      if key !in entries {
        return Err(MissingKey(key));
      }
      r := Ok(entries[key]);
      entries := entries - {key};
    }
  }

  /**
    load_operation_from_dict(op_as_dict): pops "operation" from its argument
    and builds the operation LoadOperation describes.
  */
  method LoadOperationFromDict(pkg: Package, d: Dict) returns (r: Result<Operation>)
    modifies d
    ensures r == LoadOperation(pkg, old(d.entries))
    ensures d.entries == old(d.entries) - {"operation"}
  {
    var tag := d.Pop("operation");
    if tag.Err? {
      return Err(tag.error);
    }
    if !tag.value.Text? {
      return Err(NotAString);
    }
    match ClassNamed(tag.value.text)
    case None => r := Err(UnknownOperation);
    case Some(c) => r := Build(pkg, c, ToMoney(d.entries));
  }
}
