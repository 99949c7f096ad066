/** Error kinds raised by the ledger core, and the result types that carry them. */
module Outcomes {

  datatype Error =
    | DivisionByZero           // Decimal division by a zero count
    | InvalidName              // empty account name
    | ReservedName             // "POT" used for an ordinary account
    | DuplicateAccount(name: string)
    | UnknownAccount(name: string)
    | NotSettled(name: string) // removal of an account whose diff is not zero
    | PotAlreadyExists
    | NoPot                    // pot operation on a ledger without a pot
    | NegativeBalance          // a PositiveAccount balance would drop below zero
    | Unbalanced(amount: int)  // the diffs do not sum to zero
    | MissingKey(key: string)  // dictionary lookup or pop of an absent key
    | UnknownOperation         // tag that names no operation class
    | BadFields                // constructor called with the wrong keyword arguments
    | NotAString               // a value that should be a string is not one

  datatype Result<T> = Ok(value: T) | Err(error: Error) {
    predicate IsFailure() { Err? }
    function PropagateFailure<U>(): Result<U> requires Err? { Err(error) }
    function Extract(): T requires Ok? { value }
  }

  datatype Outcome = Pass | Fail(error: Error)

  /** The outcome of a computation that yields a value, forgetting the value. */
  function OutcomeOf<T>(r: Result<T>): (o: Outcome)
    ensures o.Pass? <==> r.Ok?
    ensures r.Err? ==> o == Fail(r.error)
  {
    match r
    case Ok(_) => Pass
    case Err(e) => Fail(e)
  }
}
