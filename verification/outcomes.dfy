/**
 * Values crossing the boundary of the calculator: an argument that is or is
 * not a JavaScript number, the two kinds of error the calculator throws, and
 * the result of a calculation that may throw.
 */
module Outcomes {

  /** An argument as the calculator sees it after `typeof x === 'number'`:
      a number (modelled as an exact real) or anything else. */
  datatype Input = Num(value: real) | NotNum

  /** The two kinds of error the calculator throws. */
  datatype Error =
    | InvalidType   // some argument was not a number
    | FuelDepleted  // the remaining fuel would be negative

  /** Either a computed value or the error that would have been thrown. */
  datatype Result<+T> = Ok(value: T) | Err(error: Error) {
    predicate IsFailure() {
      Err?
    }

    function PropagateFailure<U>(): Result<U>
      requires Err?
    {
      Err(error)
    }

    function Extract(): T
      requires Ok?
    {
      value
    }
  }

  /** True iff every one of the three arguments passed the type check. */
  predicate AllNumbers(x: Input, y: Input, z: Input) {
    x.Num? && y.Num? && z.Num?
  }
}
