/** Failure-carrying datatypes shared by the whole model.

    The Python class signals failure by raising; here every operation that
    can raise returns a `Result` whose `Err` branch names the exception kind.
 */
module Errors {

  /** The exception kinds the polygon sequence raises. */
  datatype Error =
    | TypeError          // an argument is a bool, a complex or not a number at all
    | ValueError         // a side count below 3, or a slice step of 0
    | IndexError         // a scalar index outside [-len, len - 1]
    | NonIntegralSides   // a float side count: accepted by the class, outside this model

  datatype Result<+T> = Ok(value: T) | Err(error: Error) {
    predicate IsFailure() { Err? }

    function PropagateFailure<U>(): Result<U>
      requires Err?
    {
      Err(error)
    }

    function Extract(): T
      requires Ok?
    {
      value
    }
  }

  datatype Option<+T> = None | Some(value: T)
}
