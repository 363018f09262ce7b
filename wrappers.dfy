/** Option and Result values standing for JavaScript's `null` results and thrown errors. */
module Wrappers {

  datatype Option<+T> = None | Some(value: T)

  /** The ways an operation of the ray tracer can throw. */
  datatype Fault =
    | NotInvertible        // matrix.js `inverse` on a zero determinant
    | OutOfBounds          // pixel access outside the canvas
    | IllegalOperation     // `localNormalAt` on a Group
    | TypeError(what: string) // a method or property that does not exist at run time

  datatype Result<+T> = Ok(value: T) | Err(fault: Fault) {
    predicate IsFailure() { Err? }

    function PropagateFailure<U>(): Result<U>
      requires Err?
    {
      Err(fault)
    }

    function Extract(): T
      requires Ok?
    {
      value
    }
  }
}
