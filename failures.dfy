/** The exceptions the core can raise, and a failure-compatible result type.
    Python raises and unwinds; the model returns `Err` and callers propagate it with `:-`. */
module Failures {

  /** Why an operation of the core fails. */
  datatype Error =
    | UnknownChargeState(charge: int)  // KeyError: no record for that charge state
    | MalformedLabel                   // IndexError/ValueError: a subshell label without a leading digit
    | NoShellCapacity(n: int)          // KeyError: the shell-capacity table has no entry n
    | ShellNotPresent(n: int)          // KeyError: no subshell label starts with digit n
    | IndexOutOfRange(index: int, length: int)  // a table lookup outside the table
    | DivisionByZero                   // ZeroDivisionError

  datatype Result<T> = Ok(value: T) | Err(error: Error) {
    predicate IsFailure() { Err? }

    function PropagateFailure<U>(): Result<U>
      requires Err?
    {
      Err(error)
    }

    function Extract(): T
      requires Ok?
    {
      value
    }
  }

  /** Python's `xs[index]`: a negative index counts from the end; anything outside
      `-|xs| .. |xs|-1` is an IndexError. */
  function PyIndex<T>(xs: seq<T>, index: int): (r: Result<T>)
    ensures r.Ok? <==> -|xs| <= index < |xs|
    ensures 0 <= index < |xs| ==> r == Ok(xs[index])
    ensures -|xs| <= index < 0 ==> r == Ok(xs[|xs| + index])
  {
    if 0 <= index < |xs| then Ok(xs[index])
    else if -|xs| <= index < 0 then Ok(xs[|xs| + index])
    else Err(IndexOutOfRange(index, |xs|))
  }
}
