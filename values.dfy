/** Values shared by every part of the table extension: optional values, the
    results of operations that may throw, and the loosely typed PHP scalars that
    the grid's setters accept. */
module Values {

  datatype Option<+T> = None | Some(value: T)

  /** The exceptions the extension raises, by PHP class. */
  datatype Error =
    | InvalidArgument(message: string)
    | Runtime(message: string)
    | DivisionByZero
    /** An exception class named without its leading backslash inside a
        namespace resolves to a class that does not exist: PHP raises an
        Error instead of the intended exception. */
    | ClassNotFound(name: string)

  /** A result that is either a value or the exception the PHP code throws. */
  datatype Result<+T> = Ok(value: T) | Err(error: Error) {
    predicate IsFailure() { Err? }
    function PropagateFailure<U>(): Result<U>
      requires Err?
    {
      Err(error)
    }
    function Extract(): T
      requires Ok?
    {
      value
    }
  }

  /** The outcome of a setter that returns nothing of interest but may throw. */
  datatype Outcome = Pass | Fail(error: Error)

  /** A PHP scalar as the grid's setters receive it. A numeric string is
      represented by the number it denotes. */
  datatype Value = Null | Bool(b: bool) | Num(n: real) | Str(s: string)

  /** PHP's conversion to boolean: null, false, 0, "" and "0" are falsy. */
  predicate Truthy(v: Value)
  {
    match v
    case Null => false
    case Bool(b) => b
    case Num(n) => n != 0.0
    case Str(s) => s != "" && s != "0"
  }

  /** PHP's is_numeric. */
  predicate IsNumeric(v: Value)
  {
    v.Num?
  }

  /** The truthiness of an optional number, as `$x ?: ...` tests it. */
  predicate IsSetNonZero(x: Option<real>)
  {
    x.Some? && x.value != 0.0
  }
}
