/** Option and Result values shared by every module of the model.

    `Option<T>` stands for a Java or JavaScript reference that may be null.
    `Result<T>` stands for a method that either returns a value or throws; the
    kind of exception thrown is recorded by `Exception`.
 */
module Wrappers {

  datatype Option<+T> = None | Some(value: T) {
    predicate IsFailure() { None? }

    function PropagateFailure<U>(): Option<U>
      requires None?
    {
      None
    }

    function Extract(): T
      requires Some?
    {
      value
    }

    /** The value, or `default` when there is none (Java's `orElse`). */
    function GetOr(default: T): T {
      match this
      case Some(v) => v
      case None => default
    }
  }

  /** The Java exception classes the modelled services throw. */
  datatype Exception =
    | RuntimeException
    | ResourceNotFoundException
    | IllegalArgumentException
    | IllegalStateException
    | NullPointerException
    | NumberFormatException
    | DateTimeParseException
    | UsernameNotFoundException
    | ClassCastException
    | DataIntegrityViolationException
    | InvalidDataAccessApiUsageException

  datatype Result<+T> = Ok(value: T) | Err(error: Exception) {
    predicate IsFailure() { Err? }

    function PropagateFailure<U>(): Result<U>
      requires Err?
    {
      Err(error)
    }

    function Extract(): T
      requires Ok?
    {
      value
    }
  }

  /** Turns a missing value into the given exception (`orElseThrow`). */
  function OrThrow<T>(o: Option<T>, e: Exception): (r: Result<T>)
    ensures r.Ok? <==> o.Some?
    ensures r.Ok? ==> r.value == o.value
    ensures r.Err? ==> r.error == e
  {
    match o
    case Some(v) => Ok(v)
    case None => Err(e)
  }
}
