/** Python exception classes raised by the exercises, their inheritance, and a result type
    that carries either a value or a raised exception (its class and its message). */
module Errors {

  import opened Wrappers

  /** The exception classes that appear in the modelled code, built-in and custom. */
  datatype ErrorKind =
    | Exception
    | ArithmeticError
    | TypeError
    | ValueError
    | KeyError
    | ZeroDivisionError
    | UserRegistrationError
    | InvalidEmailError
    | WeakPasswordError
    | InvalidAgeError
    | UsernameUnavailableError
    | NetworkError
    | ConfigurationError

  /** Direct base class of each exception class; `Exception` is the root of this model. */
  function Parent(k: ErrorKind): Option<ErrorKind> {
    match k
    case Exception => None
    case ArithmeticError => Some(Exception)
    case TypeError => Some(Exception)
    case ValueError => Some(Exception)
    case KeyError => Some(Exception)        // via LookupError, which is not modelled
    case ZeroDivisionError => Some(ArithmeticError)
    case UserRegistrationError => Some(Exception)
    case InvalidEmailError => Some(UserRegistrationError)
    case WeakPasswordError => Some(UserRegistrationError)
    case InvalidAgeError => Some(UserRegistrationError)
    case UsernameUnavailableError => Some(UserRegistrationError)
    case NetworkError => Some(Exception)
    case ConfigurationError => Some(Exception)
  }

  /** Distance of a class from the root; it strictly decreases along `Parent`. */
  function Depth(k: ErrorKind): nat {
    match k
    case Exception => 0
    case ZeroDivisionError => 2
    case InvalidEmailError | WeakPasswordError | InvalidAgeError | UsernameUnavailableError => 2
    case _ => 1
  }

  lemma ParentIsShallower(k: ErrorKind)
    ensures Parent(k).Some? ==> Depth(Parent(k).value) < Depth(k)
  {
  }

  /** `issubclass(k, base)`: `base` is `k` itself or one of its ancestors. */
  predicate IsSubclass(k: ErrorKind, base: ErrorKind)
    decreases Depth(k)
  {
    ParentIsShallower(k);
    k == base || (Parent(k).Some? && IsSubclass(Parent(k).value, base))
  }

  /** A raised exception: its class and its message (the fragment the tests match on). */
  datatype Error = Error(kind: ErrorKind, message: string)

  /** A return value or a raised exception. */
  datatype Result<+T> = Ok(value: T) | Err(error: Error)

  /** A check that returns nothing when it passes and raises otherwise. */
  datatype Outcome = Pass | Fail(error: Error)

  /** Every class of the hierarchy is a subclass of `Exception`. */
  lemma {:induction false} AllAreExceptions(k: ErrorKind)
    ensures IsSubclass(k, Exception)
    decreases Depth(k)
  {
    ParentIsShallower(k);
    if Parent(k).Some? {
      AllAreExceptions(Parent(k).value);
    }
  }
}
