/** Values shared by every part of the template model: optional values, the
    outcomes of calls that can throw, and the failures the template raises. */
module Common {

  /** Raw binary data as the store sees it. */
  type Bytes = seq<bv8>

  /** A reference that may be null. */
  datatype Option<+T> = None | Some(value: T)

  /** The failures a call can end with, in place of a Java exception. */
  datatype Error =
    /** `Assert.notNull` failed: an IllegalArgumentException with its message. */
    | IllegalArgument(message: string)
    /** An InvalidDataAccessApiUsageException raised by the template. */
    | InvalidApiUsage(message: string)
    /** A member was called on a serializer field that is still null. */
    | NullDereference
    /** An integer division by zero (ArithmeticException). */
    | Arithmetic
    /** A failure raised by a collaborator (the callback, the driver, the
        connection factory); `code` tells failures apart. */
    | Raised(code: nat)

  /** The result of a call that returns a value or throws. */
  datatype Result<+T> = Success(value: T) | Failure(error: Error)

  /** The result of a call that returns nothing or throws. */
  datatype Outcome = Pass | Fail(error: Error)
}
