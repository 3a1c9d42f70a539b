/**
 * Java exceptions as values. An exception is described by its class and
 * the superclasses above it (most specific first, `Throwable` omitted),
 * its message (`getMessage()`, which may be null), its cause and, for a
 * failed request-body validation, the field errors the binder collected.
 */
module Exceptions {
  import opened Common

  /** The exception classes the server throws or handles. */
  datatype ExClass =
    | ChatServiceException
    | FileStorageException
    | OllamaException
    | ModelServiceException
    | MethodArgumentNotValidException
    | MaxUploadSizeExceededException
    | IllegalArgumentException
    | RuntimeException
    | Exception
    | OtherClass(name: string)

  /** One rejected field of a request body: its name and its default message (which may be null). */
  datatype FieldError = FieldError(field: string, defaultMessage: Option<string>)

  datatype Thrown = Thrown(
    lineage: seq<ExClass>,
    message: Option<string>,
    cause: Option<Thrown>,
    fieldErrors: seq<FieldError>)
  {
    /** `ex instanceof c`. */
    predicate IsA(c: ExClass) {
      c in lineage
    }
  }

  /**
   * An exception of one of the project's own classes, which all extend
   * `RuntimeException` directly, built with `new X(message, cause)`.
   */
  function Project(c: ExClass, message: string, cause: Option<Thrown>): Thrown {
    Thrown([c, RuntimeException, Exception], Some(message), cause, [])
  }

  /** The result of a Java method that either returns a value or throws. */
  datatype Outcome<T> = Ok(value: T) | Err(error: Thrown)
}
