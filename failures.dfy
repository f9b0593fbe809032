/** Exceptions of the fallback mechanism as values.

    A Java exception is modelled by its class (Kind), the exception it wraps
    (cause) and the exceptions attached to it with addSuppressed (suppressed).
    An operation that returns a value or throws becomes a Result. */
module Failures {

  datatype Option<+T> = None | Some(value: T)

  /** The exception classes that the fallback code throws, catches or inspects. */
  datatype Kind =
    | IoFailure                          // java.io.IOException, no more specific class
    | NoSuchFile                         // java.nio.file.NoSuchFileException
    | FileAlreadyExists                  // java.nio.file.FileAlreadyExistsException
    | FileNotFound                       // java.io.FileNotFoundException
    | FallbackFileNotYetCreated          // FallbackFile.FallbackFileNotYetCreated (an IOException)
    | UnableToAcquireLock                // LockedFile.UnableToAcquireLock (unchecked)
    | UnableToReleaseLock                // LockedFile.UnableToReleaseLock (unchecked)
    | TryingToDeleteNonExistingLockFile  // LockedFile.TryingToDeleteNonExistingLockFile (unchecked)
    | FallbackWriteFailed                // the handlers' FallbackWriteFailed (unchecked)
    | IllegalState                       // java.lang.IllegalStateException
    | Unchecked                          // a plain java.lang.RuntimeException
    | Thrown(tag: nat, unchecked: bool)  // raised by a collaborator: a loader or a marshaller

  /** Whether an exception of this class is a RuntimeException. */
  predicate IsUnchecked(k: Kind) {
    match k
    case UnableToAcquireLock => true
    case UnableToReleaseLock => true
    case TryingToDeleteNonExistingLockFile => true
    case FallbackWriteFailed => true
    case IllegalState => true
    case Unchecked => true
    case Thrown(_, unchecked) => unchecked
    case _ => false
  }

  /** Whether an exception of this class is a java.io.IOException. */
  predicate IsIoException(k: Kind) {
    k.IoFailure? || k.NoSuchFile? || k.FileAlreadyExists? || k.FileNotFound? || k.FallbackFileNotYetCreated?
  }

  datatype Error = Error(kind: Kind, cause: Option<Error>, suppressed: seq<Error>)

  /** A new exception with no cause. */
  function Raise(kind: Kind): Error {
    Error(kind, None, [])
  }

  /** A new exception wrapping `cause`. */
  function Wrap(kind: Kind, cause: Error): Error {
    Error(kind, Some(cause), [])
  }

  /** Throwable.addSuppressed: the same exception, with `other` appended to its suppressed list. */
  function AddSuppressed(e: Error, other: Error): Error {
    e.(suppressed := e.suppressed + [other])
  }

  datatype Result<+T> = Ok(value: T) | Err(error: Error)

  /** The result of a void operation: it returns normally or throws. */
  type Outcome = Result<()>

  const Done: Outcome := Ok(())

  /** Forgets the value of a result, keeping whether it threw. */
  function Void<T>(r: Result<T>): Outcome {
    if r.Ok? then Done else Err(r.error)
  }

  /** `try { body } finally { cleanup }`: an exception thrown by the cleanup replaces
      whatever the body produced. */
  function Finally<T>(body: Result<T>, cleanup: Outcome): Result<T> {
    if cleanup.Err? then Err(cleanup.error) else body
  }

  /** `try (resource) { body }`: the resource is closed after the body; when both throw,
      the close failure is suppressed onto the body's exception. */
  function WithResource<T>(body: Result<T>, close: Outcome): Result<T> {
    if body.Err? then
      (if close.Err? then Err(AddSuppressed(body.error, close.error)) else body)
    else Finally(body, close)
  }
}
