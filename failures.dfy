/**
 * Outcomes of the back end's operations: a value, or the exception the Java code
 * throws. Exceptions are identified by their class, which sits in the Java class
 * hierarchy (see `Parent`), and carry the message `getMessage()` would return.
 */
module Failures {

  datatype Option<+T> = None | Some(value: T)

  /** The classes of the exceptions the core throws or handles. Framework classes
      that only sit between one of these and `RuntimeException` are collapsed. */
  datatype ExClass =
    | Throwable
    | Exception
    | RuntimeException
    | IOException
    | UserExistException
    | PostNotFoundException
    | ImageNotFoundException
    | AuthenticationException
    | UsernameNotFoundException
    | AuthorizationException
    | CommentNotFoundException
    | IllegalStateException
    | IncorrectResultSizeDataAccessException
    | NoSuchKeyException

  /** The direct superclass of each exception class (None for the root), one level
      nearer the root. */
  function Parent(c: ExClass): (p: Option<ExClass>)
    ensures p.None? <==> c == Throwable
    ensures p.Some? ==> Depth(p.value) + 1 == Depth(c)
  {
    match c
    case Throwable => None
    case Exception => Some(Throwable)
    case RuntimeException => Some(Exception)
    case IOException => Some(Exception)
    case UsernameNotFoundException => Some(AuthenticationException)
    case _ => Some(RuntimeException)
  }

  /** Distance from the root of the hierarchy. */
  function Depth(c: ExClass): nat
  {
    match c
    case Throwable => 0
    case Exception => 1
    case RuntimeException => 2
    case IOException => 2
    case UsernameNotFoundException => 4
    case _ => 3
  }

  /** A thrown exception: its class and its message (`null` is None). */
  datatype Failure = Failure(cls: ExClass, message: Option<string>)

  datatype Result<+T> = Ok(value: T) | Err(error: Failure)

  datatype Unit = Unit
}
