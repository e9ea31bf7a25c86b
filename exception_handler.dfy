/**
 * `GlobalExceptionHandler`: the seven `@ExceptionHandler` methods as a table from
 * exception class to HTTP status and body, and the rule by which the framework picks
 * the handler for a thrown exception: the handler declared for the nearest class on
 * the way from the exception's own class up to the root of the hierarchy.
 */
module Advice {

  import opened Failures

  /** A response body: the exception message as plain text, or a `MessageResponse`
      object wrapping it. */
  datatype Body = PlainText(text: Option<string>) | MessageResponse(message: Option<string>)

  datatype Response = Response(status: nat, body: Body)

  const BAD_REQUEST: nat := 400
  const UNAUTHORIZED: nat := 401
  const NOT_FOUND: nat := 404
  const INTERNAL_SERVER_ERROR: nat := 500

  /** `a` is `c` or one of its superclasses. */
  predicate IsA(c: ExClass, a: ExClass)
    decreases Depth(c)
  {
    c == a || (Parent(c).Some? && IsA(Parent(c).value, a))
  }

  /** The classes named in an `@ExceptionHandler` annotation. */
  predicate HasHandler(c: ExClass)
  {
    c in {UserExistException, PostNotFoundException, UsernameNotFoundException, RuntimeException,
          IOException, AuthorizationException, CommentNotFoundException}
  }

  /** The handler method declared for a handled class, applied to the exception. */
  function Handle(c: ExClass, message: Option<string>): (r: Response)
    requires HasHandler(c)
    ensures r.status == BAD_REQUEST <==> c == UserExistException
    ensures r.status == UNAUTHORIZED <==> c == AuthorizationException
    ensures r.status == INTERNAL_SERVER_ERROR <==> c == IOException
    ensures r.status == NOT_FOUND <==>
      c in {PostNotFoundException, UsernameNotFoundException, RuntimeException, CommentNotFoundException}
    ensures r.body.MessageResponse? <==> c in {AuthorizationException, CommentNotFoundException}
    ensures r.body == PlainText(message) || r.body == MessageResponse(message)
  {
    match c
    case UserExistException => Response(BAD_REQUEST, PlainText(message))
    case PostNotFoundException => Response(NOT_FOUND, PlainText(message))
    case UsernameNotFoundException => Response(NOT_FOUND, PlainText(message))
    case RuntimeException => Response(NOT_FOUND, PlainText(message))
    case IOException => Response(INTERNAL_SERVER_ERROR, PlainText(message))
    case AuthorizationException => Response(UNAUTHORIZED, MessageResponse(message))
    case CommentNotFoundException => Response(NOT_FOUND, MessageResponse(message))
  }

  /** The class whose handler applies to an exception of class `c`: the first class with
      a handler on the walk from `c` towards the root. */
  function HandlerClass(c: ExClass): (h: Option<ExClass>)
    decreases Depth(c)
    ensures h.Some? ==> HasHandler(h.value) && IsA(c, h.value)
    ensures h.None? ==> forall a :: IsA(c, a) ==> !HasHandler(a)
  {
    if HasHandler(c) then Some(c)
    else match Parent(c)
      case None => None
      case Some(p) => HandlerClass(p)
  }

  /** The response sent for a failure that reaches the controller layer; None when no
      handler applies and the framework's default error handling takes over. The table:
      400 for an existing user, 401 for an authorization failure, 500 for an I/O failure,
      and 404 for every other runtime exception, whichever subclass it is. */
  function Resolve(f: Failure): (r: Option<Response>)
    ensures f.cls == UserExistException ==> r == Some(Response(BAD_REQUEST, PlainText(f.message)))
    ensures f.cls == AuthorizationException ==> r == Some(Response(UNAUTHORIZED, MessageResponse(f.message)))
    ensures f.cls == CommentNotFoundException ==> r == Some(Response(NOT_FOUND, MessageResponse(f.message)))
    ensures f.cls == IOException ==> r == Some(Response(INTERNAL_SERVER_ERROR, PlainText(f.message)))
    ensures IsA(f.cls, RuntimeException) && f.cls !in {UserExistException, AuthorizationException, CommentNotFoundException} ==>
      r == Some(Response(NOT_FOUND, PlainText(f.message)))
    ensures !IsA(f.cls, RuntimeException) && f.cls != IOException ==> r.None?
  {
    match HandlerClass(f.cls)
    case None => None
    case Some(h) => Some(Handle(h, f.message))
  }

  /** Every superclass of `c` is at most as deep as `c`. */
  lemma {:induction false} IsADepth(c: ExClass, a: ExClass)
    requires IsA(c, a)
    ensures Depth(a) <= Depth(c)
    decreases Depth(c)
  {
    if c != a {
      IsADepth(Parent(c).value, a);
    }
  }

  /** The chosen handler is the most specific one: no handled superclass of the
      exception's class lies strictly between the class and the chosen one. */
  lemma {:induction false} HandlerClassMostSpecific(c: ExClass, a: ExClass)
    requires HasHandler(a) && IsA(c, a)
    ensures HandlerClass(c).Some?
    ensures Depth(a) <= Depth(HandlerClass(c).value)
    decreases Depth(c)
  {
    if !HasHandler(c) {
      IsADepth(c, a);
      if c != a {
        HandlerClassMostSpecific(Parent(c).value, a);
      }
    } else {
      IsADepth(c, a);
    }
  }

  /** Each handled class is answered by its own handler, even where a handler for a
      superclass exists too. */
  lemma OwnHandlerWins(c: ExClass, message: Option<string>)
    requires HasHandler(c)
    ensures Resolve(Failure(c, message)) == Some(Handle(c, message))
  {
  }
}
