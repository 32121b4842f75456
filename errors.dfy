/** The application's exception family (backend/app/core/exceptions.py): a
    base error that carries a free message, a status code (400 unless given)
    and optional response headers, and the named kinds that fix those three. */
module Errors {
  import opened Text

  datatype Error =
    | AppError(msg: string, code: int, hdrs: Option<map<string, string>>)
    | EntityNotFound(entity: string, identity: string)
    | AuthenticationFailed(detail: string)
    | PermissionDenied(detail: string)
    | DuplicateEntity(entity: string, field: string, value: string)
    | OutOfStock(product: string, requested: int, available: int)
    | InvalidOrderState(detail: string)
  {
    /** The HTTP status the transport layer answers with. Each named kind
        has its own code; only the base error lets the raiser choose. */
    function StatusCode(): (s: int)
      ensures AppError? ==> s == code
      ensures !AppError? ==> (s == 404 <==> EntityNotFound?)
      ensures !AppError? ==> (s == 401 <==> AuthenticationFailed?)
      ensures !AppError? ==> (s == 403 <==> PermissionDenied?)
      ensures !AppError? ==> (s == 409 <==> DuplicateEntity?)
      ensures !AppError? ==> (s == 400 <==> OutOfStock? || InvalidOrderState?)
    {
      match this
      case AppError(_, c, _) => c
      case EntityNotFound(_, _) => 404
      case AuthenticationFailed(_) => 401
      case PermissionDenied(_) => 403
      case DuplicateEntity(_, _, _) => 409
      case OutOfStock(_, _, _) => 400
      case InvalidOrderState(_) => 400
    }

    /** The human-readable message. */
    function Message(): string
    {
      match this
      case AppError(m, _, _) => m
      case EntityNotFound(e, id) => e + " with identity '" + id + "' not found"
      case AuthenticationFailed(d) => d
      case PermissionDenied(d) => d
      case DuplicateEntity(e, f, v) => e + " with " + f + " '" + v + "' already exists"
      case OutOfStock(p, r, a) =>
        "Insufficient stock for '" + p + "'. Requested: " + IntToString(r) + ", Available: " + IntToString(a)
      case InvalidOrderState(d) => d
    }

    /** Extra response headers: only an authentication failure carries one
        (or a base error raised with some). */
    function Headers(): (h: Option<map<string, string>>)
      ensures AuthenticationFailed? ==> h == Some(map["WWW-Authenticate" := "Bearer"])
      ensures !AppError? && !AuthenticationFailed? ==> h == None
    {
      match this
      case AppError(_, _, hs) => hs
      case AuthenticationFailed(_) => Some(map["WWW-Authenticate" := "Bearer"])
      case _ => None
    }
  }

  /** The base exception raised with only a message: status 400, no headers. */
  function BaseError(message: string): (e: Error)
    ensures e.StatusCode() == 400 && e.Headers() == None && e.Message() == message
  {
    AppError(message, 400, None)
  }

  function UserNotFound(id: string): (e: Error)
    ensures e.StatusCode() == 404
    ensures e.Message() == "User with identity '" + id + "' not found"
  {
    EntityNotFound("User", id)
  }

  function ProductNotFound(id: string): (e: Error)
    ensures e.StatusCode() == 404
    ensures e.Message() == "Product with identity '" + id + "' not found"
  {
    EntityNotFound("Product", id)
  }

  /** AuthenticationError() raised without a message. */
  const DefaultAuthenticationError: Error := AuthenticationFailed("Could not validate credentials")

  /** PermissionDeniedError() raised without a message. */
  const DefaultPermissionDenied: Error := PermissionDenied("Not enough permissions")

  /** An out-of-stock message names the product, the requested count and the available count. */
  lemma OutOfStockMessageNamesAll(product: string, requested: int, available: int)
    ensures var m := OutOfStock(product, requested, available).Message();
      IsSubstring(product, m) && IsSubstring(IntToString(requested), m)
      && IsSubstring(IntToString(available), m)
  {
    var r, a := IntToString(requested), IntToString(available);
    var m := OutOfStock(product, requested, available).Message();
    IsSubstringOfConcat("Insufficient stock for '", product, "'. Requested: " + r + ", Available: " + a);
    assert m == "Insufficient stock for '" + product + ("'. Requested: " + r + ", Available: " + a);
    IsSubstringOfConcat("Insufficient stock for '" + product + "'. Requested: ", r, ", Available: " + a);
    assert m == ("Insufficient stock for '" + product + "'. Requested: ") + r + (", Available: " + a);
    IsSubstringOfConcat("Insufficient stock for '" + product + "'. Requested: " + r + ", Available: ", a, "");
    assert m == ("Insufficient stock for '" + product + "'. Requested: " + r + ", Available: ") + a + "";
  }

  datatype Result<T> = Ok(value: T) | Err(error: Error)
}
