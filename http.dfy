/**
 * How a handler's failure becomes an HTTP response. Every handler catches
 * what it throws, gives the error the handler's default status when it has
 * none (`if (!err.statusCode) err.statusCode = …`) and passes it to the
 * app-wide responder, which answers with `error.statusCode || 500` and
 * `{ message: error.message }`. A JavaScript `TypeError` (a field read on a
 * null record) carries no status code, so it takes the catch default.
 */
module Http {
  import opened Wrappers

  /** A thrown value: its `statusCode` (None when unset) and its `message`
      (None when unset, as on the validation result `updateStatus` throws). */
  datatype Failure = Failure(statusCode: Option<int>, message: Option<string>)

  /** `throw` of an Error whose statusCode the handler set. */
  function Throw(code: int, message: string): Failure {
    Failure(Some(code), Some(message))
  }

  /** The TypeError V8 raises on reading `field` of null. */
  function NullRead(field: string): (f: Failure)
    ensures f.statusCode == None
  {
    Failure(None, Some("Cannot read properties of null (reading '" + field + "')"))
  }

  /** JavaScript truthiness of a status code: undefined and 0 are falsy. */
  predicate HasStatus(f: Failure) {
    f.statusCode.Some? && f.statusCode.value != 0
  }

  /** The catch block: `if (!err.statusCode) err.statusCode = default`. */
  function Caught(f: Failure, default: int): (g: Failure)
    ensures g.message == f.message
    ensures HasStatus(f) ==> g == f
    ensures !HasStatus(f) ==> g.statusCode == Some(default)
  {
    if HasStatus(f) then f else f.(statusCode := Some(default))
  }

  /** The responder's `error.statusCode || 500`. */
  function ResponderStatus(f: Failure): (s: int)
    ensures s != 0
    ensures HasStatus(f) ==> s == f.statusCode.value
    ensures !HasStatus(f) ==> s == 500
  {
    if HasStatus(f) then f.statusCode.value else 500
  }

  /** What the client receives: a success reply with the handler's JSON
      body, or the responder's `{ message }` with its status. */
  datatype Response<+B> =
    | Reply(status: int, body: B)
    | ErrorReply(status: int, message: Option<string>)

  /** The responder applied to a failure that reaches it. */
  function Respond<B>(f: Failure): (r: Response<B>)
    ensures r.ErrorReply? && r.message == f.message && r.status != 0
    ensures HasStatus(f) ==> r.status == f.statusCode.value
    ensures !HasStatus(f) ==> r.status == 500
  {
    ErrorReply(ResponderStatus(f), f.message)
  }

  /** The response a failure ends in, once caught with `default`. */
  function Fail<B>(f: Failure, default: int): (r: Response<B>)
    requires default != 0
    ensures r.ErrorReply? && r.message == f.message
    ensures r.status == (if HasStatus(f) then f.statusCode.value else default)
  {
    Respond(Caught(f, default))
  }
}
