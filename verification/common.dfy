// Shared vocabulary of the takenlijst server model: optional values,
// resolver results, the error codes resolvers attach to their errors,
// and the byte length Rust's `str::len` reports.

module Common {

  /// Row identifiers. The server uses random UUID strings; the model draws
  /// fresh ones from a counter kept by the store.
  type Id = nat

  /// A 32-bit signed integer (GraphQL `Int`, SQLite `INTEGER` read as `i32`).
  type I32 = x: int | -0x8000_0000 <= x < 0x8000_0000

  datatype Option<T> = None | Some(value: T)
  {
    function UnwrapOr(default: T): (r: T)
      ensures Some? ==> r == value
      ensures None? ==> r == default
    {
      match this
      case None => default
      case Some(v) => v
    }

    /// Rust's `Option::or`: keep this value when present, else take `other`.
    function Or(other: Option<T>): (r: Option<T>)
      ensures Some? ==> r == this
      ensures None? ==> r == other
    {
      if Some? then this else other
    }
  }

  /// Errors a resolver can return. The first five carry an `extensions.code`;
  /// the others are plain messages (a missing login, an unparseable time
  /// zone name in the resolvers that map it with `Error::new`, a query
  /// whose single expected row was missing, and a stored date or time that
  /// chrono rejects, passed on with `?`).
  datatype Error =
    | ValidationFailed
    | NotFound
    | ConflictStaleWrite
    | PermissionDenied
    | Internal
    | AuthenticationRequired
    | InvalidTimezone
    | QueryFailed
    | ParseFailed

  /// The `extensions.code` string attached to an error, if any.
  function Code(e: Error): (c: Option<string>)
    ensures c.Some? <==> (e.ValidationFailed? || e.NotFound? || e.ConflictStaleWrite? ||
                          e.PermissionDenied? || e.Internal?)
    ensures e.Internal? ==> c == Some("INTERNAL_ERROR")
  {
    match e
    case ValidationFailed => Some("VALIDATION_FAILED")
    case NotFound => Some("NOT_FOUND")
    case ConflictStaleWrite => Some("CONFLICT_STALE_WRITE")
    case PermissionDenied => Some("PERMISSION_DENIED")
    case Internal => Some("INTERNAL_ERROR")
    case _ => None
  }

  lemma CodesAreDistinct(a: Error, b: Error)
    requires Code(a).Some? && Code(a) == Code(b)
    ensures a == b
  {
  }

  datatype Result<T> = Ok(value: T) | Err(error: Error)

  /// Number of bytes the UTF-8 encoding of `c` takes.
  function Utf8Width(c: char): (w: nat)
    ensures 1 <= w <= 4
    ensures w == 1 <==> c as int < 0x80
  {
    if c as int < 0x80 then 1
    else if c as int < 0x800 then 2
    else if c as int < 0x1_0000 then 3
    else 4
  }

  /// `str::len` in Rust: the UTF-8 byte length of a string.
  function Utf8Length(s: string): (n: nat)
    ensures |s| <= n <= 4 * |s|
    ensures (forall i :: 0 <= i < |s| ==> s[i] as int < 0x80) ==> n == |s|
  {
    if |s| == 0 then 0 else Utf8Width(s[0]) + Utf8Length(s[1..])
  }
}
