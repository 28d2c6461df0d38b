/** The request and response shapes shared by the route handlers: JSON
    replies with a status, JavaScript truthiness of request fields, and the
    pairing of a handler's new store with its reply. */
module Http {
  import opened Wrappers
  import opened Schema

  /** `NextResponse.json(value, { status })` or `NextResponse.json({ error }, { status })`. */
  datatype Reply<T> = Json(status: int, value: T) | Failure(status: int, error: string)

  /** What a handler leaves behind: the store after every statement it
      committed, and the reply it sent. */
  datatype Handled<T> = Handled(db: Db, reply: Reply<T>)

  /** A date field of a JSON body: the text the client sent and the instant
      `new Date(text)` makes of it. */
  datatype Stamp = Stamp(text: string, instant: int)

  /** `!!x` for a numeric field: `undefined`, `null` and `0` are falsy. */
  predicate TruthyInt(o: Option<int>)
  {
    o.Some? && o.value != 0
  }

  /** `!!x` for a text field: `undefined`, `null` and `""` are falsy. */
  predicate TruthyText(o: Option<string>)
  {
    o.Some? && o.value != ""
  }

  /** `!!x` for a date field sent as text. */
  predicate TruthyStamp(o: Option<Stamp>)
  {
    o.Some? && o.value.text != ""
  }

  /** `x ? x : undefined` for a numeric field: a falsy value is not stored. */
  function KeepTruthy(o: Option<int>): (r: Option<int>)
    ensures r.Some? <==> TruthyInt(o)
    ensures r.Some? ==> r == o
  {
    if TruthyInt(o) then o else None
  }
}
