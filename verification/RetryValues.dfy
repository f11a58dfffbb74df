/** Values in headers and status metadata, and what Python makes of them. */
module RetryValues {

  datatype Option<+T> = None | Some(value: T)

  /** A header value; `Opaque` is anything `int` does not accept. */
  datatype Value = Null | Int(n: int) | Str(s: string) | Opaque(tag: string)

  /** What `int` makes of a string, if anything. */
  type IntParser = string -> Option<int>

  /** `str.strip`, for whatever Python counts as white space. */
  type Stripper = string -> string

  function Max(a: int, b: int): int {
    if a < b then b else a
  }

  function AsInt(parse: IntParser, v: Value): Option<int> {
    match v
    case Int(n) => Some(n)
    case Str(s) => parse(s)
    case _ => None
  }

  /** Python's truth of an optional string. */
  predicate Given(text: Option<string>) {
    text.Some? && text.value != ""
  }
}
