/** The abstract JSON produced by the converters, and the exceptions the
    modelled code throws. Text layout (escaping, whitespace, indentation) is
    the JSON engine's business and is not represented. */
module Json {
  import opened Wrappers

  /** A JSON value as written by a converter. Objects keep their members in
      writing order. `Other` stands for anything the engine writes for a
      value whose shape this model does not look into (numbers, booleans,
      arrays, nested objects written by reflection). */
  datatype Value =
    | Null
    | Str(text: string)
    | Obj(fields: seq<Field>)
    | Other(token: string)

  /** One `"name": value` member of an object. */
  datatype Field = Field(name: string, value: Value)

  /** What a converter's `Write` leaves in the writer: nothing at all, or one value. */
  datatype Written = Nothing | Wrote(value: Value)

  /** A `Utf8JsonReader` positioned on a value: the JSON text still to be read. */
  datatype Reader = Reader(remaining: string)

  /** A JSON token as `Utf8JsonReader` sees it, for reading a string:
      a string token, the `null` literal, or any other token (number,
      boolean, start of an object or array), named by its token type. */
  datatype Token = StringToken(text: string) | NullToken | OtherToken(tokenType: string)

  /** A .NET string that may be null, written as a JSON string or `null`. */
  function OfString(s: Option<string>): (v: Value)
    ensures v == Null <==> s.None?
    ensures s.Some? ==> v.Str? && v.text == s.value
  {
    match s
    case None => Null
    case Some(t) => Str(t)
  }

  /** `String.IsNullOrEmpty`. */
  predicate IsNullOrEmpty(s: Option<string>) {
    s.None? || s.value == ""
  }

  /** C#'s string `a + b` when `a` may be null: a null operand reads as empty. */
  function Concat(a: Option<string>, b: string): string
  {
    match a
    case None => b
    case Some(x) => x + b
  }

  /** The exceptions thrown by the modelled code, by .NET exception class. */
  datatype Exception =
    | ArgumentNull(paramName: string)
    | NotSupported(message: string)
    | NotImplemented
    | InvalidOperation(message: string)
    | Format(message: string)
}
