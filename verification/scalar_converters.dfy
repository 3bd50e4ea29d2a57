/** The read paths of `DateTimeConverter` and `IntPtrConverter`. The date-time
    parse (`DateTime.TryParse`, culture-sensitive) is a parameter; only what
    the converter does with its answer is modelled. */
module ScalarConverters {
  import opened Wrappers
  import opened Json

  /** The text around the offending input in the date-time format error. */
  const DateTimeErrorHead: string := "The JSON value '"
  const DateTimeErrorTail: string := "' could not be converted to System.DateTime."

  /** `Utf8JsonReader.GetString()`: the text of a string token, null for the
      `null` literal; any other token throws `InvalidOperationException`
      (with the library's message). */
  function GetString(token: Token): (r: Result<Option<string>, Exception>)
    ensures r.Success? <==> !token.OtherToken?
    ensures token.StringToken? ==> r == Success(Some(token.text))
    ensures token.NullToken? ==> r == Success(None)
    ensures token.OtherToken? ==> r.Failure? && r.error.InvalidOperation?
  {
    match token
    case StringToken(t) => Success(Some(t))
    case NullToken => Success(None)
    case OtherToken(kind) =>
      Failure(InvalidOperation("Cannot get the value of a token type '" + kind + "' as a string."))
  }

  /** The date-time format error for input `str`, a null input quoting as empty. */
  function DateTimeError(str: Option<string>): Exception
  {
    // C# concatenation reads a null operand as empty
    Format(DateTimeErrorHead + (if str.None? then "" else str.value) + DateTimeErrorTail)
  }

  /** `DateTimeConverter.Read`: a token that is neither a string nor `null`
      fails in `GetString`. Otherwise the string (null for `null`) is handed
      to `tryParse`, a null never parsing; on failure a `FormatException` is
      thrown whose message quotes the input. */
  function ReadDateTime<D>(token: Token, tryParse: string -> Option<D>): (r: Result<D, Exception>)
    ensures token.OtherToken? ==> r.Failure? && r.error.InvalidOperation?
    ensures r.Success? <==> token.StringToken? && tryParse(token.text).Some?
    ensures r.Success? ==> Some(r.value) == tryParse(token.text)
    ensures token.NullToken? ==> r == Failure(Format(DateTimeErrorHead + DateTimeErrorTail))
    ensures token.StringToken? && tryParse(token.text).None? ==>
      r == Failure(Format(DateTimeErrorHead + token.text + DateTimeErrorTail))
  {
    match GetString(token)
    case Failure(e) => Failure(e)
    case Success(str) =>
      var parsed := if str.None? then None else tryParse(str.value);
      match parsed
      case Some(d) => Success(d)
      case None =>
        assert DateTimeErrorHead + "" == DateTimeErrorHead;
        Failure(DateTimeError(str))
  }

  /** Two string tokens that both fail to parse produce the same message only
      when they hold the same text: the message identifies the input. */
  lemma DateTimeErrorNamesInput<D>(a: string, b: string, tryParse: string -> Option<D>)
    requires ReadDateTime(StringToken(a), tryParse).Failure?
    requires ReadDateTime(StringToken(b), tryParse).Failure?
    requires ReadDateTime(StringToken(a), tryParse).error == ReadDateTime(StringToken(b), tryParse).error
    ensures a == b
  {
    var m := ReadDateTime(StringToken(a), tryParse).error.message;
    var h := |DateTimeErrorHead|;
    assert m == DateTimeErrorHead + a + DateTimeErrorTail;
    assert m == DateTimeErrorHead + b + DateTimeErrorTail;
    assert |a| == |b|;
    assert a == m[h..h + |a|] == b;
  }

  /** `IntPtrConverter.Read`: an `IntPtr` is never read back, whatever the input. */
  function ReadIntPtr(reader: Reader): (r: Result<int, Exception>)
    ensures r.Failure? && r.error.InvalidOperation?
    ensures r.error.message == "Properties of type IntPtr cannot be deserialized from JSON."
  {
    Failure(InvalidOperation("Properties of type IntPtr cannot be deserialized from JSON."))
  }
}
