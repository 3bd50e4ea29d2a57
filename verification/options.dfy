/** The part of `JsonSerializerOptions` the serializer sets or copies, and the
    converters it registers. */
module JsonOptions {

  /** `JsonIgnoreCondition`: which property values the engine leaves out when writing. */
  datatype IgnoreCondition = Never | Always | WhenWritingDefault | WhenWritingNull

  /** `JsonCommentHandling`: what the reader does with comments. */
  datatype CommentHandling = Disallow | Skip | Allow

  /** `JsonNumberHandling`, a flags enumeration: one boolean per flag. */
  datatype NumberHandling = NumberHandling(
    allowReadingFromString: bool,
    writeAsString: bool,
    allowNamedFloatingPointLiterals: bool)

  /** The converters the serializer knows of. Each registration is a separate
      object in the source; registering one kind twice gives two entries.
      `Custom` stands for a converter supplied by the application. */
  datatype Converter =
    | ExceptionConverter
    | NameValueCollectionConverter
    | StringEnumConverter
    | DateTimeConverter
    | IPAddressConverter
    | IntPtrConverter
    | Custom(id: nat)

  /** A `JsonSerializerOptions` object, as far as the serializer touches it.
      Copying an options object copies every one of these fields. */
  datatype Options = Options(
    allowTrailingCommas: bool,
    readCommentHandling: CommentHandling,
    numberHandling: NumberHandling,
    defaultIgnoreCondition: IgnoreCondition,
    writeIndented: bool,
    converters: seq<Converter>)

  /** `new JsonSerializerOptions()`: the engine's own defaults. */
  const Fresh: Options :=
    Options(false, Disallow, NumberHandling(false, false, false), Never, false, [])

  /** The options a new serializer starts with: trailing commas allowed,
      comments skipped, numbers readable from strings. */
  const Initial: Options :=
    Fresh.(allowTrailingCommas := true,
           readCommentHandling := Skip,
           numberHandling := NumberHandling(true, false, false))

  /** The converter list a new serializer starts with. */
  function InitialConverters(): (r: seq<Converter>)
    ensures |r| == 5
    ensures r[0] == ExceptionConverter && r[1] == NameValueCollectionConverter
    ensures r[2] == StringEnumConverter && r[3] == DateTimeConverter && r[4] == IPAddressConverter
    ensures IntPtrConverter !in r
  {
    [ExceptionConverter, NameValueCollectionConverter, StringEnumConverter, DateTimeConverter, IPAddressConverter]
  }

  /** `foreach (c in items) list.Add(c)`: one `Add` per item, in order, with no
      check for entries already present. */
  function AddAll(list: seq<Converter>, items: seq<Converter>): (r: seq<Converter>)
    ensures r == list + items
    decreases |items|
  {
    if items == [] then list
    else AddAll(list + [items[0]], items[1..])
  }
}
