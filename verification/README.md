# SerializationHelper core, modelled in Dafny

SerializationHelper is a thin facade over System.Text.Json. This project models the
logic it adds on top of that engine:

- **Configuration.** A `Serializer` holds three settings: `IncludeNullProperties`, its
  `DefaultOptions` (a `JsonSerializerOptions`) and its `DefaultConverters` list. A
  process-wide `DateTimeFormat` sits beside them. The setters for the format, the options
  and the list refuse null (and, for the format, empty) values with
  `ArgumentNullException`. The value in effect stays unchanged.
- **Per-call snapshot.** `SerializeJson` and `DeserializeJson` each copy the default
  options and append every default converter, in order, with no de-duplication.
  `SerializeJson` then sets the null-ignore condition and indentation. Null input
  short-circuits in `SerializeJson` (null) and in `CopyObject` (`default(T)`).
- **ExceptionConverter.** `CanConvert` accepts `Exception` and every subclass. `Write`
  drops `TargetSite`, and drops null-valued properties under `WhenWritingNull`. It then
  writes either nothing at all or one object with the surviving properties in order.
  `Read` always throws `NotSupportedException`.
- **NameValueCollectionConverter.** `Write` emits one member per key, in key-index order.
  Each member holds the key's values joined into one string, or `null` when no value is
  present. The join keeps the source's counter quirk: a non-empty value at index
  `j > 0` is always preceded by `", "`, even when nothing was written before it. So
  `["", "b"]` gives `", b"`. `Read` always throws `NotImplementedException`.
- **Other converters.** `DateTimeConverter.Read` throws a `FormatException` that quotes
  its input when the parse fails. `IntPtrConverter.Read` always throws
  `InvalidOperationException`. `IntPtrConverter` is not among the default converters.

JSON text is abstracted to a small value type (`Json.Value`: null, string, ordered
object, other) plus `Json.Written` for "nothing written". Some parts become parameters:
the JSON engine (`JsonSerializer.Serialize`/`Deserialize`), `DateTime.TryParse`, and the
engine's encoding of an exception's property values. Reflection over an exception's
properties becomes a sequence of (name, nullable value) pairs.

Modules: `Wrappers` (Option/Result), `Json` (values, .NET string helpers, exceptions),
`Sequences` (LINQ `Where` and order preservation), `JsonOptions` (options and the
converter list), `SerializerFacade`, `ExceptionConverter`,
`NameValueCollectionConverter`, `ScalarConverters`.

## Behaviour worth noting

- Assigning null to `DefaultConverters` or `DefaultOptions` throws `ArgumentNullException` and keeps the previous value.
- Composing a snapshot does not de-duplicate converters. A converter already present in the default options, or listed twice, appears as often as it was registered (`SerializerFacade.Compose`, multiset postcondition).
- The name/value join equals the `", "` join of the present values only when the key's first value is present. Otherwise one extra `", "` is written in front (`NameValueCollectionConverter.JoinedIsCommaJoin`).
- The name/value converter serializes its dictionary with no options, so `null` members are written even when the outer options ignore nulls.
- The ignore condition is set to `WhenWritingNull` exactly when `IncludeNullProperties` is false. When it is true, the condition is whatever the default options carry, so `WhenWritingNull` coincides with "nulls excluded" only when the default options do not themselves ignore nulls.

## Model

| member | source | states |
|---|---|---|
| `SerializerFacade.SetDateTimeFormat` | src/SerializationHelper/Serializer.cs:24-35 | A null or empty format throws `ArgumentNullException("DateTimeFormat")` and the format in effect is unchanged; any other value becomes the format. |
| `SerializerFacade.DateTimeFormatNeverEmpty` | src/SerializationHelper/Serializer.cs:30-34 | Starting from a non-empty format, any run of assignments leaves a non-empty format: the last accepted value, or the starting format when every assignment was refused. |
| `SerializerFacade.InitialDateTimeFormatNeverEmpty` | src/SerializationHelper/Serializer.cs:78 | Starting from the initial format `yyyy-MM-ddTHH:mm:ss.ffffffZ`, no run of assignments leaves the format empty, and if every assignment is refused the initial format is still in effect. |
| `SerializerFacade.New` | src/SerializationHelper/Serializer.cs:40-94 | A new serializer excludes null properties. Its options are the engine defaults except for three settings: trailing commas allowed, comments skipped, and number handling exactly `AllowReadingFromString`. So the ignore condition is `Never`, indentation is off, and no converter is in the options. The five default converters are kept apart. |
| `SerializerFacade.SetDefaultOptions` | src/SerializationHelper/Serializer.cs:45-56 | Null throws `ArgumentNullException("DefaultOptions")` and leaves the serializer unchanged; otherwise only the options change. |
| `SerializerFacade.SetDefaultConverters` | src/SerializationHelper/Serializer.cs:61-72 | Null throws `ArgumentNullException("DefaultConverters")` (no reset) and leaves the serializer unchanged; otherwise only the list changes. |
| `JsonOptions.InitialConverters` | src/SerializationHelper/Serializer.cs:87-94 | The default list is exactly Exception, NameValueCollection, string-enum, DateTime and IPAddress converters, in that order, and holds no `IntPtrConverter`. |
| `JsonOptions.AddAll` | src/SerializationHelper/Serializer.cs:125-128 | Adding the converters one by one yields the original list followed by all of them in order, with nothing dropped or merged. |
| `SerializerFacade.Compose` | src/SerializationHelper/Serializer.cs:123-161 | The snapshot lists the copied converters, then every default converter in order, with multiplicities added (no de-duplication). Every other option is copied. When serializing, indentation equals `pretty`; ignore is `WhenWritingNull` if nulls are excluded and is inherited otherwise. |
| `SerializerFacade.NewSerializerIgnoresNullsIffExcluded` | src/SerializationHelper/Serializer.cs:40-161 | For a newly constructed serializer with `IncludeNullProperties` set to either value, a serializing snapshot ignores `WhenWritingNull` when the setting is false and `Never` when it is true. Indentation equals `pretty`. |
| `SerializerFacade.SerializeJson` | src/SerializationHelper/Serializer.cs:139-166 | `pretty` defaults to true. The result is null exactly when the object is null; otherwise it is the engine's output under this call's snapshot. |
| `SerializerFacade.DeserializeJson` | src/SerializationHelper/Serializer.cs:121-131 | The engine runs with a copy of the default options that differs only in having every default converter appended, in order, after the options' own; ignore condition and indentation are the defaults' own. |
| `SerializerFacade.CopyObject` | src/SerializationHelper/Serializer.cs:174-180 | A null object yields `default(T)`; otherwise the copy is the compact serialization read back through the deserializing snapshot. |
| `ExceptionConverter.CanConvert` | src/SerializationHelper/Serializer.cs:201-204 | A type is accepted exactly when `System.Exception` is among its ancestors (itself included). |
| `ExceptionConverter.SubclassesConvertible` | src/SerializationHelper/Serializer.cs:203 | Any class derived from an accepted type is accepted. |
| `ExceptionConverter.Read` | src/SerializationHelper/Serializer.cs:213-216 | Reading always fails with `NotSupportedException("Deserializing exceptions is not allowed")`, whatever the input. |
| `Sequences.Where` | src/SerializationHelper/Serializer.cs:229 | The filtered list holds exactly the elements that satisfy the condition, each as many times as it occurs in the input; the others not at all. |
| `Sequences.WhereKeepsOrder` | src/SerializationHelper/Serializer.cs:229-233 | Filtering keeps the enumeration order (the result is a subsequence). |
| `ExceptionConverter.Serializable` | src/SerializationHelper/Serializer.cs:226-236 | The property list contains exactly the properties not named `TargetSite` and, under `WhenWritingNull`, with a non-null value. It keeps their order and equals a single filter by that combined rule. |
| `ExceptionConverter.WriteMembers` | src/SerializationHelper/Serializer.cs:246-250 | One member per property, same order, carrying the property's name and its value (`null` for a null value). |
| `ExceptionConverter.Write` | src/SerializationHelper/Serializer.cs:224-253 | Nothing is written exactly when no property survives. Otherwise one object is written with one member per surviving property, in order, and no member is named `TargetSite`. |
| `ExceptionConverter.WrittenMembersAreKept` | src/SerializationHelper/Serializer.cs:231-250 | Each written member comes from an input property other than `TargetSite` and, under `WhenWritingNull`, from a non-null value. |
| `NameValueCollectionConverter.Read` | src/SerializationHelper/Serializer.cs:268 | Reading always fails with `NotImplementedException`, whatever the input. |
| `NameValueCollectionConverter.Joined` | src/SerializationHelper/Serializer.cs:286-302 | A key's joined value is null exactly when its value array is null or every value in it is null or empty. |
| `NameValueCollectionConverter.FormatValues` | src/SerializationHelper/Serializer.cs:286-302 | The loop, whose counter advances on every value, computes the joined value: the concatenation, over present values `j`, of `", "` (omitted only for `j == 0`) and the value. |
| `NameValueCollectionConverter.PiecesAreCommaJoin` | src/SerializationHelper/Serializer.cs:290-301 | The concatenated contributions equal the `", "` join of the present values, preceded by one extra `", "` exactly when the first value is absent and a later one is present. |
| `NameValueCollectionConverter.JoinedIsCommaJoin` | src/SerializationHelper/Serializer.cs:286-302 | The joined value is null if no value is present; otherwise it is the `", "` join of the present values, with a leading `", "` exactly when the array's first value is null or empty. |
| `NameValueCollectionConverter.JoinedExamples` | src/SerializationHelper/Serializer.cs:292-300 | `["", "b"]` joins to `", b"`, `["a", "", "c"]` to `"a, c"` and `["a", "b"]` to `"a, b"`; `[null, ""]`, `[]` and a null array give null. |
| `NameValueCollectionConverter.Write` | src/SerializationHelper/Serializer.cs:276-309 | A null collection writes nothing. Otherwise one object is written with one member per key, in key order, with distinct names, each holding the joined value or `null`; null members are kept whatever the options say. |
| `ScalarConverters.GetString` | src/SerializationHelper/Serializer.cs:326 | A string token gives its text and the `null` literal gives null; any other token throws `InvalidOperationException`. |
| `ScalarConverters.ReadDateTime` | src/SerializationHelper/Serializer.cs:324-332 | A token that is not a string or `null` throws `InvalidOperationException`. Reading succeeds exactly when the token is a string that parses, returning the parsed value. A string that does not parse throws `FormatException("The JSON value '<text>' could not be converted to System.DateTime.")`; `null` gives the same message with empty text. |
| `ScalarConverters.DateTimeErrorNamesInput` | src/SerializationHelper/Serializer.cs:331 | Two failed reads of string tokens with the same message were given the same text. |
| `ScalarConverters.ReadIntPtr` | src/SerializationHelper/Serializer.cs:378-381 | Reading always fails with `InvalidOperationException` and the source's message, whatever the input. |

## Left out

- JSON text generation and parsing by System.Text.Json (`Utf8JsonWriter`/`Utf8JsonReader`): escaping, whitespace, indentation layout, trailing commas, comments and numbers read from strings. Output is an abstract value; the engine is a function parameter.
- Converter dispatch (which registered converter the engine picks for a type): it happens inside System.Text.Json.
- `DateTimeConverter.Write` and `DateTime.TryParse`: date formatting and parsing are culture-sensitive library calls. The parse is a parameter; the write only passes the current `DateTimeFormat` to `DateTime.ToString`.
- `IPAddressConverter` (`IPAddress.Parse`/`ToString`), `IntPtrConverter.Write` (`IntPtr.ToString`) and `JsonStringEnumConverter`: thin wrappers over library code.
- The unused `_AcceptedFormats` list: dead code.
- `DeserializeJson(byte[])`: UTF-8 decoding is a library call.
- Object identity of the settings: `DefaultOptions` and `DefaultConverters` store and return the caller's object by reference, so changing that object in place (for example `DefaultConverters.Add(c)`) changes the serializer. The model treats options and converter list as values; such an in-place change corresponds to assigning the changed value.
- ScalarConverters.GetString: for a non-string token only the exception type is stated; its message text belongs to the JSON library.
- Exceptions thrown by the engine itself (malformed JSON, a null JSON string, a null entry in the converter list, a property value the engine cannot write).
- Reflection over exception properties: replaced by an input sequence of (name, value) pairs.
- NameValueCollectionConverter.Write: requires distinct keys, which a `NameValueCollection` always has. Null keys, and `Dictionary.Add` throwing on a null or repeated key, are not modelled.
- Unsynchronized access to the static `DateTimeFormat`: a concurrency concern outside a sequential model.
- src/Test/Program.cs: an interactive console driver with no logic of its own.
