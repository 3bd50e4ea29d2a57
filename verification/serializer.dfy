/** The `Serializer` facade: its validated configuration properties, the
    options snapshot each call composes, and the null short-circuits of
    `SerializeJson` and `CopyObject`. The JSON engine itself
    (`JsonSerializer.Serialize`/`Deserialize`) is a parameter. */
module SerializerFacade {
  import opened Wrappers
  import opened Json
  import opened JsonOptions

  /** The format `DateTimeConverter.Write` uses until it is reassigned. */
  const DefaultDateTimeFormat: string := "yyyy-MM-ddTHH:mm:ss.ffffffZ"

  /** The per-instance configuration of a serializer. The date-time format is
      process-wide (a static property) and is kept apart from it. */
  datatype Serializer = Serializer(
    includeNullProperties: bool,
    defaultOptions: Options,
    defaultConverters: seq<Converter>)

  /** A freshly constructed serializer: the engine's default options with
      three settings changed, and the five default converters kept apart. */
  function New(): (s: Serializer)
    ensures !s.includeNullProperties
    ensures s.defaultOptions.allowTrailingCommas && s.defaultOptions.readCommentHandling == Skip
    ensures s.defaultOptions.numberHandling == NumberHandling(true, false, false)
    ensures s.defaultOptions.defaultIgnoreCondition == Never && !s.defaultOptions.writeIndented
    ensures s.defaultOptions.converters == []
    ensures s.defaultConverters == InitialConverters()
  {
    Serializer(false, Initial, InitialConverters())
  }

  /** The effect of assigning a validated property: the state afterwards and
      the exception the setter threw, if any. */
  datatype Assignment<S> = Assignment(state: S, raised: Option<Exception>)

  /** The static `DateTimeFormat` setter: a null or empty format is refused
      with `ArgumentNullException` and the format in effect stays. */
  function SetDateTimeFormat(current: string, value: Option<string>): (a: Assignment<string>)
    ensures a.raised.Some? <==> IsNullOrEmpty(value)
    ensures a.raised.Some? ==> a.raised.value == ArgumentNull("DateTimeFormat") && a.state == current
    ensures a.raised.None? ==> a.state != "" && Some(a.state) == value
  {
    if IsNullOrEmpty(value) then Assignment(current, Some(ArgumentNull("DateTimeFormat")))
    else Assignment(value.value, None)
  }

  /** A run of `DateTimeFormat` assignments, each exception caught by the caller. */
  function AssignDateTimeFormats(current: string, attempts: seq<Option<string>>): string
    decreases |attempts|
  {
    if attempts == [] then current
    else AssignDateTimeFormats(SetDateTimeFormat(current, attempts[0]).state, attempts[1..])
  }

  /** Whatever is assigned, the format in effect is never empty: it is the last
      accepted assignment, or the starting format when every one was refused. */
  lemma {:induction false} DateTimeFormatNeverEmpty(current: string, attempts: seq<Option<string>>)
    requires current != ""
    ensures AssignDateTimeFormats(current, attempts) != ""
    ensures (forall i | 0 <= i < |attempts| :: IsNullOrEmpty(attempts[i])) ==>
              AssignDateTimeFormats(current, attempts) == current
    ensures forall k | 0 <= k < |attempts| && !IsNullOrEmpty(attempts[k]) ::
              (forall i | k < i < |attempts| :: IsNullOrEmpty(attempts[i])) ==>
                AssignDateTimeFormats(current, attempts) == attempts[k].value
    decreases |attempts|
  {
    if attempts != [] {
      var next := SetDateTimeFormat(current, attempts[0]).state;
      DateTimeFormatNeverEmpty(next, attempts[1..]);
      var rest := attempts[1..];
      forall k | 0 <= k < |attempts| && !IsNullOrEmpty(attempts[k]) &&
                 (forall i | k < i < |attempts| :: IsNullOrEmpty(attempts[i]))
        ensures AssignDateTimeFormats(current, attempts) == attempts[k].value
      {
        if k == 0 {
          assert forall i | 0 <= i < |rest| :: rest[i] == attempts[i + 1];
        } else {
          assert rest[k - 1] == attempts[k];
          assert forall i | k - 1 < i < |rest| :: rest[i] == attempts[i + 1];
        }
      }
      if forall i | 0 <= i < |attempts| :: IsNullOrEmpty(attempts[i]) {
        assert forall i | 0 <= i < |rest| :: rest[i] == attempts[i + 1];
      }
    }
  }

  /** The static format starts as `DefaultDateTimeFormat`, so no run of
      assignments can leave the process with an empty format. */
  lemma InitialDateTimeFormatNeverEmpty(attempts: seq<Option<string>>)
    ensures AssignDateTimeFormats(DefaultDateTimeFormat, attempts) != ""
    ensures (forall i | 0 <= i < |attempts| :: IsNullOrEmpty(attempts[i])) ==>
              AssignDateTimeFormats(DefaultDateTimeFormat, attempts) == DefaultDateTimeFormat
  {
    DateTimeFormatNeverEmpty(DefaultDateTimeFormat, attempts);
  }

  /** The `DefaultOptions` setter: null is refused with `ArgumentNullException`
      and the options in effect stay; nothing else about the serializer changes. */
  function SetDefaultOptions(s: Serializer, value: Option<Options>): (a: Assignment<Serializer>)
    ensures a.raised.Some? <==> value.None?
    ensures value.None? ==> a.raised.value == ArgumentNull("DefaultOptions") && a.state == s
    ensures value.Some? ==> a.state.defaultOptions == value.value
    ensures a.state.(defaultOptions := s.defaultOptions) == s
  {
    match value
    case None => Assignment(s, Some(ArgumentNull("DefaultOptions")))
    case Some(o) => Assignment(s.(defaultOptions := o), None)
  }

  /** The `DefaultConverters` setter: null is refused with
      `ArgumentNullException` (it is not reset to an empty list) and the list
      in effect stays; nothing else about the serializer changes. */
  function SetDefaultConverters(s: Serializer, value: Option<seq<Converter>>): (a: Assignment<Serializer>)
    ensures a.raised.Some? <==> value.None?
    ensures value.None? ==> a.raised.value == ArgumentNull("DefaultConverters") && a.state == s
    ensures value.Some? ==> a.state.defaultConverters == value.value
    ensures a.state.(defaultConverters := s.defaultConverters) == s
  {
    match value
    case None => Assignment(s, Some(ArgumentNull("DefaultConverters")))
    case Some(cs) => Assignment(s.(defaultConverters := cs), None)
  }

  /** Which public call composes a snapshot. */
  datatype Call = Serializing(pretty: bool) | Deserializing

  /** The options snapshot built at the start of `SerializeJson` and
      `DeserializeJson`: a copy of the default options, every default converter
      appended in registration order, and, when serializing, the null-ignore
      and indentation settings. The shared options and converter list are
      values here, so the call cannot change them. */
  function Compose(s: Serializer, call: Call): (o: Options)
    // the copied converters come first, then every registered converter, in order
    ensures |o.converters| == |s.defaultOptions.converters| + |s.defaultConverters|
    ensures o.converters[..|s.defaultOptions.converters|] == s.defaultOptions.converters
    ensures o.converters[|s.defaultOptions.converters|..] == s.defaultConverters
    // no de-duplication: each converter occurs as often as it was registered
    ensures multiset(o.converters) == multiset(s.defaultOptions.converters) + multiset(s.defaultConverters)
    ensures call.Deserializing? ==> o.(converters := s.defaultOptions.converters) == s.defaultOptions
    ensures call.Serializing? ==>
      o.(converters := s.defaultOptions.converters,
         writeIndented := s.defaultOptions.writeIndented,
         defaultIgnoreCondition := s.defaultOptions.defaultIgnoreCondition) == s.defaultOptions
    ensures call.Serializing? ==> o.writeIndented == call.pretty
    ensures call.Serializing? && !s.includeNullProperties ==> o.defaultIgnoreCondition == WhenWritingNull
    ensures call.Serializing? && s.includeNullProperties ==>
      o.defaultIgnoreCondition == s.defaultOptions.defaultIgnoreCondition
    ensures call.Serializing? && s.defaultOptions.defaultIgnoreCondition != WhenWritingNull ==>
      (o.defaultIgnoreCondition == WhenWritingNull <==> !s.includeNullProperties)
  {
    var copy := s.defaultOptions;
    var options := copy.(converters := AddAll(copy.converters, s.defaultConverters));
    match call
    case Deserializing => options
    case Serializing(pretty) =>
      var options := if !s.includeNullProperties then options.(defaultIgnoreCondition := WhenWritingNull) else options;
      options.(writeIndented := pretty)
  }

  /** For a serializer as constructed, whatever `IncludeNullProperties` is set
      to afterwards, a serializing snapshot leaves out null properties exactly
      when that setting is off, and indents exactly when asked to. */
  lemma NewSerializerIgnoresNullsIffExcluded(includeNulls: bool, pretty: bool)
    ensures Compose(New().(includeNullProperties := includeNulls), Serializing(pretty)).defaultIgnoreCondition
              == (if includeNulls then Never else WhenWritingNull)
    ensures Compose(New().(includeNullProperties := includeNulls), Serializing(pretty)).writeIndented == pretty
  {
    var s := New().(includeNullProperties := includeNulls);
    assert s.defaultOptions.defaultIgnoreCondition == Never;
  }

  /** `SerializeJson(obj, pretty)`: null in, null out, before any snapshot is
      built; otherwise the engine runs with this call's snapshot. */
  function SerializeJson<O>(s: Serializer, obj: Option<O>,
                            engine: (O, Options) -> string, pretty: bool := true): (r: Option<string>)
    ensures r.None? <==> obj.None?
    ensures obj.Some? ==> r.value == engine(obj.value, Compose(s, Serializing(pretty)))
  {
    match obj
    case None => None
    case Some(o) =>
      var options := Compose(s, Serializing(pretty));
      Some(engine(o, options))
  }

  /** `DeserializeJson<T>(json)`: the engine runs with a copy of the default
      options that differs only in having every default converter appended;
      no null-ignore or indentation setting is touched. */
  function DeserializeJson<T>(s: Serializer, json: string, engine: (string, Options) -> T): (r: T)
    ensures r == engine(json, s.defaultOptions.(converters := s.defaultOptions.converters + s.defaultConverters))
  {
    engine(json, Compose(s, Deserializing))
  }

  /** `CopyObject<T>(o)`: `default(T)` for null; otherwise a compact
      serialization read back through the deserializing snapshot. */
  function CopyObject<O, T>(s: Serializer, o: Option<O>, defaultValue: T,
                            serialize: (O, Options) -> string,
                            deserialize: (string, Options) -> T): (r: T)
    ensures o.None? ==> r == defaultValue
    ensures o.Some? ==>
      r == deserialize(serialize(o.value, Compose(s, Serializing(false))), Compose(s, Deserializing))
  {
    if o.None? then defaultValue
    else
      var json := SerializeJson(s, o, serialize, false);
      DeserializeJson(s, json.value, deserialize)
  }
}
