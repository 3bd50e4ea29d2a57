/** `ExceptionConverter<TExceptionType>`: a write-only converter for every
    exception type. Reflection over the exception's public properties is
    replaced by the sequence of (name, value) pairs it would enumerate, and the
    engine's serialization of each property value by an `encode` parameter. */
module ExceptionConverter {
  import opened Wrappers
  import opened Json
  import opened JsonOptions
  import opened Sequences

  /** A .NET class, described by its chain of base classes up to `System.Object`. */
  datatype ClrType = ObjectType | Class(name: string, baseType: ClrType)

  /** `System.Exception`, whose base class is `System.Object`. */
  const ExceptionType: ClrType := Class("System.Exception", ObjectType)

  /** A type followed by its base classes, most derived first. */
  function Ancestry(t: ClrType): seq<ClrType>
  {
    match t
    case ObjectType => [ObjectType]
    case Class(_, b) => [t] + Ancestry(b)
  }

  /** `CanConvert`: `typeof(Exception).IsAssignableFrom(t)` for a class `t`,
      found by walking up the base-class chain. */
  function CanConvert(t: ClrType): (r: bool)
    ensures r <==> ExceptionType in Ancestry(t)
  {
    t == ExceptionType || (t.Class? && CanConvert(t.baseType))
  }

  /** Every class derived from a convertible type is convertible too. */
  lemma {:induction false} SubclassesConvertible(t: ClrType, name: string)
    requires CanConvert(t)
    ensures CanConvert(Class(name, t))
  {
    assert Ancestry(Class(name, t)) == [Class(name, t)] + Ancestry(t);
    assert ExceptionType in Ancestry(t);
  }

  /** `Read`: deserializing an exception is refused whatever the input. */
  function Read(reader: Reader, typeToConvert: ClrType): (r: Result<seq<Property<Value>>, Exception>)
    ensures r.Failure? && r.error.NotSupported?
    ensures r.error.message == "Deserializing exceptions is not allowed"
  {
    Failure(NotSupported("Deserializing exceptions is not allowed"))
  }

  /** One public property as reflection reports it: its name and its value,
      null being `None`. */
  datatype Property<V> = Property(name: string, value: Option<V>)

  /** The name of `Exception.TargetSite`, the property that is never written. */
  const TargetSite: string := "TargetSite"

  predicate NotTargetSite<V>(p: Property<V>) {
    p.name != TargetSite
  }

  predicate NotNull<V>(p: Property<V>) {
    p.value.Some?
  }

  /** Whether `Write` keeps a property under the given ignore condition. */
  predicate Kept<V>(p: Property<V>, ignore: IgnoreCondition) {
    p.name != TargetSite && (ignore == WhenWritingNull ==> p.value.Some?)
  }

  /** The property list `Write` builds: `TargetSite` filtered out, then null
      values filtered out when the options ignore nulls. */
  function Serializable<V(!new)>(props: seq<Property<V>>, ignore: IgnoreCondition): (r: seq<Property<V>>)
    ensures forall p :: p in r <==> p in props && Kept(p, ignore)
    ensures SubsequenceOf(r, props)
    ensures r == Where(props, (p: Property<V>) => Kept(p, ignore))
  {
    var named := Where(props, NotTargetSite);
    WhereKeepsOrder(props, NotTargetSite);
    if ignore == WhenWritingNull then
      WhereKeepsOrder(named, NotNull);
      SubsequenceTransitive(Where(named, NotNull), named, props);
      WhereWhere(props, NotTargetSite, NotNull, (p: Property<V>) => Kept(p, ignore));
      Where(named, NotNull)
    else
      WhereCongruent(props, NotTargetSite, (p: Property<V>) => Kept(p, ignore));
      named
  }

  /** The JSON a property value is written as: `null` for null, otherwise
      whatever the engine writes for it. */
  function ValueOf<V>(v: Option<V>, encode: V -> Value): Value
  {
    match v
    case None => Null
    case Some(x) => encode(x)
  }

  /** `fields` holds one member per property of `props`, in the same order,
      named after it and holding its written value. */
  ghost predicate MembersFor<V>(props: seq<Property<V>>, encode: V -> Value, fields: seq<Field>)
  {
    |fields| == |props| &&
    forall i | 0 <= i < |props| :: fields[i] == Field(props[i].name, ValueOf(props[i].value, encode))
  }

  /** The `foreach` that writes one property name and value per property. */
  function WriteMembers<V>(props: seq<Property<V>>, encode: V -> Value): (fields: seq<Field>)
    ensures MembersFor(props, encode, fields)
  {
    if props == [] then []
    else [Field(props[0].name, ValueOf(props[0].value, encode))] + WriteMembers(props[1..], encode)
  }

  /** `Write`: nothing at all when no property survives the filters,
      otherwise one object with a member per surviving property, in order. */
  function Write<V(!new)>(props: seq<Property<V>>, options: Options, encode: V -> Value): (w: Written)
    ensures w.Nothing? <==> forall p | p in props :: !Kept(p, options.defaultIgnoreCondition)
    ensures w.Wrote? ==>
      (w.value.Obj? && MembersFor(Serializable(props, options.defaultIgnoreCondition), encode, w.value.fields))
    ensures w.Wrote? ==> forall f | f in w.value.fields :: f.name != TargetSite
  {
    var propList := Serializable(props, options.defaultIgnoreCondition);
    if |propList| == 0 then
      assert forall p | p in props :: !Kept(p, options.defaultIgnoreCondition) by {
        forall p | p in props ensures !Kept(p, options.defaultIgnoreCondition) {
          assert p !in propList;
        }
      }
      Nothing
    else
      assert propList[0] in props && Kept(propList[0], options.defaultIgnoreCondition);
      var fields := WriteMembers(propList, encode);
      assert forall f | f in fields :: f.name != TargetSite by {
        forall f | f in fields ensures f.name != TargetSite {
          var i :| 0 <= i < |fields| && fields[i] == f;
          assert propList[i] in propList;
        }
      }
      Wrote(Obj(fields))
  }

  /** Under `WhenWritingNull` every written member comes from a property with
      a non-null value; under any condition no member is `TargetSite`. */
  lemma WrittenMembersAreKept<V(!new)>(props: seq<Property<V>>, options: Options, encode: V -> Value, i: nat)
    requires Write(props, options, encode).Wrote?
    requires i < |Write(props, options, encode).value.fields|
    ensures var sv := Serializable(props, options.defaultIgnoreCondition);
      i < |sv| && sv[i] in props && sv[i].name != TargetSite &&
      (options.defaultIgnoreCondition == WhenWritingNull ==> sv[i].value.Some?) &&
      Write(props, options, encode).value.fields[i] == Field(sv[i].name, ValueOf(sv[i].value, encode))
  {
    var sv := Serializable(props, options.defaultIgnoreCondition);
    assert sv[i] in sv;
  }
}
