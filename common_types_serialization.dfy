/**
  Value-as-string Jackson support (CommonTypesSerialization.java): the interceptor chain that picks
  a bean deserializer, the case analysis by which a value recorded as a string (or as a map holding
  `value`) is read back, the plain or typed shape `serializeWithType` writes, and the string forms
  of a management context and of a Brooklyn object.
*/
module JacksonCommonTypes {
  import opened Wrappers
  import opened JavaLang

  /**
    Field names and the management-context marker. They live in BrooklynJacksonSerializationUtils,
    which is not part of this model; the values are the ones the messages in this file spell out.
  */
  const DEFAULT := "default"
  const TYPE := "type"
  const VALUE := "value"

  // ---------------------------------------------------------------- types and interceptors

  /** A Jackson JavaType, reduced to its name and the names `findSuperType` answers non-null for (itself included). */
  datatype JavaType = JavaType(name: string, supertypes: set<string>)

  predicate HasSuperType(t: JavaType, className: string) {
    className in t.supertypes
  }

  /** The deserializers the model distinguishes; `Other` stands for any registered elsewhere. */
  datatype Deserializer =
    | BrooklynObjectDeserializer
    | TypeTokenDeserializer
    | ParameterizedTypeDeserializer
    | Other(name: string)

  /** An interceptor: an arbitrary type rewriter, or the subtype interceptor `addSubtypeInterceptor` builds. */
  datatype Interceptor =
    | Rewriter(rewrite: JavaType -> Option<Deserializer>)
    | SubtypeOf(className: string, deserializer: Deserializer)

  /** `ic.apply(type)`, with null as None. */
  function Intercept(ic: Interceptor, t: JavaType): (r: Option<Deserializer>)
    ensures ic.SubtypeOf? ==> (r.Some? <==> HasSuperType(t, ic.className))
    ensures ic.SubtypeOf? && r.Some? ==> r.value == ic.deserializer
  {
    match ic
    case Rewriter(f) => f(t)
    case SubtypeOf(c, d) => if HasSuperType(t, c) then Some(d) else None
  }

  /** Interceptor k is the first one in `ics` that answers for `t`. */
  ghost predicate FirstHitAt(ics: seq<Interceptor>, t: JavaType, k: int) {
    0 <= k < |ics| && Intercept(ics[k], t).Some? && forall j :: 0 <= j < k ==> Intercept(ics[j], t).None?
  }

  /** The first non-null interception in insertion order, or None when every interceptor declines. */
  function FirstInterception(ics: seq<Interceptor>, t: JavaType): (r: Option<Deserializer>)
    ensures r.None? <==> forall k :: 0 <= k < |ics| ==> Intercept(ics[k], t).None?
    ensures r.Some? ==> exists k :: FirstHitAt(ics, t, k) && r == Intercept(ics[k], t)
  {
    if ics == [] then None
    else match Intercept(ics[0], t)
      case Some(d) =>
        assert FirstHitAt(ics, t, 0);
        Some(d)
      case None =>
        HitsShift(ics, t);
        FirstInterception(ics[1..], t)
  }

  /** Past an interceptor that declines, every first hit of the rest is a first hit one place later. */
  lemma HitsShift(ics: seq<Interceptor>, t: JavaType)
    requires ics != [] && Intercept(ics[0], t).None?
    ensures forall k :: 1 <= k < |ics| ==> ics[k] == ics[1..][k - 1]
    ensures forall k :: FirstHitAt(ics[1..], t, k) ==> FirstHitAt(ics, t, k + 1) && ics[1..][k] == ics[k + 1]
  {
  }

  /** The first hit is unique, so it is the one `FirstInterception` returns. */
  lemma FirstHitIsTheInterception(ics: seq<Interceptor>, t: JavaType, k: int)
    requires FirstHitAt(ics, t, k)
    ensures FirstInterception(ics, t) == Intercept(ics[k], t)
  {
    var r := FirstInterception(ics, t);
    assert Intercept(ics[k], t).Some?;
    var k' :| FirstHitAt(ics, t, k') && r == Intercept(ics[k'], t);
    FirstHitUnique(ics, t, k, k');
  }

  lemma FirstHitUnique(ics: seq<Interceptor>, t: JavaType, k: int, k': int)
    requires FirstHitAt(ics, t, k) && FirstHitAt(ics, t, k')
    ensures k == k'
  {
  }

  /** InterceptibleDeserializers: the module's deserializer lookup with its mutable list of interceptors. */
  class InterceptibleDeserializers {
    var interceptors: seq<Interceptor>

    constructor ()
      ensures interceptors == []
    {
      interceptors := [];
    }

    /** addInterceptor(typeRewriter). */
    method AddInterceptor(rewrite: JavaType -> Option<Deserializer>)
      modifies this
      ensures interceptors == old(interceptors) + [Rewriter(rewrite)]
    {
      interceptors := interceptors + [Rewriter(rewrite)];
    }

    /** addSubtypeInterceptor(type, deserializer). */
    method AddSubtypeInterceptor(className: string, deserializer: Deserializer)
      modifies this
      ensures interceptors == old(interceptors) + [SubtypeOf(className, deserializer)]
    {
      interceptors := interceptors + [SubtypeOf(className, deserializer)];
    }

    /**
      findBeanDeserializer(type, ...): the first interceptor that answers, scanning in insertion order;
      a null type, or no answer, falls through to `fallback`, what SimpleDeserializers would return.
    */
    method FindBeanDeserializer(t: Option<JavaType>, fallback: Option<Deserializer>) returns (r: Option<Deserializer>)
      ensures t.None? ==> r == fallback
      ensures t.Some? ==> r == match FirstInterception(interceptors, t.value)
                               case Some(d) => Some(d)
                               case None => fallback
    {
      if t.Some? {
        var i := 0;
        while i < |interceptors|
          invariant 0 <= i <= |interceptors|
          invariant forall j :: 0 <= j < i ==> Intercept(interceptors[j], t.value).None?
        {
          var interception := Intercept(interceptors[i], t.value);
          if interception.Some? {
            FirstHitIsTheInterception(interceptors, t.value, i);
            return interception;
          }
          i := i + 1;
        }
      }
      return fallback;
    }
  }

  const BROOKLYN_OBJECT := "org.apache.brooklyn.api.objs.BrooklynObject"
  const TYPE_TOKEN := "com.google.common.reflect.TypeToken"
  const PARAMETERIZED_TYPE := "java.lang.reflect.ParameterizedType"

  /**
    The interceptors `apply(mapper, mgmt)` installs, in order: BrooklynObjectSerialization's, then
    GuavaTypeTokenSerialization's for TypeToken and for ParameterizedType.
  */
  method InstallInterceptors(interceptible: InterceptibleDeserializers)
    modifies interceptible
    ensures interceptible.interceptors == old(interceptible.interceptors) + StandardInterceptors()
  {
    interceptible.AddSubtypeInterceptor(BROOKLYN_OBJECT, BrooklynObjectDeserializer);
    interceptible.AddSubtypeInterceptor(TYPE_TOKEN, TypeTokenDeserializer);
    interceptible.AddSubtypeInterceptor(PARAMETERIZED_TYPE, ParameterizedTypeDeserializer);
  }

  function StandardInterceptors(): seq<Interceptor> {
    [SubtypeOf(BROOKLYN_OBJECT, BrooklynObjectDeserializer),
     SubtypeOf(TYPE_TOKEN, TypeTokenDeserializer),
     SubtypeOf(PARAMETERIZED_TYPE, ParameterizedTypeDeserializer)]
  }

  /**
    With the standard interceptors installed on a fresh module, any subtype of BrooklynObject gets the
    BrooklynObject deserializer, whatever else it implements; a type that is none of the three gets none.
  */
  lemma StandardInterceptorsChoose(t: JavaType)
    ensures HasSuperType(t, BROOKLYN_OBJECT) ==> FirstInterception(StandardInterceptors(), t) == Some(BrooklynObjectDeserializer)
    ensures !HasSuperType(t, BROOKLYN_OBJECT) && HasSuperType(t, TYPE_TOKEN) ==>
              FirstInterception(StandardInterceptors(), t) == Some(TypeTokenDeserializer)
    ensures FirstInterception(StandardInterceptors(), t).None? <==>
              !HasSuperType(t, BROOKLYN_OBJECT) && !HasSuperType(t, TYPE_TOKEN) && !HasSuperType(t, PARAMETERIZED_TYPE)
  {
    var ics := StandardInterceptors();
    if HasSuperType(t, BROOKLYN_OBJECT) {
      FirstHitIsTheInterception(ics, t, 0);
    } else if HasSuperType(t, TYPE_TOKEN) {
      FirstHitIsTheInterception(ics, t, 1);
    } else if HasSuperType(t, PARAMETERIZED_TYPE) {
      FirstHitIsTheInterception(ics, t, 2);
    } else {
      assert Intercept(ics[0], t).None? && Intercept(ics[1], t).None? && Intercept(ics[2], t).None?;
    }
  }

  // ---------------------------------------------------------------- the untyped JSON value

  /** What `readValueAs(Object.class)` yields: null, a string, a boxed scalar, a list or an insertion-ordered map. */
  datatype Json =
    | JNull
    | JString(s: string)
    | JBool(b: bool)
    | JInt(n: int)
    | JList(items: seq<Json>)
    | JMap(entries: seq<Entry>)

  datatype Entry = Entry(key: string, value: Json)

  /**
    A string or a boxed primitive (Boxing.isPrimitiveOrBoxedClass). Jackson reads an integer as an
    Integer or a Long when it fits one and as a BigInteger otherwise, which is no boxed primitive.
  */
  predicate IsScalar(v: Json) {
    v.JString? || v.JBool? || (v.JInt? && LONG_MIN <= v.n <= LONG_MAX)
  }

  /** `value.toString()` for a string or boxed scalar. */
  function ScalarText(v: Json): string
    requires IsScalar(v)
  {
    match v
    case JString(s) => s
    case JBool(b) => if b then "true" else "false"
    case JInt(n) => IntToString(n)
  }

  function JoinWith(parts: seq<string>, sep: string): string {
    if parts == [] then "" else if |parts| == 1 then parts[0] else parts[0] + sep + JoinWith(parts[1..], sep)
  }

  /** Java's `toString` of the value, as an exception message shows it: `{k=v, ...}` and `[a, ...]`. */
  function Render(v: Json): string
    decreases v
  {
    match v
    case JNull => "null"
    case JString(s) => s
    case JBool(b) => if b then "true" else "false"
    case JInt(n) => IntToString(n)
    case JList(items) => "[" + JoinWith(seq(|items|, i requires 0 <= i < |items| => Render(items[i])), ", ") + "]"
    case JMap(es) => "{" + JoinWith(seq(|es|, i requires 0 <= i < |es| => es[i].key + "=" + Render(es[i].value)), ", ") + "}"
  }

  /** `map.size()==1 && map.containsKey(VALUE)` for a map with distinct keys. */
  predicate SingleValueEntry(es: seq<Entry>) {
    |es| == 1 && es[0].key == VALUE
  }

  /** The `{value: v}` map a value may be wrapped in. */
  function Wrapped(v: Json): Json {
    JMap([Entry(VALUE, v)])
  }

  // ---------------------------------------------------------------- ObjectAsStringSerializerAndDeserializer

  /**
    One ObjectAsStringSerializerAndDeserializer subclass: `typeText` is what `getType()` prints as,
    `className` its name, `toText`/`fromText` the two string conversions, `specialMap` its
    convertSpecialMapToObject, and `noArgInstance` what newEmptyInstance's reflective construction yields,
    None when the type has no accessible no-argument constructor.
  */
  datatype Converter<!T> = Converter(
    typeText: string,
    className: string,
    toText: T -> string,
    fromText: string -> Result<T>,
    specialMap: seq<Entry> -> Result<T>,
    noArgInstance: Option<T>)

  /** The middle parts of the deserializer's IllegalStateException messages. */
  const AS_MAP_WITH_VALUE := " should be supplied as map with 'value'; instead had "
  const AS_STRING_OR_MAP := " should be supplied as string or map with 'type' and 'value'; instead had "

  /** The base convertSpecialMapToObject: every such map is refused. */
  function DefaultSpecialMap<T>(typeText: string, es: seq<Entry>): (r: Result<T>)
    ensures r.Err? && r.error.IllegalState?
  {
    Err(IllegalState(typeText + AS_MAP_WITH_VALUE + Render(JMap(es))))
  }

  /** newEmptyInstance(): the no-argument construction, or IllegalArgumentException when there is none. */
  function NewEmptyInstance<T>(c: Converter<T>): (r: Result<T>)
    ensures r.Err? <==> c.noArgInstance.None?
    ensures r.Err? ==> r.error.IllegalArgument?
    ensures r.Ok? ==> r.value == c.noArgInstance.value
  {
    match c.noArgInstance
    case Some(v) => Ok(v)
    case None => Err(IllegalArgument("Empty instances of " + c.typeText
                                     + " are not supported; provide a 'value:' indicating the value"))
  }

  /** A converted value as the deserializer returns it; None stands for returning null. */
  function Lift<T>(r: Result<T>): (l: Result<Option<T>>)
    ensures l.Ok? <==> r.Ok?
    ensures r.Ok? ==> l.value == Some(r.value)
    ensures r.Err? ==> l.error == r.error
  {
    match r
    case Ok(v) => Ok(Some(v))
    case Err(e) => Err(e)
  }

  /** The case analysis on the value once any `{value: ...}` wrapper has been removed. */
  function DeserializeUnwrapped<T>(c: Converter<T>, valueO: Json, value: Json): Result<Option<T>> {
    if value.JNull? then
      if valueO.JNull? then Lift(NewEmptyInstance(c)) else Ok(None)
    else if IsScalar(value) then Lift(c.fromText(ScalarText(value)))
    else if value.JMap? then Lift(c.specialMap(value.entries))
    else Err(IllegalState(c.typeText + AS_STRING_OR_MAP
                          + Render(value)))
  }

  /**
    Deserializer.deserialize: a map holding only `value` is unwrapped once, any other map is handed to
    convertSpecialMapToObject; null at top level asks for an empty instance, an unwrapped null is null;
    strings and boxed scalars go through convertStringToObject; anything else (a list, an integer
    beyond the long range) is refused.
    Exceptions.propagate rethrows these runtime exceptions unchanged.
  */
  function Deserialize<T>(c: Converter<T>, valueO: Json): (r: Result<Option<T>>)
    ensures valueO.JNull? ==> r == Lift(NewEmptyInstance(c))
    ensures valueO.JMap? && !SingleValueEntry(valueO.entries) ==> r == Lift(c.specialMap(valueO.entries))
    ensures IsScalar(valueO) ==> r == Lift(c.fromText(ScalarText(valueO)))
    ensures valueO.JList? ==> r.Err? && r.error.IllegalState?
    ensures valueO.JInt? && !(LONG_MIN <= valueO.n <= LONG_MAX) ==>
              r == Err(IllegalState(c.typeText + AS_STRING_OR_MAP + Render(valueO)))
    ensures r.Ok? && r.value.None? ==> valueO == Wrapped(JNull)
  {
    if valueO.JMap? then
      if SingleValueEntry(valueO.entries) then DeserializeUnwrapped(c, valueO, valueO.entries[0].value)
      else Lift(c.specialMap(valueO.entries))
    else DeserializeUnwrapped(c, valueO, valueO)
  }

  /** Wrapping a string or scalar in `{value: ...}` changes nothing about how it reads. */
  lemma WrappedScalarReadsAsScalar<T>(c: Converter<T>, v: Json)
    requires IsScalar(v)
    ensures Deserialize(c, Wrapped(v)) == Deserialize(c, v)
  {
  }

  /** A wrapped null is null, while a bare null is a new empty instance: the two differ. */
  lemma WrappedNullIsNull<T>(c: Converter<T>)
    ensures Deserialize(c, Wrapped(JNull)) == Ok(None)
    ensures Deserialize(c, JNull) != Ok(None)
  {
  }

  /** The unwrapping happens once: a wrapped map goes to convertSpecialMapToObject even when it too holds only `value`. */
  lemma WrappedMapIsNotUnwrappedAgain<T>(c: Converter<T>, es: seq<Entry>)
    ensures Deserialize(c, Wrapped(JMap(es))) == Lift(c.specialMap(es))
  {
  }

  /** With the base convertSpecialMapToObject, a map in any position other than a lone `value` wrapper of a string or null is an IllegalStateException. */
  lemma DefaultConverterRefusesMaps<T>(c: Converter<T>, es: seq<Entry>)
    requires forall m :: c.specialMap(m) == DefaultSpecialMap<T>(c.typeText, m)
    ensures !SingleValueEntry(es) ==> Deserialize(c, JMap(es)).Err? && Deserialize(c, JMap(es)).error.IllegalState?
    ensures Deserialize(c, Wrapped(JMap(es))).Err? && Deserialize(c, Wrapped(JMap(es))).error.IllegalState?
  {
    assert c.specialMap(es) == DefaultSpecialMap<T>(c.typeText, es);
  }

  // ---------------------------------------------------------------- the serializer

  /** The tokens a JsonGenerator is asked to write. */
  datatype Token = NullToken | StringToken(s: string) | StartObject | FieldName(name: string) | EndObject

  /** The output side of Jackson, reduced to the tokens written so far. */
  class JsonGenerator {
    var tokens: seq<Token>

    constructor ()
      ensures tokens == []
    {
      tokens := [];
    }

    method WriteNull()
      modifies this
      ensures tokens == old(tokens) + [NullToken]
    {
      tokens := tokens + [NullToken];
    }

    method WriteString(s: string)
      modifies this
      ensures tokens == old(tokens) + [StringToken(s)]
    {
      tokens := tokens + [StringToken(s)];
    }

    method WriteStartObject()
      modifies this
      ensures tokens == old(tokens) + [StartObject]
    {
      tokens := tokens + [StartObject];
    }

    method WriteStringField(name: string, value: string)
      modifies this
      ensures tokens == old(tokens) + [FieldName(name), StringToken(value)]
    {
      tokens := tokens + [FieldName(name), StringToken(value)];
    }

    method WriteEndObject()
      modifies this
      ensures tokens == old(tokens) + [EndObject]
    {
      tokens := tokens + [EndObject];
    }
  }

  /**
    The tokens `serializeWithType` writes. `baseType` is the base type of the type-id resolver when it
    is an AsPropertyIfAmbiguous.HasBaseType, None otherwise.
  */
  function TypedForm<T>(c: Converter<T>, value: Option<T>, baseType: Option<JavaType>): seq<Token> {
    match value
    case None => [NullToken]
    case Some(v) =>
      if baseType.Some? && HasSuperType(baseType.value, c.className) then [StringToken(c.toText(v))]
      else [StartObject, FieldName(TYPE), StringToken(c.className), FieldName(VALUE), StringToken(c.toText(v)), EndObject]
  }

  /** Serializer.serialize: the value as its string. */
  method Serialize<T>(c: Converter<T>, value: T, gen: JsonGenerator)
    modifies gen
    ensures gen.tokens == old(gen.tokens) + [StringToken(c.toText(value))]
  {
    gen.WriteString(c.toText(value));
  }

  /** Serializer.serializeWithType: null, a plain string where the declared type already implies the class, or `{type, value}`. */
  method SerializeWithType<T>(c: Converter<T>, value: Option<T>, gen: JsonGenerator, baseType: Option<JavaType>)
    modifies gen
    ensures gen.tokens == old(gen.tokens) + TypedForm(c, value, baseType)
  {
    if value.None? {
      gen.WriteNull();
      return;
    }
    if baseType.Some? {
      if HasSuperType(baseType.value, c.className) {
        gen.WriteString(c.toText(value.value));
        return;
      }
    }
    gen.WriteStartObject();
    gen.WriteStringField(TYPE, c.className);
    gen.WriteStringField(VALUE, c.toText(value.value));
    gen.WriteEndObject();
  }

  /** Reads one JSON value made of the tokens above; pairs of field name and string inside an object. */
  function ReadTokens(tokens: seq<Token>): Option<Json> {
    if tokens == [NullToken] then Some(JNull)
    else if |tokens| == 1 && tokens[0].StringToken? then Some(JString(tokens[0].s))
    else if |tokens| >= 2 && tokens[0] == StartObject && tokens[|tokens| - 1] == EndObject then
      match ReadFields(tokens[1..|tokens| - 1])
      case Some(es) => Some(JMap(es))
      case None => None
    else None
  }

  function ReadFields(tokens: seq<Token>): Option<seq<Entry>>
    decreases |tokens|
  {
    if tokens == [] then Some([])
    else if |tokens| >= 2 && tokens[0].FieldName? && tokens[1].StringToken? then
      match ReadFields(tokens[2..])
      case Some(rest) => Some([Entry(tokens[0].name, JString(tokens[1].s))] + rest)
      case None => None
    else None
  }

  lemma ReadFieldPair(name: string, value: string, rest: seq<Token>)
    ensures ReadFields([FieldName(name), StringToken(value)] + rest)
         == match ReadFields(rest)
            case Some(es) => Some([Entry(name, JString(value))] + es)
            case None => None
  {
    assert ([FieldName(name), StringToken(value)] + rest)[2..] == rest;
  }

  /** What the polymorphic layer hands on once it has taken the `type` property it reads the class from. */
  function WithoutType(v: Json): Json {
    match v
    case JMap(es) => JMap(Drop(es, TYPE))
    case _ => v
  }

  /** The entries whose key is not `key`, in their order. */
  function Drop(es: seq<Entry>, key: string): (r: seq<Entry>)
    ensures |r| <= |es|
    ensures forall e :: e in r <==> e in es && e.key != key
    decreases |es|
  {
    if es == [] then [] else if es[0].key == key then Drop(es[1..], key) else [es[0]] + Drop(es[1..], key)
  }

  /**
    Whatever `serializeWithType` writes for a non-null value reads back, once the `type` property is
    taken off, as `convertStringToObject(convertObjectToString(value))`; a null reads back as an empty instance.
  */
  lemma TypedFormReadsBack<T>(c: Converter<T>, value: Option<T>, baseType: Option<JavaType>)
    ensures ReadTokens(TypedForm(c, value, baseType)).Some?
    ensures value.Some? ==>
              Deserialize(c, WithoutType(ReadTokens(TypedForm(c, value, baseType)).value))
              == Lift(c.fromText(c.toText(value.value)))
    ensures value.None? ==> Deserialize(c, ReadTokens(TypedForm(c, value, baseType)).value) == Lift(NewEmptyInstance(c))
  {
    var tokens := TypedForm(c, value, baseType);
    if value.Some? && !(baseType.Some? && HasSuperType(baseType.value, c.className)) {
      var text := c.toText(value.value);
      var inner := tokens[1..|tokens| - 1];
      assert inner == [FieldName(TYPE), StringToken(c.className), FieldName(VALUE), StringToken(text)];
      ReadFieldPair(VALUE, text, []);
      assert [FieldName(VALUE), StringToken(text)] + [] == [FieldName(VALUE), StringToken(text)];
      assert [Entry(VALUE, JString(text))] + [] == [Entry(VALUE, JString(text))];
      ReadFieldPair(TYPE, c.className, [FieldName(VALUE), StringToken(text)]);
      var es := [Entry(TYPE, JString(c.className)), Entry(VALUE, JString(text))];
      assert inner == [FieldName(TYPE), StringToken(c.className)] + [FieldName(VALUE), StringToken(text)];
      assert es == [Entry(TYPE, JString(c.className))] + [Entry(VALUE, JString(text))];
      assert ReadFields(inner) == Some(es);
      assert Drop(es, TYPE) == [Entry(VALUE, JString(text))];
    }
  }

  // ---------------------------------------------------------------- management context and Brooklyn objects

  /** A management context, reduced to the objects `lookup` knows by id. */
  datatype ManagementContext = ManagementContext(objects: map<string, BrooklynObject>)

  datatype BrooklynObject = BrooklynObject(id: string, displayName: string)

  /** ManagementContextSerialization.convertObjectToString: every context is written as DEFAULT. */
  function ManagementContextToText(m: ManagementContext): (r: string)
    ensures r == DEFAULT
  {
    DEFAULT
  }

  /** ManagementContextSerialization.convertStringToObject, with `mgmt` the context it was created with. */
  function ManagementContextFromText(mgmt: Option<ManagementContext>, value: string): (r: Result<ManagementContext>)
    ensures r.Ok? <==> value == DEFAULT && mgmt.Some?
    ensures r.Ok? ==> r.value == mgmt.value
    ensures r.Err? && value == DEFAULT ==> r.error == IllegalArgument("ManagementContext cannot be deserialized here")
    ensures value != DEFAULT ==>
              r == Err(IllegalState("ManagementContext should be recorded as 'default' to be deserialized correctly"))
  {
    if value == DEFAULT then
      if mgmt.Some? then Ok(mgmt.value) else Err(IllegalArgument("ManagementContext cannot be deserialized here"))
    else Err(IllegalState("ManagementContext should be recorded as 'default' to be deserialized correctly"))
  }

  /** Any context written out reads back as the configured one, not as itself. */
  lemma ManagementContextRoundTrip(written: ManagementContext, configured: ManagementContext)
    ensures ManagementContextFromText(Some(configured), ManagementContextToText(written)) == Ok(configured)
    ensures ManagementContextFromText(None, ManagementContextToText(written)).Err?
  {
  }

  /** BrooklynObjectSerialization.convertObjectToString: the object's id. */
  function BrooklynObjectToText(b: BrooklynObject): (r: string)
    ensures r == b.id
  {
    b.id
  }

  /** BrooklynObjectSerialization.convertStringToObject: a lookup by id in the configured context. */
  function BrooklynObjectFromText(mgmt: Option<ManagementContext>, value: string): (r: Result<BrooklynObject>)
    ensures mgmt.None? ==> r == Err(IllegalArgument("BrooklynObject cannot be deserialized here"))
    ensures mgmt.Some? ==> (r.Ok? <==> value in mgmt.value.objects)
    ensures r.Ok? ==> mgmt.Some? && r.value == mgmt.value.objects[value]
    ensures mgmt.Some? && r.Err? ==>
              r.error == IllegalState("Entity or other BrooklynObject '" + value + "' is not known here")
  {
    match mgmt
    case None => Err(IllegalArgument("BrooklynObject cannot be deserialized here"))
    case Some(m) =>
      if value in m.objects then Ok(m.objects[value])
      else Err(IllegalState("Entity or other BrooklynObject '" + value + "' is not known here"))
  }

  /** An object the context knows under its own id reads back as itself. */
  lemma BrooklynObjectRoundTrip(m: ManagementContext, b: BrooklynObject)
    requires b.id in m.objects && m.objects[b.id] == b
    ensures BrooklynObjectFromText(Some(m), BrooklynObjectToText(b)) == Ok(b)
  {
  }

  /** The two converters as the module registers them. */
  function ManagementContextConverter(mgmt: Option<ManagementContext>): Converter<ManagementContext> {
    Converter("interface org.apache.brooklyn.api.mgmt.ManagementContext", "org.apache.brooklyn.api.mgmt.ManagementContext",
              ManagementContextToText, s => ManagementContextFromText(mgmt, s),
              es => DefaultSpecialMap("interface org.apache.brooklyn.api.mgmt.ManagementContext", es), None)
  }

  function BrooklynObjectConverter(mgmt: Option<ManagementContext>): Converter<BrooklynObject> {
    Converter("interface org.apache.brooklyn.api.objs.BrooklynObject", BROOKLYN_OBJECT,
              BrooklynObjectToText, s => BrooklynObjectFromText(mgmt, s),
              es => DefaultSpecialMap("interface org.apache.brooklyn.api.objs.BrooklynObject", es), None)
  }

  /** A Brooklyn object written with its type reads back as itself, and a null one cannot be read (an interface has no empty instance). */
  lemma BrooklynObjectTypedRoundTrip(m: ManagementContext, b: BrooklynObject, baseType: Option<JavaType>)
    requires b.id in m.objects && m.objects[b.id] == b
    ensures ReadTokens(TypedForm(BrooklynObjectConverter(Some(m)), Some(b), baseType)).Some?
    ensures Deserialize(BrooklynObjectConverter(Some(m)),
                        WithoutType(ReadTokens(TypedForm(BrooklynObjectConverter(Some(m)), Some(b), baseType)).value))
            == Ok(Some(b))
    ensures Deserialize(BrooklynObjectConverter(Some(m)), JNull).Err?
  {
    var c := BrooklynObjectConverter(Some(m));
    TypedFormReadsBack(c, Some(b), baseType);
    BrooklynObjectRoundTrip(m, b);
  }
}
