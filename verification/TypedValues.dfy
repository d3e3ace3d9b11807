/**
 Wrapping Go values into typed values and back. Marshalling a message into `Any` is taken to be a faithful black
 box, so a typed value holds the message itself.
 */
module TypedValues {
  import opened Types

  /** The dynamic types `Wrap` distinguishes; `GoOther` is any type outside its switch. */
  datatype GoValue =
    | GoNil
    | GoBool(bool)
    | GoString(string)
    | GoBytes(seq<Byte>)
    | GoFloat32(Uint32)
    | GoFloat64(Uint64)
    | GoInt(goInt: Int64)
    | GoInt32(Int32)
    | GoInt64(Int64)
    | GoUint32(Uint32)
    | GoUint64(Uint64)
    | GoMap(fields: map<string, GoValue>)
    | GoList(items: seq<GoValue>)
    | GoTypedValue(TypedValue)
    | GoTypedMap(map<string, TypedValue>)
    | GoTypedList(seq<TypedValue>)
    | GoMessage(Message)
    | GoOther

  datatype WrapError = UnsupportedType

  /** The regular expression `^\{(.*)\}$`; the dot does not match a newline. */
  predicate IsExpression(s: string) {
    |s| >= 2 && s[0] == '{' && s[|s| - 1] == '}' && '\n' !in s[1..|s| - 1]
  }

  /** Replaces the whole match by its first group. */
  function RemoveExpressionDelimiters(s: string): string {
    if IsExpression(s) then s[1..|s| - 1] else s
  }

  /** A string is an expression exactly when braces surround some newline-free text, and removing the delimiters
      gives that text back. */
  lemma ExpressionDelimiters(s: string, text: string)
    ensures IsExpression("{" + text + "}") <==> '\n' !in text
    ensures '\n' !in text ==> RemoveExpressionDelimiters("{" + text + "}") == text
    ensures IsExpression(s) ==> s == "{" + RemoveExpressionDelimiters(s) + "}"
    ensures !IsExpression(s) ==> RemoveExpressionDelimiters(s) == s
  {
    var e := "{" + text + "}";
    assert e[1..|e| - 1] == text;
    if IsExpression(s) {
      assert s == [s[0]] + s[1..|s| - 1] + [s[|s| - 1]];
    }
  }

  /** Go's conversion of an int to an int32: the low 32 bits, read as two's complement. */
  function TruncateInt32(i: Int64): Int32 {
    var low := i as int % 0x1_0000_0000;
    if low < 0x8000_0000 then low as Int32 else (low - 0x1_0000_0000) as Int32
  }

  function Wrap(v: GoValue): Result<TypedValue, WrapError> {
    match v
    case GoTypedValue(tv) => Ok(tv)
    case GoTypedList(tvs) => Ok(Pack(ArrayValue(tvs)))
    case GoTypedMap(tvs) => Ok(Pack(MapValue(tvs)))
    case GoMap(m) =>
      if forall k | k in m :: Wrap(m[k]).Ok?
      then Ok(Pack(MapValue(map k | k in m :: Wrap(m[k]).value)))
      else Err(UnsupportedType)
    case GoList(vs) =>
      if forall i | 0 <= i < |vs| :: Wrap(vs[i]).Ok?
      then Ok(Pack(ArrayValue(seq(|vs|, i requires 0 <= i < |vs| => Wrap(vs[i]).value))))
      else Err(UnsupportedType)
    case GoMessage(msg) => Ok(Pack(msg))
    case GoString(s) => Ok(Pack(if IsExpression(s) then Expression(s) else StringValue(s)))
    case GoBool(b) => Ok(Pack(BoolValue(b)))
    case GoFloat32(f) => Ok(Pack(FloatValue(f)))
    case GoFloat64(f) => Ok(Pack(DoubleValue(f)))
    case GoInt64(i) => Ok(Pack(Int64Value(i)))
    case GoInt(i) => Ok(Pack(Int32Value(TruncateInt32(i))))
    case GoInt32(i) => Ok(Pack(Int32Value(i)))
    case GoUint32(u) => Ok(Pack(UInt32Value(u)))
    case GoUint64(u) => Ok(Pack(UInt64Value(u)))
    case GoBytes(bs) => Ok(Pack(BytesValue(bs)))
    case GoNil => Ok(Pack(NilValue))
    case GoOther => Err(UnsupportedType)
  }

  function Pack(msg: Message): TypedValue {
    TypedValue(map[], msg)
  }

  function Unwrap(tv: TypedValue): GoValue {
    match tv.value
    case MapValue(m) => GoMap(map k | k in m :: Unwrap(m[k]))
    case ArrayValue(vs) => GoList(seq(|vs|, i requires 0 <= i < |vs| => Unwrap(vs[i])))
    case Expression(s) => GoString(s)
    case BoolValue(b) => GoBool(b)
    case FloatValue(f) => GoFloat32(f)
    case DoubleValue(f) => GoFloat64(f)
    case Int32Value(i) => GoInt32(i)
    case Int64Value(i) => GoInt64(i)
    case UInt64Value(u) => GoUint64(u)
    case UInt32Value(u) => GoUint32(u)
    case StringValue(s) => GoString(s)
    case BytesValue(bs) => GoBytes(bs)
    case NilValue => GoNil
    case TaskMessage(_) => GoMessage(tv.value)
    case WorkflowMessage(_) => GoMessage(tv.value)
    case FlowMessage(_) => GoMessage(tv.value)
  }

  // ---------- Go value to typed value and back ----------

  /** No unsupported type at any depth. */
  predicate Supported(v: GoValue) {
    match v
    case GoMap(m) => forall k | k in m :: Supported(m[k])
    case GoList(vs) => forall i | 0 <= i < |vs| :: Supported(vs[i])
    case _ => !v.GoOther?
  }

  /** Arbitrarily nested maps and lists over nil, bool, string, bytes, floats and integers. */
  predicate PlainData(v: GoValue) {
    match v
    case GoMap(m) => forall k | k in m :: PlainData(m[k])
    case GoList(vs) => forall i | 0 <= i < |vs| :: PlainData(vs[i])
    case _ => !(v.GoTypedValue? || v.GoTypedMap? || v.GoTypedList? || v.GoMessage? || v.GoOther?)
  }

  predicate ContainsInt(v: GoValue) {
    match v
    case GoMap(m) => exists k | k in m :: ContainsInt(m[k])
    case GoList(vs) => exists i | 0 <= i < |vs| :: ContainsInt(vs[i])
    case _ => v.GoInt?
  }

  /** The truncation keeps the low 32 bits: it differs by a multiple of two to the power of 32. */
  lemma TruncationKeepsLowBits(i: Int64)
    ensures (i as int - TruncateInt32(i) as int) % 0x1_0000_0000 == 0
    ensures -0x8000_0000 <= i < 0x8000_0000 ==> TruncateInt32(i) as int == i as int
  {
    var n := i as int;
    assert n == n / 0x1_0000_0000 * 0x1_0000_0000 + n % 0x1_0000_0000;
  }

  /** The value with every Go int replaced by its int32 truncation. */
  function TruncateInts(v: GoValue): GoValue {
    match v
    case GoMap(m) => GoMap(map k | k in m :: TruncateInts(m[k]))
    case GoList(vs) => GoList(seq(|vs|, i requires 0 <= i < |vs| => TruncateInts(vs[i])))
    case GoInt(i) => GoInt32(TruncateInt32(i))
    case _ => v
  }

  /** `Wrap` fails exactly on the values that hold an unsupported type somewhere. */
  lemma {:induction false} WrapSupported(v: GoValue)
    ensures Wrap(v).Ok? <==> Supported(v)
  {
    match v
    case GoMap(m) =>
      forall k | k in m ensures Wrap(m[k]).Ok? <==> Supported(m[k]) { WrapSupported(m[k]); }
    case GoList(vs) =>
      forall i | 0 <= i < |vs| ensures Wrap(vs[i]).Ok? <==> Supported(vs[i]) { WrapSupported(vs[i]); }
    case _ =>
  }

  lemma WrapFields(m: map<string, GoValue>)
    requires forall k | k in m :: Wrap(m[k]).Ok?
    ensures Wrap(GoMap(m)).Ok? && Wrap(GoMap(m)).value.metadata == map[]
    ensures Wrap(GoMap(m)).value.value.MapValue? && Wrap(GoMap(m)).value.value.entries.Keys == m.Keys
    ensures forall k | k in m :: Wrap(GoMap(m)).value.value.entries[k] == Wrap(m[k]).value
  {
  }

  lemma WrapItems(vs: seq<GoValue>)
    requires forall i | 0 <= i < |vs| :: Wrap(vs[i]).Ok?
    ensures Wrap(GoList(vs)).Ok? && Wrap(GoList(vs)).value.metadata == map[]
    ensures Wrap(GoList(vs)).value.value.ArrayValue? && |Wrap(GoList(vs)).value.value.elements| == |vs|
    ensures forall i | 0 <= i < |vs| :: Wrap(GoList(vs)).value.value.elements[i] == Wrap(vs[i]).value
  {
  }

  ghost predicate UnwrapsTruncated(v: GoValue) {
    Wrap(v).Ok? && Unwrap(Wrap(v).value) == TruncateInts(v)
  }

  lemma UnwrapWrapMap(m: map<string, GoValue>)
    requires forall k | k in m :: UnwrapsTruncated(m[k])
    ensures UnwrapsTruncated(GoMap(m))
  {
    WrapFields(m);
    assert Unwrap(Wrap(GoMap(m)).value).fields == TruncateInts(GoMap(m)).fields;
  }

  lemma UnwrapWrapList(vs: seq<GoValue>)
    requires forall i | 0 <= i < |vs| :: UnwrapsTruncated(vs[i])
    ensures UnwrapsTruncated(GoList(vs))
  {
    WrapItems(vs);
    assert Unwrap(Wrap(GoList(vs)).value).items == TruncateInts(GoList(vs)).items;
  }

  lemma {:induction false} UnwrapWrap(v: GoValue)
    requires PlainData(v)
    ensures Wrap(v).Ok? && Unwrap(Wrap(v).value) == TruncateInts(v)
  {
    match v
    case GoMap(m) =>
      forall k | k in m ensures UnwrapsTruncated(m[k]) { UnwrapWrap(m[k]); }
      UnwrapWrapMap(m);
    case GoList(vs) =>
      forall i | 0 <= i < |vs| ensures UnwrapsTruncated(vs[i]) { UnwrapWrap(vs[i]); }
      UnwrapWrapList(vs);
    case _ =>
  }

  lemma {:induction false} TruncateOnlyInts(v: GoValue)
    requires PlainData(v)
    ensures TruncateInts(v) == v <==> !ContainsInt(v)
  {
    match v
    case GoMap(m) =>
      forall k | k in m ensures TruncateInts(m[k]) == m[k] <==> !ContainsInt(m[k]) { TruncateOnlyInts(m[k]); }
      if k :| k in m && ContainsInt(m[k]) {
        assert TruncateInts(v).fields[k] != m[k];
      }
    case GoList(vs) =>
      forall i | 0 <= i < |vs| ensures TruncateInts(vs[i]) == vs[i] <==> !ContainsInt(vs[i]) { TruncateOnlyInts(vs[i]); }
      if i :| 0 <= i < |vs| && ContainsInt(vs[i]) {
        assert TruncateInts(v).items[i] != vs[i];
      }
    case _ =>
  }

  /** Plain data survives the round trip exactly when it holds no Go int; an int comes back as an int32. */
  lemma RoundTripValue(v: GoValue)
    requires PlainData(v)
    ensures Wrap(v).Ok?
    ensures Unwrap(Wrap(v).value) == v <==> !ContainsInt(v)
    ensures v.GoInt? ==> Unwrap(Wrap(v).value) == GoInt32(TruncateInt32(v.goInt))
  {
    UnwrapWrap(v);
    TruncateOnlyInts(v);
  }

  /** What a value is to a reader once it has been wrapped: ints are truncated, and what was typed already is unwrapped. */
  function Normal(v: GoValue): GoValue {
    match v
    case GoMap(m) => GoMap(map k | k in m :: Normal(m[k]))
    case GoList(vs) => GoList(seq(|vs|, i requires 0 <= i < |vs| => Normal(vs[i])))
    case GoInt(i) => GoInt32(TruncateInt32(i))
    case GoTypedValue(tv) => Unwrap(tv)
    case GoTypedMap(m) => GoMap(map k | k in m :: Unwrap(m[k]))
    case GoTypedList(tvs) => GoList(seq(|tvs|, i requires 0 <= i < |tvs| => Unwrap(tvs[i])))
    case GoMessage(msg) => Unwrap(Pack(msg))
    case _ => v
  }

  ghost predicate UnwrapsNormal(v: GoValue) {
    Wrap(v).Ok? && Unwrap(Wrap(v).value) == Normal(v)
  }

  lemma NormalMap(m: map<string, GoValue>)
    requires forall k | k in m :: UnwrapsNormal(m[k])
    ensures UnwrapsNormal(GoMap(m))
  {
    WrapFields(m);
    assert Unwrap(Wrap(GoMap(m)).value).fields == Normal(GoMap(m)).fields;
  }

  lemma NormalList(vs: seq<GoValue>)
    requires forall i | 0 <= i < |vs| :: UnwrapsNormal(vs[i])
    ensures UnwrapsNormal(GoList(vs))
  {
    WrapItems(vs);
    assert Unwrap(Wrap(GoList(vs)).value).items == Normal(GoList(vs)).items;
  }

  /** Whatever can be wrapped, typed or not, is unwrapped to its normal form. */
  lemma {:induction false} UnwrapWrapNormal(v: GoValue)
    requires Supported(v)
    ensures Wrap(v).Ok? && Unwrap(Wrap(v).value) == Normal(v)
  {
    match v
    case GoMap(m) =>
      forall k | k in m ensures UnwrapsNormal(m[k]) { UnwrapWrapNormal(m[k]); }
      NormalMap(m);
    case GoList(vs) =>
      forall i | 0 <= i < |vs| ensures UnwrapsNormal(vs[i]) { UnwrapWrapNormal(vs[i]); }
      NormalList(vs);
    case _ =>
  }

  /** The normal form of plain data only truncates its ints. */
  lemma {:induction false} NormalOfPlain(v: GoValue)
    requires PlainData(v)
    ensures Normal(v) == TruncateInts(v)
  {
    UnwrapWrap(v);
    PlainIsSupported(v);
    UnwrapWrapNormal(v);
  }

  lemma PlainIsSupported(v: GoValue)
    requires PlainData(v)
    ensures Supported(v)
  {
    UnwrapWrap(v);
    WrapSupported(v);
  }

  /** The value is an expression by its text or by its type. */
  predicate DenotesExpression(v: GoValue) {
    match v
    case GoString(s) => IsExpression(s)
    case GoTypedValue(tv) => tv.value.Expression?
    case GoMessage(msg) => msg.Expression?
    case _ => false
  }

  lemma WrapsAsExpression(v: GoValue)
    ensures Wrap(v).Ok? ==> (Wrap(v).value.value.Expression? <==> DenotesExpression(v))
  {
  }

  lemma TypedFieldsStay(m: map<string, TypedValue>)
    ensures Wrap(GoMap(map k | k in m :: GoTypedValue(m[k]))) == Ok(Pack(MapValue(m)))
  {
    var fields := map k | k in m :: GoTypedValue(m[k]);
    WrapFields(fields);
    assert Wrap(GoMap(fields)).value.value.entries == m;
  }

  lemma TypedItemsStay(tvs: seq<TypedValue>)
    ensures Wrap(GoList(seq(|tvs|, i requires 0 <= i < |tvs| => GoTypedValue(tvs[i])))) == Ok(Pack(ArrayValue(tvs)))
  {
    var items := seq(|tvs|, i requires 0 <= i < |tvs| => GoTypedValue(tvs[i]));
    WrapItems(items);
    assert Wrap(GoList(items)).value.value.elements == tvs;
  }

  /** What was typed already is kept with its metadata: as it is, or as the entries and elements of what holds it, however
      that is given. */
  lemma TypedStaysTyped(tv: TypedValue, m: map<string, TypedValue>, tvs: seq<TypedValue>)
    ensures Wrap(GoTypedValue(tv)) == Ok(tv)
    ensures Wrap(GoMap(map k | k in m :: GoTypedValue(m[k]))) == Wrap(GoTypedMap(m))
    ensures Wrap(GoList(seq(|tvs|, i requires 0 <= i < |tvs| => GoTypedValue(tvs[i])))) == Wrap(GoTypedList(tvs))
    ensures Wrap(GoTypedMap(m)).Ok? && Wrap(GoTypedMap(m)).value.value == MapValue(m)
    ensures Wrap(GoTypedList(tvs)).Ok? && Wrap(GoTypedList(tvs)).value.value == ArrayValue(tvs)
  {
    TypedFieldsStay(m);
    TypedItemsStay(tvs);
  }

  // ---------- Typed value to Go value and back ----------

  /** Every string leaf is typed as `Wrap` would type it. */
  predicate Canonical(tv: TypedValue) {
    match tv.value
    case MapValue(m) => forall k | k in m :: Canonical(m[k])
    case ArrayValue(vs) => forall i | 0 <= i < |vs| :: Canonical(vs[i])
    case StringValue(s) => !IsExpression(s)
    case Expression(s) => IsExpression(s)
    case _ => true
  }

  /** The value without the annotations that unwrapping drops. */
  function Strip(tv: TypedValue): TypedValue {
    match tv.value
    case MapValue(m) => Pack(MapValue(map k | k in m :: Strip(m[k])))
    case ArrayValue(vs) => Pack(ArrayValue(seq(|vs|, i requires 0 <= i < |vs| => Strip(vs[i]))))
    case _ => Pack(tv.value)
  }

  ghost predicate RoundTrips(tv: TypedValue) {
    && Wrap(Unwrap(tv)).Ok?
    && (Wrap(Unwrap(tv)).value == Strip(tv) <==> Canonical(tv))
  }

  lemma RewrapMap(tv: TypedValue)
    requires tv.value.MapValue? && forall k | k in tv.value.entries :: Wrap(Unwrap(tv.value.entries[k])).Ok?
    ensures Wrap(Unwrap(tv)).Ok? && Wrap(Unwrap(tv)).value.metadata == map[] && Wrap(Unwrap(tv)).value.value.MapValue?
    ensures Wrap(Unwrap(tv)).value.value.entries ==
      map k | k in tv.value.entries :: Wrap(Unwrap(tv.value.entries[k])).value
  {
    var unwrapped := map k | k in tv.value.entries :: Unwrap(tv.value.entries[k]);
    assert Unwrap(tv) == GoMap(unwrapped);
    WrapFields(unwrapped);
  }

  lemma RoundTripMap(tv: TypedValue)
    requires tv.value.MapValue?
    requires forall k | k in tv.value.entries :: RoundTrips(tv.value.entries[k])
    ensures RoundTrips(tv)
  {
    RewrapMap(tv);
    var m, rewrapped, stripped := tv.value.entries, Wrap(Unwrap(tv)).value.value.entries, Strip(tv).value.entries;
    assert rewrapped.Keys == stripped.Keys;
    if k :| k in m && !Canonical(m[k]) {
      assert rewrapped[k] != stripped[k];
    } else {
      assert rewrapped == stripped;
    }
  }

  lemma RoundTripArray(tv: TypedValue)
    requires tv.value.ArrayValue?
    requires forall i | 0 <= i < |tv.value.elements| :: RoundTrips(tv.value.elements[i])
    ensures RoundTrips(tv)
  {
    var vs := tv.value.elements;
    var unwrapped := seq(|vs|, i requires 0 <= i < |vs| => Unwrap(vs[i]));
    assert Unwrap(tv) == GoList(unwrapped);
    WrapItems(unwrapped);
    var rewrapped := Wrap(GoList(unwrapped)).value.value.elements;
    var stripped := Strip(tv).value.elements;
    assert |rewrapped| == |stripped| == |vs|;
    if i :| 0 <= i < |vs| && !Canonical(vs[i]) {
      assert rewrapped[i] != stripped[i];
    } else {
      assert rewrapped == stripped;
    }
  }

  /** Every typed value can be unwrapped and wrapped again. It comes back without its metadata and otherwise
      unchanged exactly when its string leaves are canonical. */
  lemma {:induction false} RoundTripTypedValue(tv: TypedValue)
    ensures Wrap(Unwrap(tv)).Ok?
    ensures Wrap(Unwrap(tv)).value == Strip(tv) <==> Canonical(tv)
  {
    match tv.value
    case MapValue(m) =>
      forall k | k in m ensures RoundTrips(m[k]) { RoundTripTypedValue(m[k]); }
      RoundTripMap(tv);
    case ArrayValue(vs) =>
      forall i | 0 <= i < |vs| ensures RoundTrips(vs[i]) { RoundTripTypedValue(vs[i]); }
      RoundTripArray(tv);
    case _ =>
  }

  /** Wrapping and unwrapping once more changes nothing for a reader. */
  lemma UnwrapTwice(tv: TypedValue)
    ensures Wrap(Unwrap(tv)).Ok? && Unwrap(Wrap(Unwrap(tv)).value) == Unwrap(tv)
  {
    RoundTripTypedValue(tv);
    WrapSupported(Unwrap(tv));
    UnwrapWrapNormal(Unwrap(tv));
    NormalOfUnwrapped(tv);
  }

  lemma {:induction false} NormalOfUnwrapped(tv: TypedValue)
    ensures Normal(Unwrap(tv)) == Unwrap(tv)
  {
    match tv.value
    case MapValue(m) =>
      forall k | k in m ensures Normal(Unwrap(m[k])) == Unwrap(m[k]) { NormalOfUnwrapped(m[k]); }
      assert Normal(Unwrap(tv)).fields == Unwrap(tv).fields;
    case ArrayValue(vs) =>
      forall i | 0 <= i < |vs| ensures Normal(Unwrap(vs[i])) == Unwrap(vs[i]) { NormalOfUnwrapped(vs[i]); }
      assert Normal(Unwrap(tv)).items == Unwrap(tv).items;
    case _ =>
  }

  ghost predicate WrapsCanonically(v: GoValue) {
    Wrap(v).Ok? && Canonical(Wrap(v).value) && Strip(Wrap(v).value) == Wrap(v).value
  }

  lemma WrapCanonicalMap(m: map<string, GoValue>)
    requires forall k | k in m :: WrapsCanonically(m[k])
    ensures WrapsCanonically(GoMap(m))
  {
    WrapFields(m);
    assert Strip(Wrap(GoMap(m)).value).value.entries == Wrap(GoMap(m)).value.value.entries;
  }

  lemma WrapCanonicalList(vs: seq<GoValue>)
    requires forall i | 0 <= i < |vs| :: WrapsCanonically(vs[i])
    ensures WrapsCanonically(GoList(vs))
  {
    WrapItems(vs);
    assert Strip(Wrap(GoList(vs)).value).value.elements == Wrap(GoList(vs)).value.value.elements;
  }

  lemma {:induction false} WrapCanonical(v: GoValue)
    requires PlainData(v)
    ensures Wrap(v).Ok? && Canonical(Wrap(v).value) && Strip(Wrap(v).value) == Wrap(v).value
  {
    match v
    case GoMap(m) =>
      forall k | k in m ensures WrapsCanonically(m[k]) { WrapCanonical(m[k]); }
      WrapCanonicalMap(m);
    case GoList(vs) =>
      forall i | 0 <= i < |vs| ensures WrapsCanonically(vs[i]) { WrapCanonical(vs[i]); }
      WrapCanonicalList(vs);
    case _ =>
  }

  /** A typed value that `Wrap` built from plain data is unchanged by unwrapping and wrapping it again. */
  lemma RewrapWrapped(v: GoValue)
    requires PlainData(v)
    ensures Wrap(v).Ok? && Wrap(Unwrap(Wrap(v).value)) == Wrap(v)
  {
    WrapCanonical(v);
    RoundTripTypedValue(Wrap(v).value);
  }
}
