/** Thrift values as trees, and the Binary Protocol encoding of each of them. */
module ThriftValue {
  import opened BigEndian

  const T_STOP: byte := 0
  const T_BOOL: byte := 2
  const T_BYTE: byte := 3
  const T_DOUBLE: byte := 4
  const T_I16: byte := 6
  const T_I32: byte := 8
  const T_I64: byte := 10
  const T_STRING: byte := 11
  const T_STRUCT: byte := 12
  const T_MAP: byte := 13
  const T_SET: byte := 14
  const T_LIST: byte := 15

  const MAX_CONTAINER_ELEMENTS := 16384
  const MAX_SKIP_DEPTH := 32
  const MAX_LENGTH := 0x7fff_ffff

  predicate ValidFieldType(t: byte) {
    t in {T_BOOL, T_BYTE, T_DOUBLE, T_I16, T_I32, T_I64, T_STRING, T_STRUCT, T_MAP, T_SET, T_LIST}
  }

  /** The width of the types whose encoding is a fixed number of bytes; 0 for the others. */
  function FixedWidth(t: byte): nat {
    if t == T_BOOL || t == T_BYTE then 1
    else if t == T_I16 then 2
    else if t == T_I32 then 4
    else if t == T_I64 || t == T_DOUBLE then 8
    else 0
  }

  /** Fixed-width values are their raw bytes. The cells of a map are its keys and values in turn. */
  datatype Value =
    | Fixed(fixedType: byte, raw: seq<byte>)
    | Binary(bytes: seq<byte>)
    | Struct(fields: seq<Field>)
    | Map(keyType: byte, valueType: byte, cells: seq<Value>)
    | Elements(containerType: byte, elementType: byte, elements: seq<Value>)

  datatype Field = Field(id: int16, value: Value)

  function TypeOf(v: Value): byte {
    match v
    case Fixed(t, _) => t
    case Binary(_) => T_STRING
    case Struct(_) => T_STRUCT
    case Map(_, _, _) => T_MAP
    case Elements(t, _, _) => t
  }

  function I32Value(n: int): Value { Fixed(T_I32, Digits(n, 4)) }

  function I64Value(n: int): Value { Fixed(T_I64, Digits(n, 8)) }

  function BoolValue(b: bool): Value { Fixed(T_BOOL, [if b then 1 else 0]) }

  function ListValue(t: byte, vs: seq<Value>): Value { Elements(T_LIST, t, vs) }

  /** n copies of a pattern of types: the types a container's header announces. */
  function Repeat(pattern: seq<byte>, n: nat): (ts: seq<byte>)
    ensures |ts| == n * |pattern|
  {
    if n == 0 then []
    else
      assert n * |pattern| == |pattern| + (n - 1) * |pattern|;
      pattern + Repeat(pattern, n - 1)
  }

  function Types(vs: seq<Value>): (ts: seq<byte>)
    ensures |ts| == |vs|
  {
    if vs == [] then [] else [TypeOf(vs[0])] + Types(vs[1..])
  }

  /** What any sender may put on the wire: lengths that fit their prefix, elements of the announced type. */
  predicate Encodable(v: Value)
    decreases v, 1
  {
    match v
    case Fixed(t, raw) => FixedWidth(t) > 0 && |raw| == FixedWidth(t)
    case Binary(bytes) => |bytes| <= MAX_LENGTH
    case Struct(fields) => EncodableFields(fields)
    case Map(k, w, cells) =>
      && ValidFieldType(k) && ValidFieldType(w)
      && |cells| % 2 == 0 && |cells| / 2 <= MAX_LENGTH
      && Types(cells) == Repeat([k, w], |cells| / 2)
      && EncodableAll(cells)
    case Elements(c, t, elements) =>
      && (c == T_LIST || c == T_SET) && ValidFieldType(t)
      && |elements| <= MAX_LENGTH
      && Types(elements) == Repeat([t], |elements|)
      && EncodableAll(elements)
  }

  predicate EncodableAll(vs: seq<Value>)
    decreases vs, 0
  {
    vs == [] || (Encodable(vs[0]) && EncodableAll(vs[1..]))
  }

  predicate EncodableFields(fs: seq<Field>)
    decreases fs, 0
  {
    fs == [] || (EncodableField(fs[0]) && EncodableFields(fs[1..]))
  }

  predicate EncodableField(f: Field)
    decreases f
  {
    Encodable(f.value)
  }

  /** Lengths are cast to 32 bits on the way out, so only their low four bytes are written. */
  function Encode(v: Value): seq<byte>
    decreases v, 1
  {
    match v
    case Fixed(_, raw) => raw
    case Binary(bytes) => Digits(|bytes|, 4) + bytes
    case Struct(fields) => EncodeFields(fields)
    case Map(k, w, cells) => [k, w] + Digits(|cells| / 2, 4) + EncodeAll(cells)
    case Elements(_, t, elements) => [t] + Digits(|elements|, 4) + EncodeAll(elements)
  }

  function EncodeAll(vs: seq<Value>): seq<byte>
    decreases vs, 0
  {
    if vs == [] then [] else Encode(vs[0]) + EncodeAll(vs[1..])
  }

  function FieldHeader(t: byte, id: int16): seq<byte> {
    [t] + Digits(id, 2)
  }

  /** Every field, then the STOP byte. */
  function EncodeFields(fs: seq<Field>): (bytes: seq<byte>)
    ensures |bytes| > 0
    decreases fs, 0
  {
    if fs == [] then [T_STOP]
    else EncodeField(fs[0]) + EncodeFields(fs[1..])
  }

  function EncodeField(f: Field): (bytes: seq<byte>)
    ensures |bytes| >= 3
    decreases f
  {
    FieldHeader(TypeOf(f.value), f.id) + Encode(f.value)
  }

  /** How much of the depth allowance a value uses up. */
  function Cost(v: Value): nat
    decreases v, 1
  {
    match v
    case Fixed(_, _) => 0
    case Binary(_) => 0
    case Struct(fields) => if fields == [] then 1 else 2 + MaxFieldCost(fields)
    case Map(_, _, cells) => if cells == [] then 0 else 1 + MaxCost(cells)
    case Elements(_, _, elements) => if elements == [] then 0 else 1 + MaxCost(elements)
  }

  function MaxCost(vs: seq<Value>): nat
    decreases vs, 0
  {
    if vs == [] then 0
    else
      var head, tail := Cost(vs[0]), MaxCost(vs[1..]);
      if head > tail then head else tail
  }

  function MaxFieldCost(fs: seq<Field>): nat
    decreases fs, 0
  {
    if fs == [] then 0
    else
      var head, tail := FieldCost(fs[0]), MaxFieldCost(fs[1..]);
      if head > tail then head else tail
  }

  function FieldCost(f: Field): nat
    decreases f
  {
    Cost(f.value)
  }

  /** No container anywhere in the value is over the element limit. */
  predicate Bounded(v: Value)
    decreases v, 1
  {
    match v
    case Fixed(_, _) => true
    case Binary(_) => true
    case Struct(fields) => BoundedFields(fields)
    case Map(_, _, cells) => |cells| / 2 <= MAX_CONTAINER_ELEMENTS && BoundedAll(cells)
    case Elements(_, _, elements) => |elements| <= MAX_CONTAINER_ELEMENTS && BoundedAll(elements)
  }

  predicate BoundedAll(vs: seq<Value>)
    decreases vs, 0
  {
    vs == [] || (Bounded(vs[0]) && BoundedAll(vs[1..]))
  }

  predicate BoundedFields(fs: seq<Field>)
    decreases fs, 0
  {
    fs == [] || (BoundedField(fs[0]) && BoundedFields(fs[1..]))
  }

  predicate BoundedField(f: Field)
    decreases f
  {
    Bounded(f.value)
  }

  /** A value the reader can step over when `depth` levels of the allowance are already spent. */
  predicate Skippable(v: Value, depth: nat) {
    Encodable(v) && Bounded(v) && depth + Cost(v) <= MAX_SKIP_DEPTH
  }

  // ----- unique decodability -----

  lemma EncodableType(v: Value)
    requires Encodable(v)
    ensures ValidFieldType(TypeOf(v))
  {
  }

  lemma DigitsInjective(a: nat, b: nat)
    requires a <= MAX_LENGTH && b <= MAX_LENGTH
    requires Digits(a, 4) == Digits(b, 4)
    ensures a == b
  {
    SpanValues();
    SignedDigits(a, 4);
    SignedDigits(b, 4);
  }

  lemma CancelPrefix(a: seq<byte>, s: seq<byte>, b: seq<byte>, t: seq<byte>)
    requires |a| == |b| && a + s == b + t
    ensures a == b && s == t
  {
    assert (a + s)[..|a|] == a && (b + t)[..|b|] == b;
    assert (a + s)[|a|..] == s && (b + t)[|b|..] == t;
  }

  lemma FieldIdInjective(a: int16, b: int16)
    requires Digits(a, 2) == Digits(b, 2)
    ensures a == b
  {
    SpanValues();
    SignedDigits(a, 2);
    SignedDigits(b, 2);
  }

  /** A length prefix pins down where the rest starts. */
  lemma CancelPrefixed(a: seq<byte>, s: seq<byte>, x: seq<byte>, b: seq<byte>, t: seq<byte>, y: seq<byte>)
    requires |a| == |b| && a + s + x == b + t + y
    ensures a == b && s + x == t + y
  {
    assert a + s + x == a + (s + x) && b + t + y == b + (t + y);
    CancelPrefix(a, s + x, b, t + y);
  }

  /** Two values of one type whose encodings start the same byte string are the same value. */
  lemma {:induction false} EncodeUnique(v: Value, s: seq<byte>, w: Value, t: seq<byte>)
    requires Encodable(v) && Encodable(w) && TypeOf(v) == TypeOf(w)
    requires Encode(v) + s == Encode(w) + t
    ensures v == w && s == t
    decreases v, 1
  {
    match v {
      case Fixed(_, raw) =>
        assert w.Fixed?;
        CancelPrefix(raw, s, w.raw, t);
      case Binary(bytes) =>
        assert w.Binary?;
        CancelPrefixed(Digits(|bytes|, 4), bytes, s, Digits(|w.bytes|, 4), w.bytes, t);
        DigitsInjective(|bytes|, |w.bytes|);
        CancelPrefix(bytes, s, w.bytes, t);
      case Struct(fields) =>
        assert w.Struct?;
        EncodeFieldsUnique(fields, s, w.fields, t);
      case Map(k, x, cells) =>
        assert w.Map?;
        var a, b := [k, x] + Digits(|cells| / 2, 4), [w.keyType, w.valueType] + Digits(|w.cells| / 2, 4);
        CancelPrefixed(a, EncodeAll(cells), s, b, EncodeAll(w.cells), t);
        assert a[0] == k && a[1] == x && b[0] == w.keyType && b[1] == w.valueType;
        assert a[2..] == Digits(|cells| / 2, 4) && b[2..] == Digits(|w.cells| / 2, 4);
        DigitsInjective(|cells| / 2, |w.cells| / 2);
        EncodeAllUnique(cells, s, w.cells, t);
      case Elements(_, e, elements) =>
        assert w.Elements?;
        var a, b := [e] + Digits(|elements|, 4), [w.elementType] + Digits(|w.elements|, 4);
        CancelPrefixed(a, EncodeAll(elements), s, b, EncodeAll(w.elements), t);
        assert a[0] == e && b[0] == w.elementType;
        assert a[1..] == Digits(|elements|, 4) && b[1..] == Digits(|w.elements|, 4);
        DigitsInjective(|elements|, |w.elements|);
        EncodeAllUnique(elements, s, w.elements, t);
    }
  }

  lemma HeadTail<T>(xs: seq<T>, ys: seq<T>)
    requires xs != [] && ys != [] && xs[0] == ys[0] && xs[1..] == ys[1..]
    ensures xs == ys
  {
    assert xs == [xs[0]] + xs[1..] && ys == [ys[0]] + ys[1..];
  }

  /** A list of values is its first and the rest, in what it takes to encode it, in its types and on the wire. */
  lemma AllSplit(vs: seq<Value>, s: seq<byte>)
    requires vs != [] && EncodableAll(vs)
    ensures Encodable(vs[0]) && EncodableAll(vs[1..])
    ensures Types(vs)[0] == TypeOf(vs[0]) && Types(vs)[1..] == Types(vs[1..])
    ensures EncodeAll(vs) + s == Encode(vs[0]) + (EncodeAll(vs[1..]) + s)
  {
    hide Encode, Encodable;
    assert Encode(vs[0]) + EncodeAll(vs[1..]) + s == Encode(vs[0]) + (EncodeAll(vs[1..]) + s);
  }

  lemma {:induction false} EncodeAllUnique(vs: seq<Value>, s: seq<byte>, ws: seq<Value>, t: seq<byte>)
    requires EncodableAll(vs) && EncodableAll(ws) && Types(vs) == Types(ws)
    requires EncodeAll(vs) + s == EncodeAll(ws) + t
    ensures vs == ws && s == t
    decreases vs, 0
  {
    assert |vs| == |Types(vs)| && |ws| == |Types(ws)|;
    if vs == [] {
      assert [] + s == s && [] + t == t;
    } else {
      hide Encode, EncodeAll, Encodable, EncodableAll, Types, Digits, TypeOf;
      AllSplit(vs, s);
      AllSplit(ws, t);
      EncodeUnique(vs[0], EncodeAll(vs[1..]) + s, ws[0], EncodeAll(ws[1..]) + t);
      EncodeAllUnique(vs[1..], s, ws[1..], t);
      HeadTail(vs, ws);
    }
  }

  lemma {:induction false} EncodeFieldUnique(f: Field, s: seq<byte>, g: Field, t: seq<byte>)
    requires EncodableField(f) && EncodableField(g)
    requires EncodeField(f) + s == EncodeField(g) + t
    ensures f == g && s == t
    decreases f
  {
    var a, b := FieldHeader(TypeOf(f.value), f.id), FieldHeader(TypeOf(g.value), g.id);
    CancelPrefixed(a, Encode(f.value), s, b, Encode(g.value), t);
    assert a[0] == TypeOf(f.value) && b[0] == TypeOf(g.value);
    assert a[1..] == Digits(f.id, 2) && b[1..] == Digits(g.id, 2);
    FieldIdInjective(f.id, g.id);
    EncodeUnique(f.value, s, g.value, t);
  }

  /** The first byte of an encoded field list is STOP exactly when the list is empty. */
  lemma FieldsFirstByte(fs: seq<Field>)
    requires EncodableFields(fs)
    ensures EncodeFields(fs)[0] == T_STOP <==> fs == []
  {
    if fs != [] {
      EncodableType(fs[0].value);
      assert EncodeFields(fs)[0] == EncodeField(fs[0])[0] == TypeOf(fs[0].value);
    }
  }

  /** So is a list of fields. */
  lemma FieldsSplit(fs: seq<Field>, s: seq<byte>)
    requires fs != [] && EncodableFields(fs)
    ensures EncodableField(fs[0]) && EncodableFields(fs[1..])
    ensures EncodeFields(fs) + s == EncodeField(fs[0]) + (EncodeFields(fs[1..]) + s)
  {
    hide EncodeField, EncodableField;
    assert EncodeField(fs[0]) + EncodeFields(fs[1..]) + s == EncodeField(fs[0]) + (EncodeFields(fs[1..]) + s);
  }

  lemma {:induction false} EncodeFieldsUnique(fs: seq<Field>, s: seq<byte>, gs: seq<Field>, t: seq<byte>)
    requires EncodableFields(fs) && EncodableFields(gs)
    requires EncodeFields(fs) + s == EncodeFields(gs) + t
    ensures fs == gs && s == t
    decreases fs, 0
  {
    hide Encode, Encodable, EncodeField, EncodableField, EncodableFields, Digits, FieldHeader;
    assert (EncodeFields(fs) + s)[0] == EncodeFields(fs)[0];
    assert (EncodeFields(gs) + t)[0] == EncodeFields(gs)[0];
    FieldsFirstByte(fs);
    FieldsFirstByte(gs);
    if fs == [] {
      CancelPrefix([T_STOP], s, [T_STOP], t);
    } else {
      hide EncodeFields;
      FieldsSplit(fs, s);
      FieldsSplit(gs, t);
      EncodeFieldUnique(fs[0], EncodeFields(fs[1..]) + s, gs[0], EncodeFields(gs[1..]) + t);
      EncodeFieldsUnique(fs[1..], s, gs[1..], t);
      HeadTail(fs, gs);
    }
  }
}
