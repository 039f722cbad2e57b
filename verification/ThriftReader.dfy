/** The reader: stepping over a value of a known type, and the class that does it over a buffer. */
module ThriftReader {
  import opened Wrappers
  import opened BigEndian
  import opened ThriftValue

  /** The bytes stand at this position of the buffer. */
  predicate At(buf: seq<byte>, pos: nat, bytes: seq<byte>) {
    pos + |bytes| <= |buf| && buf[pos..pos + |bytes|] == bytes
  }

  lemma AtConcat(buf: seq<byte>, pos: nat, a: seq<byte>, b: seq<byte>)
    ensures At(buf, pos, a + b) <==> At(buf, pos, a) && At(buf, pos + |a|, b)
  {
    if pos + |a| + |b| <= |buf| {
      assert buf[pos..pos + |a| + |b|] == buf[pos..pos + |a|] + buf[pos + |a|..pos + |a| + |b|];
      if At(buf, pos, a + b) {
        CancelPrefix(buf[pos..pos + |a|], buf[pos + |a|..pos + |a| + |b|], a, b);
      }
    }
  }

  lemma AtFirst(buf: seq<byte>, pos: nat, bytes: seq<byte>)
    requires At(buf, pos, bytes) && bytes != []
    ensures pos < |buf| && buf[pos] == bytes[0]
  {
    assert buf[pos..pos + |bytes|][0] == buf[pos];
  }

  /** Where a scan stopped, whether it succeeded, and how many values it was asked to step over. */
  datatype Scan = Scan(ok: bool, pos: nat, calls: nat)

  function Later(n: nat, r: Scan): Scan { r.(calls := n + r.calls) }

  function Levels(depth: nat): nat { if depth > MAX_SKIP_DEPTH then 0 else MAX_SKIP_DEPTH + 1 - depth }

  function Word(buf: seq<byte>, pos: nat): (n: int32)
    requires pos + 4 <= |buf|
  {
    SpanValues();
    Signed(buf[pos..pos + 4])
  }

  function ScanExact(buf: seq<byte>, pos: nat, len: nat): Scan
    requires pos <= |buf|
  {
    if pos + len <= |buf| then Scan(true, pos + len, 0) else Scan(false, pos, 0)
  }

  function ScanBinary(buf: seq<byte>, pos: nat): Scan
    requires pos <= |buf|
  {
    if pos + 4 > |buf| then Scan(false, pos, 0)
    else if Word(buf, pos) < 0 then Scan(false, pos + 4, 0)
    else ScanExact(buf, pos + 4, Word(buf, pos))
  }

  function ScanElementType(buf: seq<byte>, pos: nat): Scan
    requires pos <= |buf|
  {
    if pos == |buf| then Scan(false, pos, 0) else Scan(ValidFieldType(buf[pos]), pos + 1, 0)
  }

  function ScanContainerSize(buf: seq<byte>, pos: nat): Scan
    requires pos <= |buf|
  {
    if pos + 4 > |buf| then Scan(false, pos, 0)
    else Scan(0 <= Word(buf, pos) <= MAX_CONTAINER_ELEMENTS, pos + 4, 0)
  }

  function ScanFieldBegin(buf: seq<byte>, pos: nat): Scan
    requires pos <= |buf|
  {
    if pos == |buf| then Scan(false, pos, 0)
    else if buf[pos] == T_STOP then Scan(true, pos + 1, 0)
    else if !ValidFieldType(buf[pos]) then Scan(false, pos + 1, 0)
    else ScanExact(buf, pos + 1, 2)
  }

  /** Stepping over one value. Whatever the bytes are, no more values are visited than bytes
      consumed, plus the one that failed if the scan fails. */
  function SkipValue(buf: seq<byte>, pos: nat, t: byte, depth: nat): (r: Scan)
    requires pos <= |buf|
    ensures pos <= r.pos <= |buf|
    ensures r.ok ==> r.calls <= r.pos - pos
    ensures !r.ok ==> r.calls <= r.pos - pos + 1
    decreases Levels(depth), 0
  {
    if depth > MAX_SKIP_DEPTH then Scan(false, pos, 1)
    else if FixedWidth(t) > 0 then Later(1, ScanExact(buf, pos, FixedWidth(t)))
    else if t == T_STRING then Later(1, ScanBinary(buf, pos))
    else if t == T_STRUCT then Later(1, SkipFields(buf, pos, depth + 1))
    else if t == T_MAP then Later(1, SkipMap(buf, pos, depth + 1))
    else if t == T_LIST || t == T_SET then Later(1, SkipElements(buf, pos, depth + 1))
    else Scan(false, pos, 1)
  }

  /** The rest of a map, with its cells at this depth. */
  function SkipMap(buf: seq<byte>, pos: nat, depth: nat): (r: Scan)
    requires pos <= |buf|
    ensures pos <= r.pos <= |buf|
    ensures r.calls <= r.pos - pos
    ensures r.ok ==> r.calls < r.pos - pos
    decreases Levels(depth), 2 * MAX_CONTAINER_ELEMENTS + 1
  {
    var key := ScanElementType(buf, pos);
    if !key.ok then key else
    var value := ScanElementType(buf, key.pos);
    if !value.ok then value else
    var size := ScanContainerSize(buf, value.pos);
    if !size.ok then size else
    SkipAll(buf, size.pos, Repeat([buf[pos], buf[pos + 1]], Word(buf, pos + 2)), depth)
  }

  /** The rest of a list or a set, with its elements at this depth. */
  function SkipElements(buf: seq<byte>, pos: nat, depth: nat): (r: Scan)
    requires pos <= |buf|
    ensures pos <= r.pos <= |buf|
    ensures r.calls <= r.pos - pos
    ensures r.ok ==> r.calls < r.pos - pos
    decreases Levels(depth), 2 * MAX_CONTAINER_ELEMENTS + 1
  {
    var element := ScanElementType(buf, pos);
    if !element.ok then element else
    var size := ScanContainerSize(buf, element.pos);
    if !size.ok then size else
    SkipAll(buf, size.pos, Repeat([buf[pos]], Word(buf, pos + 1)), depth)
  }

  function SkipAll(buf: seq<byte>, pos: nat, types: seq<byte>, depth: nat): (r: Scan)
    requires pos <= |buf|
    ensures pos <= r.pos <= |buf|
    ensures r.ok ==> r.calls <= r.pos - pos
    ensures !r.ok ==> r.calls <= r.pos - pos + 1
    decreases Levels(depth), |types|
  {
    if types == [] then Scan(true, pos, 0)
    else
      var head := SkipValue(buf, pos, types[0], depth);
      if !head.ok then head else Later(head.calls, SkipAll(buf, head.pos, types[1..], depth))
  }

  function SkipFields(buf: seq<byte>, pos: nat, depth: nat): (r: Scan)
    requires pos <= |buf|
    ensures pos <= r.pos <= |buf|
    ensures r.ok ==> r.calls < r.pos - pos
    ensures !r.ok ==> r.calls <= r.pos - pos
    decreases Levels(depth), |buf| - pos
  {
    if depth > MAX_SKIP_DEPTH then Scan(false, pos, 0) else SkipFieldsLoop(buf, pos, depth)
  }

  function SkipFieldsLoop(buf: seq<byte>, pos: nat, depth: nat): (r: Scan)
    requires pos <= |buf| && depth <= MAX_SKIP_DEPTH
    ensures pos <= r.pos <= |buf|
    ensures r.ok ==> r.calls < r.pos - pos
    ensures !r.ok ==> r.calls <= r.pos - pos
    decreases Levels(depth), |buf| - pos, 0
  {
    var header := ScanFieldBegin(buf, pos);
    if !header.ok || buf[pos] == T_STOP then header
    else
      var value := SkipValue(buf, header.pos, buf[pos], depth + 1);
      if !value.ok then value else Later(value.calls, SkipFieldsLoop(buf, value.pos, depth))
  }

  // ----- the scan recognizes exactly the encodings -----

  lemma WordOfDigits(buf: seq<byte>, pos: nat, n: int32)
    requires At(buf, pos, Digits(n, 4))
    ensures Word(buf, pos) == n
  {
    SpanValues();
    SignedDigits(n, 4);
  }

  lemma DigitsOfWord(buf: seq<byte>, pos: nat)
    requires pos + 4 <= |buf|
    ensures Digits(Word(buf, pos), 4) == buf[pos..pos + 4]
  {
    DigitsSigned(buf[pos..pos + 4]);
  }

  lemma RepeatSingle(t: byte, n: nat)
    ensures |Repeat([t], n)| == n
  {
  }

  lemma RepeatPair(k: byte, v: byte, n: nat)
    ensures |Repeat([k, v], n)| == 2 * n
  {
  }

  /** Completeness: a value within the limits is stepped over, wherever it stands. */
  lemma {:induction false} SkipComplete(buf: seq<byte>, pos: nat, v: Value, depth: nat)
    requires Skippable(v, depth) && At(buf, pos, Encode(v))
    ensures var r := SkipValue(buf, pos, TypeOf(v), depth);
      r.ok && r.pos == pos + |Encode(v)|
    decreases v, 1
  {
    hide SkipFieldsLoop, SkipMap, SkipElements, Digits, Unsigned, EncodeAll, EncodeFields, EncodableAll,
      EncodableFields, BoundedAll, BoundedFields, MaxCost, MaxFieldCost;
    match v {
      case Fixed(_, _) =>
      case Binary(bytes) =>
        AtConcat(buf, pos, Digits(|bytes|, 4), bytes);
        WordOfDigits(buf, pos, |bytes|);
      case Struct(fields) =>
        SkipFieldsComplete(buf, pos, fields, depth + 1);
      case Map(_, _, _) => SkipMapComplete(buf, pos, v, depth + 1);
      case Elements(_, _, _) => SkipElementsComplete(buf, pos, v, depth + 1);
    }
  }

  lemma {:induction false} SkipMapComplete(buf: seq<byte>, pos: nat, v: Value, depth: nat)
    requires v.Map? && Encodable(v) && Bounded(v) && At(buf, pos, Encode(v))
    requires v.cells != [] ==> depth + MaxCost(v.cells) <= MAX_SKIP_DEPTH
    ensures SkipMap(buf, pos, depth).ok && SkipMap(buf, pos, depth).pos == pos + |Encode(v)|
    decreases v, 0
  {
    hide SkipAll, Digits, Unsigned, EncodeAll, EncodableAll, BoundedAll, MaxCost, Types, Repeat;
    var Map(k, x, cells) := v;
    var n := |cells| / 2;
    AtConcat(buf, pos, [k, x] + Digits(n, 4), EncodeAll(cells));
    AtConcat(buf, pos, [k, x], Digits(n, 4));
    AtConcat(buf, pos, [k], [x]);
    assert [k] + [x] == [k, x];
    AtFirst(buf, pos, [k]);
    AtFirst(buf, pos + 1, [x]);
    WordOfDigits(buf, pos + 2, n);
    SkipAllComplete(buf, pos + 6, cells, depth);
  }

  lemma {:induction false} SkipElementsComplete(buf: seq<byte>, pos: nat, v: Value, depth: nat)
    requires v.Elements? && Encodable(v) && Bounded(v) && At(buf, pos, Encode(v))
    requires v.elements != [] ==> depth + MaxCost(v.elements) <= MAX_SKIP_DEPTH
    ensures SkipElements(buf, pos, depth).ok && SkipElements(buf, pos, depth).pos == pos + |Encode(v)|
    decreases v, 0
  {
    hide SkipAll, Digits, Unsigned, EncodeAll, EncodableAll, BoundedAll, MaxCost, Types, Repeat;
    var e, n := v.elementType, |v.elements|;
    AtConcat(buf, pos, [e] + Digits(n, 4), EncodeAll(v.elements));
    AtConcat(buf, pos, [e], Digits(n, 4));
    AtFirst(buf, pos, [e]);
    WordOfDigits(buf, pos + 1, n);
    SkipAllComplete(buf, pos + 5, v.elements, depth);
  }

  lemma {:induction false} SkipAllComplete(buf: seq<byte>, pos: nat, vs: seq<Value>, depth: nat)
    requires EncodableAll(vs) && BoundedAll(vs) && At(buf, pos, EncodeAll(vs))
    requires vs != [] ==> depth + MaxCost(vs) <= MAX_SKIP_DEPTH
    ensures var r := SkipAll(buf, pos, Types(vs), depth);
      r.ok && r.pos == pos + |EncodeAll(vs)|
    decreases vs, 0
  {
    hide SkipValue, Encode, Encodable, Bounded, Cost;
    if vs != [] {
      AtConcat(buf, pos, Encode(vs[0]), EncodeAll(vs[1..]));
      SkipComplete(buf, pos, vs[0], depth);
      SkipAllComplete(buf, pos + |Encode(vs[0])|, vs[1..], depth);
      assert Types(vs)[0] == TypeOf(vs[0]) && Types(vs)[1..] == Types(vs[1..]);
    }
  }

  lemma {:induction false} SkipFieldComplete(buf: seq<byte>, pos: nat, f: Field, depth: nat)
    requires EncodableField(f) && BoundedField(f) && At(buf, pos, EncodeField(f))
    requires depth + FieldCost(f) <= MAX_SKIP_DEPTH
    ensures var header := ScanFieldBegin(buf, pos);
      && header.ok && buf[pos] == TypeOf(f.value) != T_STOP
      && var r := SkipValue(buf, header.pos, buf[pos], depth);
         r.ok && r.pos == pos + |EncodeField(f)|
    decreases f
  {
    FieldHeaderAt(buf, pos, f);
    SkipComplete(buf, pos + 3, f.value, depth);
  }

  lemma FieldHeaderAt(buf: seq<byte>, pos: nat, f: Field)
    requires EncodableField(f) && At(buf, pos, EncodeField(f))
    ensures ScanFieldBegin(buf, pos) == Scan(true, pos + 3, 0)
    ensures buf[pos] == TypeOf(f.value) != T_STOP
    ensures Signed(buf[pos + 1..pos + 3]) == f.id
    ensures At(buf, pos + 3, Encode(f.value))
  {
    var header := FieldHeader(TypeOf(f.value), f.id);
    EncodableType(f.value);
    AtConcat(buf, pos, header, Encode(f.value));
    AtConcat(buf, pos, [TypeOf(f.value)], Digits(f.id, 2));
    AtFirst(buf, pos, [TypeOf(f.value)]);
    SpanValues();
    SignedDigits(f.id, 2);
  }

  lemma {:induction false} SkipFieldsComplete(buf: seq<byte>, pos: nat, fs: seq<Field>, depth: nat)
    requires EncodableFields(fs) && BoundedFields(fs) && At(buf, pos, EncodeFields(fs))
    requires depth <= MAX_SKIP_DEPTH
    requires fs != [] ==> depth + 1 + MaxFieldCost(fs) <= MAX_SKIP_DEPTH
    ensures var r := SkipFieldsLoop(buf, pos, depth);
      r.ok && r.pos == pos + |EncodeFields(fs)|
    decreases fs, 0
  {
    hide At, SkipValue, Encode, EncodeField, Encodable, Bounded, Cost;
    if fs == [] {
      AtFirst(buf, pos, [T_STOP]);
    } else {
      AtConcat(buf, pos, EncodeField(fs[0]), EncodeFields(fs[1..]));
      SkipFieldComplete(buf, pos, fs[0], depth + 1);
      SkipFieldsComplete(buf, pos + |EncodeField(fs[0])|, fs[1..], depth);
    }
  }

  /** Soundness: whatever is stepped over is the encoding of a value within the limits. */
  lemma {:induction false} SkipSound(buf: seq<byte>, pos: nat, t: byte, depth: nat) returns (v: Value)
    requires pos <= |buf| && SkipValue(buf, pos, t, depth).ok
    ensures Skippable(v, depth) && TypeOf(v) == t
    ensures buf[pos..SkipValue(buf, pos, t, depth).pos] == Encode(v)
    decreases Levels(depth), 0
  {
    hide SkipFieldsLoop, SkipMap, SkipElements, Digits, Unsigned, EncodeAll, EncodeFields, EncodableAll,
      EncodableFields, BoundedAll, BoundedFields, MaxCost, MaxFieldCost;
    var r := SkipValue(buf, pos, t, depth);
    if FixedWidth(t) > 0 {
      v := Fixed(t, buf[pos..r.pos]);
    } else if t == T_STRING {
      var bytes := buf[pos + 4..r.pos];
      v := Binary(bytes);
      DigitsOfWord(buf, pos);
      assert buf[pos..r.pos] == buf[pos..pos + 4] + bytes;
    } else if t == T_STRUCT {
      var fields := SkipFieldsSound(buf, pos, depth + 1);
      v := Struct(fields);
    } else if t == T_MAP {
      v := SkipMapSound(buf, pos, depth + 1);
    } else {
      v := SkipElementsSound(buf, pos, t, depth + 1);
    }
  }

  lemma {:induction false} SkipMapSound(buf: seq<byte>, pos: nat, depth: nat) returns (v: Value)
    requires pos <= |buf| && SkipMap(buf, pos, depth).ok
    ensures v.Map? && Encodable(v) && Bounded(v)
    ensures v.cells != [] ==> depth + MaxCost(v.cells) <= MAX_SKIP_DEPTH
    ensures buf[pos..SkipMap(buf, pos, depth).pos] == Encode(v)
    decreases Levels(depth), 2 * MAX_CONTAINER_ELEMENTS + 1
  {
    hide SkipAll, Digits, Unsigned, Signed, EncodeAll, EncodableAll, BoundedAll, MaxCost, Types, Repeat;
    var end := SkipMap(buf, pos, depth).pos;
    var k, x, n := buf[pos], buf[pos + 1], Word(buf, pos + 2);
    RepeatPair(k, x, n);
    var cells := SkipAllSound(buf, pos + 6, Repeat([k, x], n), depth);
    v := Map(k, x, cells);
    assert |cells| == |Types(cells)| == 2 * n;
    DigitsOfWord(buf, pos + 2);
    assert buf[pos..end] == [k, x] + buf[pos + 2..pos + 6] + buf[pos + 6..end];
  }

  lemma {:induction false} SkipElementsSound(buf: seq<byte>, pos: nat, t: byte, depth: nat) returns (v: Value)
    requires pos <= |buf| && SkipElements(buf, pos, depth).ok && (t == T_LIST || t == T_SET)
    ensures v.Elements? && v.containerType == t && Encodable(v) && Bounded(v)
    ensures v.elements != [] ==> depth + MaxCost(v.elements) <= MAX_SKIP_DEPTH
    ensures buf[pos..SkipElements(buf, pos, depth).pos] == Encode(v)
    decreases Levels(depth), 2 * MAX_CONTAINER_ELEMENTS + 1
  {
    hide SkipAll, Digits, Unsigned, Signed, EncodeAll, EncodableAll, BoundedAll, MaxCost, Types, Repeat;
    var end := SkipElements(buf, pos, depth).pos;
    var e, n := buf[pos], Word(buf, pos + 1);
    RepeatSingle(e, n);
    var elements := SkipAllSound(buf, pos + 5, Repeat([e], n), depth);
    v := Elements(t, e, elements);
    assert |elements| == |Types(elements)| == n;
    DigitsOfWord(buf, pos + 1);
    assert buf[pos..end] == [e] + buf[pos + 1..pos + 5] + buf[pos + 5..end];
  }

  lemma {:induction false} SkipAllSound(buf: seq<byte>, pos: nat, types: seq<byte>, depth: nat)
    returns (vs: seq<Value>)
    requires pos <= |buf| && SkipAll(buf, pos, types, depth).ok
    ensures EncodableAll(vs) && BoundedAll(vs) && Types(vs) == types
    ensures vs != [] ==> depth + MaxCost(vs) <= MAX_SKIP_DEPTH
    ensures buf[pos..SkipAll(buf, pos, types, depth).pos] == EncodeAll(vs)
    decreases Levels(depth), |types|
  {
    hide SkipValue, Encode, Encodable, Bounded, Cost;
    if types == [] {
      vs := [];
    } else {
      var mid := SkipValue(buf, pos, types[0], depth).pos;
      var end := SkipAll(buf, pos, types, depth).pos;
      var v := SkipSound(buf, pos, types[0], depth);
      var rest := SkipAllSound(buf, mid, types[1..], depth);
      vs := [v] + rest;
      assert vs[1..] == rest && types == [types[0]] + types[1..];
      assert buf[pos..end] == buf[pos..mid] + buf[mid..end];
    }
  }

  lemma {:induction false} SkipFieldsSound(buf: seq<byte>, pos: nat, depth: nat) returns (fs: seq<Field>)
    requires pos <= |buf| && depth <= MAX_SKIP_DEPTH && SkipFieldsLoop(buf, pos, depth).ok
    ensures EncodableFields(fs) && BoundedFields(fs)
    ensures fs != [] ==> depth + 1 + MaxFieldCost(fs) <= MAX_SKIP_DEPTH
    ensures buf[pos..SkipFieldsLoop(buf, pos, depth).pos] == EncodeFields(fs)
    decreases Levels(depth), |buf| - pos
  {
    hide SkipValue, Encode, Encodable, Bounded, Cost;
    if buf[pos] == T_STOP {
      fs := [];
      assert buf[pos..pos + 1] == [T_STOP];
    } else {
      var mid := SkipValue(buf, pos + 3, buf[pos], depth + 1).pos;
      var end := SkipFieldsLoop(buf, pos, depth).pos;
      var f := SkipFieldSound(buf, pos, depth + 1);
      var rest := SkipFieldsSound(buf, mid, depth);
      fs := [f] + rest;
      assert fs[0] == f && fs[1..] == rest;
      assert buf[pos..end] == buf[pos..mid] + buf[mid..end];
    }
  }

  lemma {:induction false} SkipFieldSound(buf: seq<byte>, pos: nat, depth: nat) returns (f: Field)
    requires pos + 3 <= |buf| && ScanFieldBegin(buf, pos).ok && buf[pos] != T_STOP
    requires SkipValue(buf, pos + 3, buf[pos], depth).ok
    ensures EncodableField(f) && BoundedField(f) && depth + FieldCost(f) <= MAX_SKIP_DEPTH
    ensures buf[pos..SkipValue(buf, pos + 3, buf[pos], depth).pos] == EncodeField(f)
    decreases Levels(depth), 1
  {
    hide SkipValue, Encodable, Encode, Bounded, Cost, Digits;
    var end := SkipValue(buf, pos + 3, buf[pos], depth).pos;
    var v := SkipSound(buf, pos + 3, buf[pos], depth);
    f := FieldFrom(buf, pos, v);
    assert buf[pos..end] == buf[pos..pos + 3] + buf[pos + 3..end];
  }

  /** The field whose header stands at pos, carrying v. */
  function FieldFrom(buf: seq<byte>, pos: nat, v: Value): (f: Field)
    requires pos + 3 <= |buf| && buf[pos] == TypeOf(v)
    ensures f.value == v && FieldHeader(TypeOf(v), f.id) == buf[pos..pos + 3]
  {
    SpanValues();
    DigitsSigned(buf[pos + 1..pos + 3]);
    assert buf[pos..pos + 3] == [buf[pos]] + buf[pos + 1..pos + 3];
    Field(Signed(buf[pos + 1..pos + 3]), v)
  }

  /** `skip` succeeds from p to q exactly when those bytes are one value within the limits. */
  lemma SkipExact(buf: seq<byte>, p: nat, t: byte, depth: nat, q: nat)
    requires p <= q <= |buf|
    ensures (var r := SkipValue(buf, p, t, depth); r.ok && r.pos == q)
      <==> exists v :: Skippable(v, depth) && TypeOf(v) == t && Encode(v) == buf[p..q]
  {
    var r := SkipValue(buf, p, t, depth);
    if r.ok && r.pos == q {
      var v := SkipSound(buf, p, t, depth);
      assert Skippable(v, depth) && TypeOf(v) == t && Encode(v) == buf[p..q];
    }
    if v :| Skippable(v, depth) && TypeOf(v) == t && Encode(v) == buf[p..q] {
      SkipComplete(buf, p, v, depth);
    }
  }

  /** On the encoding of any value at all, `skip` succeeds exactly when the value is within the limits. */
  lemma SkipAccepts(buf: seq<byte>, pos: nat, v: Value, depth: nat)
    requires Encodable(v) && At(buf, pos, Encode(v))
    ensures SkipValue(buf, pos, TypeOf(v), depth).ok <==> Skippable(v, depth)
    ensures Skippable(v, depth) ==> SkipValue(buf, pos, TypeOf(v), depth).pos == pos + |Encode(v)|
  {
    hide Encode, Encodable, Bounded, Cost, TypeOf, SkipValue;
    if Skippable(v, depth) {
      SkipComplete(buf, pos, v, depth);
    } else if SkipValue(buf, pos, TypeOf(v), depth).ok {
      var w := SkipSound(buf, pos, TypeOf(v), depth);
      var q := SkipValue(buf, pos, TypeOf(v), depth).pos;
      assert buf[pos..] == buf[pos..q] + buf[q..];
      assert buf[pos..] == buf[pos..pos + |Encode(v)|] + buf[pos + |Encode(v)|..];
      EncodeUnique(w, buf[q..], v, buf[pos + |Encode(v)|..]);
      assert false;
    }
  }

  /** The same for the fields left over in a struct. */
  lemma SkipFieldsAccepts(buf: seq<byte>, pos: nat, fs: seq<Field>, depth: nat)
    requires EncodableFields(fs) && At(buf, pos, EncodeFields(fs)) && depth <= MAX_SKIP_DEPTH
    ensures SkipFieldsLoop(buf, pos, depth).ok
      <==> BoundedFields(fs) && (fs != [] ==> depth + 1 + MaxFieldCost(fs) <= MAX_SKIP_DEPTH)
    ensures SkipFieldsLoop(buf, pos, depth).ok
      ==> SkipFieldsLoop(buf, pos, depth).pos == pos + |EncodeFields(fs)|
  {
    hide EncodeFields, EncodableFields, BoundedFields, MaxFieldCost, SkipFieldsLoop;
    var end := pos + |EncodeFields(fs)|;
    if BoundedFields(fs) && (fs != [] ==> depth + 1 + MaxFieldCost(fs) <= MAX_SKIP_DEPTH) {
      SkipFieldsComplete(buf, pos, fs, depth);
    } else if SkipFieldsLoop(buf, pos, depth).ok {
      var gs := SkipFieldsSound(buf, pos, depth);
      var q := SkipFieldsLoop(buf, pos, depth).pos;
      assert buf[pos..] == buf[pos..q] + buf[q..];
      assert buf[pos..] == buf[pos..end] + buf[end..];
      EncodeFieldsUnique(gs, buf[q..], fs, buf[end..]);
      assert false;
    }
  }

  // ----- the reader itself -----

  class Reader {
    const buffer: seq<byte>
    var position: nat
    ghost var calls: nat  // how many values skip has been asked to step over

    constructor (buffer: seq<byte>)
      ensures this.buffer == buffer && position == 0 && calls == 0 && Valid()
    {
      this.buffer := buffer;
      position := 0;
      calls := 0;
    }

    ghost predicate Valid()
      reads this
    {
      position <= |buffer|
    }

    /** The state a scan leaves behind. */
    ghost predicate Reached(r: Scan, start: nat, ok: bool)
      reads this
    {
      Valid() && ok == r.ok && position == r.pos && calls == start + r.calls
    }

    method ReadU8() returns (r: Option<byte>)
      requires Valid()
      modifies this`position
      ensures Valid()
      ensures old(position) < |buffer| ==> r == Some(buffer[old(position)]) && position == old(position) + 1
      ensures old(position) == |buffer| ==> r == None && position == old(position)
    {
      if position >= |buffer| {
        return None;
      }
      r := Some(buffer[position]);
      position := position + 1;
    }

    method ReadExact(len: nat) returns (r: Option<seq<byte>>)
      requires Valid()
      modifies this`position
      ensures Reached(ScanExact(buffer, old(position), len), old(calls), r.Some?)
      ensures r.Some? ==> r.value == buffer[old(position)..position]
    {
      if position + len > |buffer| {
        return None;
      }
      r := Some(buffer[position..position + len]);
      position := position + len;
    }

    method ReadI16() returns (r: Option<int16>)
      requires Valid()
      modifies this`position
      ensures Reached(ScanExact(buffer, old(position), 2), old(calls), r.Some?)
      ensures r.Some? ==> r.value == Signed(buffer[old(position)..position])
    {
      var bytes := ReadExact(2);
      if bytes == None {
        return None;
      }
      SpanValues();
      r := Some(Signed(bytes.value));
    }

    method ReadI32() returns (r: Option<int32>)
      requires Valid()
      modifies this`position
      ensures Reached(ScanExact(buffer, old(position), 4), old(calls), r.Some?)
      ensures r.Some? ==> r.value == Signed(buffer[old(position)..position])
    {
      var bytes := ReadExact(4);
      if bytes == None {
        return None;
      }
      SpanValues();
      r := Some(Signed(bytes.value));
    }

    method ReadI64() returns (r: Option<int64>)
      requires Valid()
      modifies this`position
      ensures Reached(ScanExact(buffer, old(position), 8), old(calls), r.Some?)
      ensures r.Some? ==> r.value == Signed(buffer[old(position)..position])
    {
      var bytes := ReadExact(8);
      if bytes == None {
        return None;
      }
      SpanValues();
      r := Some(Signed(bytes.value));
    }

    method ReadBinary() returns (r: Option<seq<byte>>)
      requires Valid()
      modifies this`position
      ensures Reached(ScanBinary(buffer, old(position)), old(calls), r.Some?)
      ensures r.Some? ==> r.value == buffer[old(position) + 4..position]
    {
      var len := ReadI32();
      if len == None || len.value < 0 {
        return None;
      }
      r := ReadExact(len.value);
    }

    method ReadFieldBegin() returns (r: Option<(byte, int16)>)
      requires Valid()
      modifies this`position
      ensures Reached(ScanFieldBegin(buffer, old(position)), old(calls), r.Some?)
      ensures r.Some? ==> old(position) < position && r.value.0 == buffer[old(position)]
      ensures r.Some? && r.value.0 == T_STOP ==> position == old(position) + 1
      ensures r.Some? && r.value.0 != T_STOP ==>
        r.value.1 == Signed(buffer[old(position) + 1..position]) && position == old(position) + 3
    {
      var fieldType := ReadU8();
      if fieldType == None {
        return None;
      }
      if fieldType.value == T_STOP {
        return Some((T_STOP, 0));
      }
      if !ValidFieldType(fieldType.value) {
        return None;
      }
      var fieldId := ReadI16();
      if fieldId == None {
        return None;
      }
      r := Some((fieldType.value, fieldId.value));
    }

    method ReadContainerElementType() returns (r: Option<byte>)
      requires Valid()
      modifies this`position
      ensures Reached(ScanElementType(buffer, old(position)), old(calls), r.Some?)
      ensures r.Some? ==> r.value == buffer[old(position)]
    {
      r := ReadU8();
      if r.Some? && !ValidFieldType(r.value) {
        return None;
      }
    }

    method ReadContainerSize() returns (r: Option<nat>)
      requires Valid()
      modifies this`position
      ensures Reached(ScanContainerSize(buffer, old(position)), old(calls), r.Some?)
      ensures r.Some? ==> r.value == Word(buffer, old(position))
    {
      var size := ReadI32();
      if size == None || size.value < 0 || size.value > MAX_CONTAINER_ELEMENTS {
        return None;
      }
      r := Some(size.value);
    }

    /** `skip`: step over one value, starting with the whole depth allowance. */
    method Skip(t: byte) returns (ok: bool)
      requires Valid()
      modifies this
      ensures Reached(SkipValue(buffer, old(position), t, 0), old(calls), ok)
    {
      ok := SkipAtDepth(t, 0);
    }

    method SkipRemainingStructFields() returns (ok: bool)
      requires Valid()
      modifies this
      ensures Reached(SkipFields(buffer, old(position), 0), old(calls), ok)
    {
      ok := SkipRemainingStructFieldsAtDepth(0);
    }

    method SkipRemainingStructFieldsAtDepth(depth: nat) returns (ok: bool)
      requires Valid()
      modifies this
      ensures Reached(SkipFields(buffer, old(position), depth), old(calls), ok)
      decreases Levels(depth), 1
    {
      if depth > MAX_SKIP_DEPTH {
        return false;
      }
      while true
        invariant Valid() && old(calls) <= calls
        invariant SkipFieldsLoop(buffer, old(position), depth)
          == Later(calls - old(calls), SkipFieldsLoop(buffer, position, depth))
        decreases |buffer| - position
      {
        var header := ReadFieldBegin();
        if header == None {
          return false;
        }
        if header.value.0 == T_STOP {
          return true;
        }
        var skipped := SkipAtDepth(header.value.0, depth + 1);
        if !skipped {
          return false;
        }
      }
    }

    method SkipAtDepth(t: byte, depth: nat) returns (ok: bool)
      requires Valid()
      modifies this
      ensures Reached(SkipValue(buffer, old(position), t, depth), old(calls), ok)
      decreases Levels(depth), 0
    {
      calls := calls + 1;
      if depth > MAX_SKIP_DEPTH {
        return false;
      }
      if FixedWidth(t) > 0 {
        var bytes := ReadExact(FixedWidth(t));
        ok := bytes.Some?;
      } else if t == T_STRING {
        var bytes := ReadBinary();
        ok := bytes.Some?;
      } else if t == T_STRUCT {
        ok := SkipRemainingStructFieldsAtDepth(depth + 1);
      } else if t == T_MAP {
        ok := SkipMapAtDepth(depth + 1);
      } else if t == T_LIST || t == T_SET {
        ok := SkipElementsAtDepth(depth + 1);
      } else {
        ok := false;
      }
    }

    method SkipMapAtDepth(depth: nat) returns (ok: bool)
      requires Valid()
      modifies this
      ensures Reached(SkipMap(buffer, old(position), depth), old(calls), ok)
      decreases Levels(depth), 2
    {
      var keyType := ReadContainerElementType();
      if keyType == None {
        return false;
      }
      var valueType := ReadContainerElementType();
      if valueType == None {
        return false;
      }
      var size := ReadContainerSize();
      if size == None {
        return false;
      }
      ok := SkipPattern([keyType.value, valueType.value], size.value, depth);
    }

    method SkipElementsAtDepth(depth: nat) returns (ok: bool)
      requires Valid()
      modifies this
      ensures Reached(SkipElements(buffer, old(position), depth), old(calls), ok)
      decreases Levels(depth), 2
    {
      var elementType := ReadContainerElementType();
      if elementType == None {
        return false;
      }
      var size := ReadContainerSize();
      if size == None {
        return false;
      }
      ok := SkipPattern([elementType.value], size.value, depth);
    }

    /** The element loop of a container: the pattern's types in turn, size times over. */
    method SkipPattern(pattern: seq<byte>, size: nat, depth: nat) returns (ok: bool)
      requires Valid()
      modifies this
      ensures Reached(SkipAll(buffer, old(position), Repeat(pattern, size), depth), old(calls), ok)
      decreases Levels(depth), 1
    {
      ghost var types := Repeat(pattern, size);
      for i := 0 to size
        invariant Valid() && old(calls) <= calls
        invariant SkipAll(buffer, old(position), types, depth)
          == Later(calls - old(calls), SkipAll(buffer, position, Repeat(pattern, size - i), depth))
      {
        ghost var left := Repeat(pattern, size - i);
        for j := 0 to |pattern|
          invariant Valid() && old(calls) <= calls
          invariant SkipAll(buffer, old(position), types, depth)
            == Later(calls - old(calls), SkipAll(buffer, position, left[j..], depth))
        {
          assert left[j..][0] == pattern[j] && left[j..][1..] == left[j + 1..];
          var skipped := SkipAtDepth(pattern[j], depth);
          if !skipped {
            return false;
          }
        }
        assert left[|pattern|..] == Repeat(pattern, size - i - 1);
      }
      ok := true;
    }
  }
}
