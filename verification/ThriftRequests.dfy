/** Request decoding: each decoder loops over a struct's fields, keeps the ones it wants and skips the rest. */
module ThriftRequests {
  import opened Wrappers
  import opened BigEndian
  import opened Utf8
  import opened ThriftValue
  import opened ThriftReader

  /** What a decoder asks of one field: the type it must have and how its value is read. */
  datatype Want = WantString | WantBinary | WantI32 | WantI64 | WantI32List | WantStruct(schema: seq<Wanted>)

  datatype Wanted = Wanted(id: int16, want: Want)

  type Schema = seq<Wanted>

  /** What was kept of a field. */
  datatype Taken =
    | TakenBytes(bytes: seq<byte>)
    | TakenInt(n: int)
    | TakenInts(ns: seq<int>)
    | TakenRecord(record: Record)

  type Record = map<int16, Taken>

  function WantType(w: Want): byte {
    match w
    case WantString => T_STRING
    case WantBinary => T_STRING
    case WantI32 => T_I32
    case WantI64 => T_I64
    case WantI32List => T_LIST
    case WantStruct(_) => T_STRUCT
  }

  /** The arm of the decoder's match that a field with this id and type takes. */
  function Find(schema: Schema, id: int16, t: byte): Option<Want> {
    if schema == [] then None
    else if schema[0].id == id && WantType(schema[0].want) == t then Some(schema[0].want)
    else Find(schema[1..], id, t)
  }

  lemma FindType(schema: Schema, id: int16, t: byte)
    ensures Find(schema, id, t).Some? ==> WantType(Find(schema, id, t).value) == t
  {
  }

  // ----- the decoders as functions of the bytes -----

  function ReadInts(buf: seq<byte>, pos: nat, n: nat): (r: Option<(seq<int>, nat)>)
    requires pos <= |buf|
    ensures r.Some? ==> r.value.1 == pos + 4 * n <= |buf|
    decreases n
  {
    if n == 0 then Some(([], pos))
    else if pos + 4 > |buf| then None
    else
      match ReadInts(buf, pos + 4, n - 1)
      case None => None
      case Some((rest, end)) => Some(([Word(buf, pos) as int] + rest, end))
  }

  /** A list read as 32-bit integers; a list of anything else is stepped over and counts as empty. */
  function ReadI32List(buf: seq<byte>, pos: nat): (r: Option<(Taken, nat)>)
    requires pos <= |buf|
    ensures r.Some? ==> pos <= r.value.1 <= |buf|
  {
    if pos + 5 > |buf| || Word(buf, pos + 1) < 0 then None
    else
      var n := Word(buf, pos + 1);
      if buf[pos] == T_I32 then
        match ReadInts(buf, pos + 5, n)
        case None => None
        case Some((ns, end)) => Some((TakenInts(ns), end))
      else
        var r := SkipAll(buf, pos + 5, Repeat([buf[pos]], n), 0);
        if r.ok then Some((TakenInts([]), r.pos)) else None
  }

  function ReadWanted(buf: seq<byte>, pos: nat, w: Want): (r: Option<(Taken, nat)>)
    requires pos <= |buf|
    ensures r.Some? ==> pos <= r.value.1 <= |buf|
    decreases |buf| - pos, 2
  {
    match w
    case WantI32 => if pos + 4 <= |buf| then Some((TakenInt(Signed(buf[pos..pos + 4])), pos + 4)) else None
    case WantI64 => if pos + 8 <= |buf| then Some((TakenInt(Signed(buf[pos..pos + 8])), pos + 8)) else None
    case WantI32List => ReadI32List(buf, pos)
    case WantStruct(schema) => (
      match ReadRecord(buf, pos, schema, map[])
      case None => None
      case Some((record, end)) => Some((TakenRecord(record), end)))
    case WantBinary =>
      var r := ScanBinary(buf, pos);
      if r.ok then Some((TakenBytes(buf[pos + 4..r.pos]), r.pos)) else None
    case WantString =>
      var r := ScanBinary(buf, pos);
      if r.ok && ValidUtf8(buf[pos + 4..r.pos]) then Some((TakenBytes(buf[pos + 4..r.pos]), r.pos)) else None
  }

  /** One turn of the field loop, on a field whose header has been seen. */
  function ReadField(buf: seq<byte>, pos: nat, schema: Schema, acc: Record): (r: Option<(Record, nat)>)
    requires pos + 3 <= |buf|
    ensures r.Some? ==> pos < r.value.1 <= |buf|
    decreases |buf| - pos, 0
  {
    SpanValues();
    var id: int16 := Signed(buf[pos + 1..pos + 3]);
    match Find(schema, id, buf[pos])
    case None =>
      var r := SkipValue(buf, pos + 3, buf[pos], 0);
      if r.ok then Some((acc, r.pos)) else None
    case Some(w) =>
      match ReadWanted(buf, pos + 3, w)
      case None => None
      case Some((taken, end)) => Some((acc[id := taken], end))
  }

  /** The field loop, from a record already begun. */
  function ReadRecord(buf: seq<byte>, pos: nat, schema: Schema, acc: Record): (r: Option<(Record, nat)>)
    requires pos <= |buf|
    ensures r.Some? ==> pos < r.value.1 <= |buf|
    decreases |buf| - pos, 1
  {
    var header := ScanFieldBegin(buf, pos);
    if !header.ok then None
    else if buf[pos] == T_STOP then Some((acc, header.pos))
    else
      match ReadField(buf, pos, schema, acc)
      case None => None
      case Some((record, end)) => ReadRecord(buf, end, schema, record)
  }

  // ----- the same decoders as folds over the fields of a struct -----

  /** Values that a run of `skip` calls, each with the whole allowance, steps over. */
  predicate SkippableAll(vs: seq<Value>) {
    vs == [] || (Skippable(vs[0], 0) && SkippableAll(vs[1..]))
  }

  function Ints(vs: seq<Value>): seq<int> {
    if vs == [] then []
    else [if vs[0].Fixed? then Signed(vs[0].raw) else 0] + Ints(vs[1..])
  }

  /** What is kept of a value of the wanted type; None when the decoder gives up on it. */
  function Project(v: Value, w: Want): Option<Taken>
    requires TypeOf(v) == WantType(w) && Encodable(v)
    decreases v, 1
  {
    match w
    case WantString => if ValidUtf8(v.bytes) then Some(TakenBytes(v.bytes)) else None
    case WantBinary => Some(TakenBytes(v.bytes))
    case WantI32 => Some(TakenInt(Signed(v.raw)))
    case WantI64 => Some(TakenInt(Signed(v.raw)))
    case WantI32List =>
      if v.elementType == T_I32 then Some(TakenInts(Ints(v.elements)))
      else if SkippableAll(v.elements) then Some(TakenInts([]))
      else None
    case WantStruct(schema) =>
      match ProjectFields(v.fields, schema, map[])
      case None => None
      case Some(record) => Some(TakenRecord(record))
  }

  function ProjectField(f: Field, schema: Schema, acc: Record): Option<Record>
    requires EncodableField(f)
    decreases f
  {
    FindType(schema, f.id, TypeOf(f.value));
    match Find(schema, f.id, TypeOf(f.value))
    case None => if Skippable(f.value, 0) then Some(acc) else None
    case Some(w) =>
      match Project(f.value, w)
      case None => None
      case Some(taken) => Some(acc[f.id := taken])
  }

  function ProjectFields(fs: seq<Field>, schema: Schema, acc: Record): Option<Record>
    requires EncodableFields(fs)
    decreases fs, 0
  {
    if fs == [] then Some(acc)
    else
      match ProjectField(fs[0], schema, acc)
      case None => None
      case Some(record) => ProjectFields(fs[1..], schema, record)
  }

  // ----- decoding an encoding is the fold -----

  function Onto<T>(r: Option<T>, end: nat): Option<(T, nat)> {
    match r
    case None => None
    case Some(x) => Some((x, end))
  }

  lemma {:induction false} ReadIntsProjects(buf: seq<byte>, pos: nat, vs: seq<Value>)
    requires EncodableAll(vs) && Types(vs) == Repeat([T_I32], |vs|)
    requires At(buf, pos, EncodeAll(vs))
    ensures ReadInts(buf, pos, |vs|) == Some((Ints(vs), pos + |EncodeAll(vs)|))
    decreases vs
  {
    if vs != [] {
      assert Types(vs)[0] == TypeOf(vs[0]) && Types(vs)[1..] == Types(vs[1..]);
      assert Repeat([T_I32], |vs|)[0] == T_I32 && Repeat([T_I32], |vs|)[1..] == Repeat([T_I32], |vs| - 1);
      AtConcat(buf, pos, Encode(vs[0]), EncodeAll(vs[1..]));
      ReadIntsProjects(buf, pos + 4, vs[1..]);
    }
  }

  /** A run of `skip` calls over any values at all succeeds exactly when each is within the limits. */
  lemma {:induction false} SkipAllAccepts(buf: seq<byte>, pos: nat, vs: seq<Value>)
    requires EncodableAll(vs) && At(buf, pos, EncodeAll(vs))
    ensures SkipAll(buf, pos, Types(vs), 0).ok <==> SkippableAll(vs)
    ensures SkippableAll(vs) ==> SkipAll(buf, pos, Types(vs), 0).pos == pos + |EncodeAll(vs)|
    decreases vs
  {
    hide At, SkipValue, Encode, Encodable, Bounded, Cost;
    if vs != [] {
      assert Types(vs)[0] == TypeOf(vs[0]) && Types(vs)[1..] == Types(vs[1..]);
      AtConcat(buf, pos, Encode(vs[0]), EncodeAll(vs[1..]));
      SkipAccepts(buf, pos, vs[0], 0);
      SkipAllAccepts(buf, pos + |Encode(vs[0])|, vs[1..]);
    }
  }

  lemma ReadI32ListProjects(buf: seq<byte>, pos: nat, v: Value)
    requires Encodable(v) && TypeOf(v) == T_LIST && At(buf, pos, Encode(v))
    ensures ReadI32List(buf, pos) == Onto(Project(v, WantI32List), pos + |Encode(v)|)
  {
    hide SkipAll, Digits, Unsigned, Signed, EncodeAll, EncodableAll, Types, Repeat, ReadInts, Ints, SkippableAll;
    var e, n := v.elementType, |v.elements|;
    AtConcat(buf, pos, [e] + Digits(n, 4), EncodeAll(v.elements));
    AtConcat(buf, pos, [e], Digits(n, 4));
    AtFirst(buf, pos, [e]);
    WordOfDigits(buf, pos + 1, n);
    if e == T_I32 {
      ReadIntsProjects(buf, pos + 5, v.elements);
    } else {
      SkipAllAccepts(buf, pos + 5, v.elements);
    }
  }

  lemma {:induction false} ReadWantedProjects(buf: seq<byte>, pos: nat, v: Value, w: Want)
    requires Encodable(v) && TypeOf(v) == WantType(w) && At(buf, pos, Encode(v))
    ensures ReadWanted(buf, pos, w) == Onto(Project(v, w), pos + |Encode(v)|)
    decreases v, 1
  {
    hide ReadRecord, ReadI32List, EncodeAll, EncodeFields, EncodableAll, EncodableFields, Digits, Unsigned, ValidUtf8;
    match w {
      case WantI32 =>
      case WantI64 =>
      case WantI32List => ReadI32ListProjects(buf, pos, v);
      case WantStruct(schema) => ReadRecordProjects(buf, pos, v.fields, schema, map[]);
      case WantBinary =>
        AtConcat(buf, pos, Digits(|v.bytes|, 4), v.bytes);
        WordOfDigits(buf, pos, |v.bytes|);
      case WantString =>
        AtConcat(buf, pos, Digits(|v.bytes|, 4), v.bytes);
        WordOfDigits(buf, pos, |v.bytes|);
    }
  }

  lemma {:induction false} ReadFieldProjects(buf: seq<byte>, pos: nat, f: Field, schema: Schema, acc: Record)
    requires EncodableField(f) && At(buf, pos, EncodeField(f))
    ensures ReadField(buf, pos, schema, acc) == Onto(ProjectField(f, schema, acc), pos + |EncodeField(f)|)
    decreases f
  {
    hide SkipValue, Encode, Encodable, Bounded, Cost, ReadWanted, Project, Find, Digits, Unsigned;
    FieldHeaderAt(buf, pos, f);
    var t := TypeOf(f.value);
    assert |EncodeField(f)| == 3 + |Encode(f.value)|;
    FindType(schema, f.id, t);
    if w :| Find(schema, f.id, t) == Some(w) {
      ReadWantedProjects(buf, pos + 3, f.value, w);
    } else {
      SkipAccepts(buf, pos + 3, f.value, 0);
    }
  }

  lemma ReadRecordStep(buf: seq<byte>, pos: nat, schema: Schema, acc: Record)
    requires pos + 3 <= |buf| && ScanFieldBegin(buf, pos) == Scan(true, pos + 3, 0) && buf[pos] != T_STOP
    ensures ReadRecord(buf, pos, schema, acc) == match ReadField(buf, pos, schema, acc)
      case None => None
      case Some((record, end)) => ReadRecord(buf, end, schema, record)
  {
  }

  /** For every list of fields, in any order, with duplicates, unknown ids and unexpected types. */
  lemma {:induction false} ReadRecordProjects(buf: seq<byte>, pos: nat, fs: seq<Field>, schema: Schema, acc: Record)
    requires EncodableFields(fs) && At(buf, pos, EncodeFields(fs))
    ensures ReadRecord(buf, pos, schema, acc)
      == Onto(ProjectFields(fs, schema, acc), pos + |EncodeFields(fs)|)
    decreases fs, 0
  {
    hide At, Encodable, Encode, EncodeField, ReadField, ProjectField;
    if fs == [] {
      AtFirst(buf, pos, [T_STOP]);
    } else {
      AtConcat(buf, pos, EncodeField(fs[0]), EncodeFields(fs[1..]));
      var f, mid := fs[0], pos + |EncodeField(fs[0])|;
      FieldHeaderAt(buf, pos, f);
      ReadFieldProjects(buf, pos, f, schema, acc);
      ReadRecordStep(buf, pos, schema, acc);
      if record :| ProjectField(f, schema, acc) == Some(record) {
        ReadRecordProjects(buf, mid, fs[1..], schema, record);
      }
    }
  }

  // ----- which fields count -----

  predicate IsWanted(f: Field, schema: Schema) { Find(schema, f.id, TypeOf(f.value)).Some? }

  /** The decoder gets past this field: it keeps it, or it can step over it. */
  predicate Accepted(f: Field, schema: Schema)
    requires EncodableField(f)
  {
    ProjectField(f, schema, map[]).Some?
  }

  lemma {:induction false} EncodableAt(fs: seq<Field>, i: nat)
    requires EncodableFields(fs) && i < |fs|
    ensures EncodableField(fs[i])
  {
    if i > 0 {
      EncodableAt(fs[1..], i - 1);
    }
  }

  /** The index of the last field with this id that the decoder keeps, or -1. */
  function LastWanted(fs: seq<Field>, schema: Schema, id: int16): (i: int)
    ensures -1 <= i < |fs|
    ensures i >= 0 ==> fs[i].id == id && IsWanted(fs[i], schema)
    ensures forall k :: i < k < |fs| && fs[k].id == id ==> !IsWanted(fs[k], schema)
  {
    if fs == [] then -1
    else if fs[|fs| - 1].id == id && IsWanted(fs[|fs| - 1], schema) then |fs| - 1
    else LastWanted(fs[..|fs| - 1], schema, id)
  }

  /** What one kept field contributes. */
  function Kept(f: Field, schema: Schema): Option<Taken>
    requires EncodableField(f) && IsWanted(f, schema)
  {
    FindType(schema, f.id, TypeOf(f.value));
    Project(f.value, Find(schema, f.id, TypeOf(f.value)).value)
  }

  lemma {:induction false} ProjectFieldsAppend(fs: seq<Field>, f: Field, schema: Schema, acc: Record)
    requires EncodableFields(fs) && EncodableField(f)
    ensures EncodableFields(fs + [f])
    ensures ProjectFields(fs + [f], schema, acc) == match ProjectFields(fs, schema, acc)
      case None => None
      case Some(record) => ProjectField(f, schema, record)
    decreases fs
  {
    hide Encodable, ProjectField;
    if fs == [] {
      assert fs + [f] == [f];
    } else {
      assert (fs + [f])[0] == fs[0] && (fs + [f])[1..] == fs[1..] + [f];
      match ProjectField(fs[0], schema, acc) {
        case None => ProjectFieldsAppend(fs[1..], f, schema, acc);
        case Some(record) => ProjectFieldsAppend(fs[1..], f, schema, record);
      }
    }
  }

  lemma {:induction false} EncodablePrefix(fs: seq<Field>, n: nat)
    requires EncodableFields(fs) && n <= |fs|
    ensures EncodableFields(fs[..n])
  {
    if n > 0 {
      EncodablePrefix(fs[1..], n - 1);
      assert fs[..n][1..] == fs[1..][..n - 1];
    }
  }

  /** The fold succeeds exactly when the decoder gets past every field. */
  lemma {:induction false} EveryFieldAccepted(fs: seq<Field>, schema: Schema)
    requires EncodableFields(fs)
    ensures ProjectFields(fs, schema, map[]).Some?
      <==> forall i | 0 <= i < |fs| :: EncodableField(fs[i]) && Accepted(fs[i], schema)
    decreases |fs|
  {
    hide Encodable, Project, Find;
    if fs != [] {
      var n := |fs| - 1;
      EncodablePrefix(fs, n);
      EncodableAt(fs, n);
      EveryFieldAccepted(fs[..n], schema);
      ProjectFieldsAppend(fs[..n], fs[n], schema, map[]);
      assert fs == fs[..n] + [fs[n]];
      assert forall i | 0 <= i < n :: fs[i] == fs[..n][i];
    }
  }

  lemma NoFields(schema: Schema)
    ensures ProjectFields([], schema, map[]) == Some(map[])
  {
  }

  /** What the fold holds, for each id, is what the last kept field with that id contributes. */
  lemma {:induction false} LastFieldWins(fs: seq<Field>, schema: Schema, id: int16)
    requires EncodableFields(fs) && ProjectFields(fs, schema, map[]).Some?
    ensures var record, last := ProjectFields(fs, schema, map[]).value, LastWanted(fs, schema, id);
      && (id in record <==> last >= 0)
      && (last >= 0 ==> EncodableField(fs[last]) && Kept(fs[last], schema) == Some(record[id]))
    decreases |fs|
  {
    hide Encodable, Project, Find, ProjectFields, EncodableFields;
    if fs == [] {
      NoFields(schema);
    } else {
      var n := |fs| - 1;
      var front, f := fs[..n], fs[n];
      EncodablePrefix(fs, n);
      EncodableAt(fs, n);
      ProjectFieldsAppend(front, f, schema, map[]);
      assert fs == front + [f];
      LastFieldWins(front, schema, id);
      var before := ProjectFields(front, schema, map[]).value;
      assert ProjectField(f, schema, before) == ProjectFields(fs, schema, map[]);
      if f.id == id && IsWanted(f, schema) {
        assert LastWanted(fs, schema, id) == n;
      } else {
        assert LastWanted(fs, schema, id) == LastWanted(front, schema, id);
      }
    }
  }

  // ----- everything accepted was an encoding, but for lists of no type -----

  /** Every list that the decoder keeps from here on, at any level, names an element type of the protocol. */
  predicate RecordTyped(buf: seq<byte>, pos: nat, schema: Schema, acc: Record)
    requires pos <= |buf|
    decreases |buf| - pos, 1
  {
    var header := ScanFieldBegin(buf, pos);
    header.ok && buf[pos] != T_STOP ==>
      && FieldTyped(buf, pos, schema)
      && match ReadField(buf, pos, schema, acc)
         case None => true
         case Some((record, end)) => RecordTyped(buf, end, schema, record)
  }

  predicate FieldTyped(buf: seq<byte>, pos: nat, schema: Schema)
    requires pos + 3 <= |buf|
    decreases |buf| - pos, 0
  {
    SpanValues();
    var id: int16 := Signed(buf[pos + 1..pos + 3]);
    match Find(schema, id, buf[pos])
    case None => true
    case Some(w) => WantTyped(buf, pos + 3, w)
  }

  predicate WantTyped(buf: seq<byte>, pos: nat, w: Want)
    requires pos <= |buf|
    decreases |buf| - pos, 2
  {
    match w
    case WantI32List => pos < |buf| ==> ValidFieldType(buf[pos])
    case WantStruct(schema) => RecordTyped(buf, pos, schema, map[])
    case WantString => true
    case WantBinary => true
    case WantI32 => true
    case WantI64 => true
  }

  /** The schema asks for no list, at any level. */
  predicate ListFree(schema: Schema)
    decreases schema, 0
  {
    schema == [] || (ListFreeWanted(schema[0]) && ListFree(schema[1..]))
  }

  predicate ListFreeWanted(wanted: Wanted)
    decreases wanted
  {
    ListFreeWant(wanted.want)
  }

  predicate ListFreeWant(w: Want)
    decreases w, 1
  {
    match w
    case WantI32List => false
    case WantStruct(schema) => ListFree(schema)
    case _ => true
  }

  lemma FindListFree(schema: Schema, id: int16, t: byte)
    requires ListFree(schema)
    ensures Find(schema, id, t).Some? ==> ListFreeWant(Find(schema, id, t).value)
  {
    hide ListFreeWant;
  }

  /** A decoder that asks for no list meets the condition on every byte string. */
  lemma {:induction false} ListFreeTyped(buf: seq<byte>, pos: nat, schema: Schema, acc: Record)
    requires pos <= |buf| && ListFree(schema)
    ensures RecordTyped(buf, pos, schema, acc)
    decreases |buf| - pos, 1
  {
    hide ReadField, ListFree, ListFreeWant, Find;
    if ScanFieldBegin(buf, pos).ok && buf[pos] != T_STOP {
      SpanValues();
      var id: int16 := Signed(buf[pos + 1..pos + 3]);
      FindListFree(schema, id, buf[pos]);
      if w :| Find(schema, id, buf[pos]) == Some(w) {
        ListFreeWantTyped(buf, pos + 3, w);
      }
      if pair :| ReadField(buf, pos, schema, acc) == Some(pair) {
        ListFreeTyped(buf, pair.1, schema, pair.0);
      }
    }
  }

  lemma {:induction false} ListFreeWantTyped(buf: seq<byte>, pos: nat, w: Want)
    requires pos <= |buf| && ListFreeWant(w)
    ensures WantTyped(buf, pos, w)
    decreases |buf| - pos, 2
  {
    hide RecordTyped, ListFree;
    if w.WantStruct? {
      ListFreeTyped(buf, pos, w.schema, map[]);
    }
  }

  lemma BinarySound(buf: seq<byte>, pos: nat) returns (v: Value)
    requires pos <= |buf| && ScanBinary(buf, pos).ok
    ensures Encodable(v) && TypeOf(v) == T_STRING && buf[pos..ScanBinary(buf, pos).pos] == Encode(v)
  {
    hide Unsigned, Digits;
    var end := ScanBinary(buf, pos).pos;
    v := Binary(buf[pos + 4..end]);
    DigitsOfWord(buf, pos);
    assert buf[pos..end] == buf[pos..pos + 4] + v.bytes;
  }

  lemma {:induction false} IntsSound(buf: seq<byte>, pos: nat, n: nat) returns (vs: seq<Value>)
    requires pos <= |buf| && ReadInts(buf, pos, n).Some?
    ensures EncodableAll(vs) && |vs| == n && Types(vs) == Repeat([T_I32], n)
    ensures buf[pos..ReadInts(buf, pos, n).value.1] == EncodeAll(vs)
    decreases n
  {
    hide Signed, Word;
    if n == 0 {
      vs := [];
    } else {
      var end := ReadInts(buf, pos, n).value.1;
      var v := Fixed(T_I32, buf[pos..pos + 4]);
      var rest := IntsSound(buf, pos + 4, n - 1);
      vs := [v] + rest;
      assert vs[0] == v && vs[1..] == rest;
      assert buf[pos..end] == buf[pos..pos + 4] + buf[pos + 4..end];
    }
  }

  lemma ListSound(buf: seq<byte>, pos: nat) returns (v: Value)
    requires pos <= |buf| && ReadI32List(buf, pos).Some? && ValidFieldType(buf[pos])
    ensures Encodable(v) && TypeOf(v) == T_LIST && buf[pos..ReadI32List(buf, pos).value.1] == Encode(v)
  {
    hide SkipAll, ReadInts, Digits, Unsigned, EncodeAll, EncodableAll, Types, Repeat, ValidFieldType;
    var end, e, n := ReadI32List(buf, pos).value.1, buf[pos], Word(buf, pos + 1);
    var elements;
    if e == T_I32 {
      elements := IntsSound(buf, pos + 5, n);
    } else {
      elements := SkipAllSound(buf, pos + 5, Repeat([e], n), 0);
    }
    assert |elements| == |Types(elements)| == |Repeat([e], n)| == n;
    WordBound(buf, pos + 1);
    v := ListValue(e, elements);
    DigitsOfWord(buf, pos + 1);
    assert buf[pos..end] == [e] + buf[pos + 1..pos + 5] + buf[pos + 5..end];
  }

  lemma WordBound(buf: seq<byte>, pos: nat)
    requires pos + 4 <= |buf|
    ensures Word(buf, pos) <= MAX_LENGTH
  {
  }

  /** A list header is taken whatever element type it names, if it names no elements; what is accepted was the encoding
      of a list exactly when that type is one of the protocol's. */
  lemma ListExact(buf: seq<byte>, pos: nat)
    requires pos <= |buf| && ReadI32List(buf, pos).Some?
    ensures pos < |buf|
    ensures (exists v :: Encodable(v) && TypeOf(v) == T_LIST && Encode(v) == buf[pos..ReadI32List(buf, pos).value.1])
      <==> ValidFieldType(buf[pos])
  {
    hide ReadI32List, Encodable, Encode, ValidFieldType;
    assert pos < |buf| by { ListStarts(buf, pos); }
    var end := ReadI32List(buf, pos).value.1;
    if ValidFieldType(buf[pos]) {
      var v := ListSound(buf, pos);
    }
    if v :| Encodable(v) && TypeOf(v) == T_LIST && Encode(v) == buf[pos..end] {
      ListFirstByte(v);
      assert buf[pos..end][0] == buf[pos];
    }
  }

  lemma ListStarts(buf: seq<byte>, pos: nat)
    requires pos <= |buf| && ReadI32List(buf, pos).Some?
    ensures pos < |buf|
  {
  }

  lemma ListFirstByte(v: Value)
    requires Encodable(v) && TypeOf(v) == T_LIST
    ensures Encode(v) != [] && ValidFieldType(Encode(v)[0])
  {
  }

  lemma {:induction false} ReadWantedSound(buf: seq<byte>, pos: nat, w: Want) returns (v: Value)
    requires pos <= |buf| && WantTyped(buf, pos, w) && ReadWanted(buf, pos, w).Some?
    ensures Encodable(v) && TypeOf(v) == WantType(w)
    ensures buf[pos..ReadWanted(buf, pos, w).value.1] == Encode(v)
    decreases |buf| - pos, 2
  {
    hide EncodableFields, EncodeFields, ReadRecord, ReadI32List, RecordTyped, Unsigned, Digits, ValidUtf8,
      ValidFieldType;
    var end := ReadWanted(buf, pos, w).value.1;
    match w {
      case WantI32 => v := Fixed(T_I32, buf[pos..end]);
      case WantI64 => v := Fixed(T_I64, buf[pos..end]);
      case WantStruct(schema) =>
        var fields := ReadRecordSound(buf, pos, schema, map[]);
        v := Struct(fields);
      case WantI32List =>
        ListStarts(buf, pos);
        v := ListSound(buf, pos);
      case WantBinary => v := BinarySound(buf, pos);
      case WantString => v := BinarySound(buf, pos);
    }
  }

  lemma {:induction false} ReadFieldSound(buf: seq<byte>, pos: nat, schema: Schema, acc: Record) returns (f: Field)
    requires pos + 3 <= |buf| && FieldTyped(buf, pos, schema) && ReadField(buf, pos, schema, acc).Some?
    ensures EncodableField(f) && buf[pos..ReadField(buf, pos, schema, acc).value.1] == EncodeField(f)
    decreases |buf| - pos, 0
  {
    hide Encodable, Encode, SkipValue, ReadWanted, WantTyped, Bounded, Cost, Unsigned, Digits;
    SpanValues();
    var t, id: int16 := buf[pos], Signed(buf[pos + 1..pos + 3]);
    var end := ReadField(buf, pos, schema, acc).value.1;
    FindType(schema, id, t);
    var v;
    if w :| Find(schema, id, t) == Some(w) {
      v := ReadWantedSound(buf, pos + 3, w);
    } else {
      v := SkipSound(buf, pos + 3, t, 0);
    }
    f := FieldFrom(buf, pos, v);
    assert buf[pos..end] == buf[pos..pos + 3] + buf[pos + 3..end];
  }

  lemma {:induction false} ReadRecordSound(buf: seq<byte>, pos: nat, schema: Schema, acc: Record)
    returns (fs: seq<Field>)
    requires pos <= |buf| && RecordTyped(buf, pos, schema, acc) && ReadRecord(buf, pos, schema, acc).Some?
    ensures EncodableFields(fs) && buf[pos..ReadRecord(buf, pos, schema, acc).value.1] == EncodeFields(fs)
    decreases |buf| - pos, 1
  {
    hide Encodable, Encode, ReadField, FieldTyped;
    if buf[pos] == T_STOP {
      fs := [];
      assert buf[pos..pos + 1] == [T_STOP];
    } else {
      var end := ReadRecord(buf, pos, schema, acc).value.1;
      var (record, mid) := ReadField(buf, pos, schema, acc).value;
      var f := ReadFieldSound(buf, pos, schema, acc);
      var rest := ReadRecordSound(buf, mid, schema, record);
      fs := [f] + rest;
      assert fs[0] == f && fs[1..] == rest;
      assert buf[pos..end] == buf[pos..mid] + buf[mid..end];
    }
  }

  // ----- encodings are typed -----

  lemma {:induction false} EncodedWantTyped(buf: seq<byte>, pos: nat, v: Value, w: Want)
    requires Encodable(v) && TypeOf(v) == WantType(w) && At(buf, pos, Encode(v))
    ensures WantTyped(buf, pos, w)
    decreases v, 1
  {
    hide RecordTyped, EncodableFields, EncodeFields, ValidFieldType;
    match w {
      case WantI32List =>
        ListFirstByte(v);
        assert buf[pos..pos + |Encode(v)|][0] == buf[pos];
      case WantStruct(schema) =>
        EncodedTyped(buf, pos, v.fields, schema, map[]);
      case WantI32 =>
      case WantI64 =>
      case WantBinary =>
      case WantString =>
    }
  }

  lemma {:induction false} EncodedFieldTyped(buf: seq<byte>, pos: nat, f: Field, schema: Schema)
    requires EncodableField(f) && At(buf, pos, EncodeField(f))
    ensures FieldTyped(buf, pos, schema)
    decreases f
  {
    hide Encode, Encodable, WantTyped, Find, Digits, Unsigned;
    FieldHeaderAt(buf, pos, f);
    var t := TypeOf(f.value);
    FindType(schema, f.id, t);
    if w :| Find(schema, f.id, t) == Some(w) {
      EncodedWantTyped(buf, pos + 3, f.value, w);
    }
  }

  lemma {:induction false} EncodedTyped(buf: seq<byte>, pos: nat, fs: seq<Field>, schema: Schema, acc: Record)
    requires EncodableFields(fs) && At(buf, pos, EncodeFields(fs))
    ensures RecordTyped(buf, pos, schema, acc)
    decreases fs, 0
  {
    hide Encodable, Encode, ReadField, ProjectField, FieldTyped;
    if fs == [] {
      AtFirst(buf, pos, [T_STOP]);
    } else {
      var f, mid := fs[0], pos + |EncodeField(fs[0])|;
      AtConcat(buf, pos, EncodeField(f), EncodeFields(fs[1..]));
      FieldHeaderAt(buf, pos, f);
      EncodedFieldTyped(buf, pos, f, schema);
      ReadFieldProjects(buf, pos, f, schema, acc);
      if record :| ReadField(buf, pos, schema, acc) == Some((record, mid)) {
        EncodedTyped(buf, mid, fs[1..], schema, record);
      }
    }
  }

  /** Any decoder succeeds from p to q, with every list it keeps naming a type of the protocol, exactly when those bytes
      are an encoded struct; and what it returns is the fold over that struct's fields. */
  lemma RecordExact(buf: seq<byte>, p: nat, q: nat, schema: Schema, record: Record)
    requires p <= q <= |buf|
    ensures (ReadRecord(buf, p, schema, map[]) == Some((record, q)) && RecordTyped(buf, p, schema, map[]))
      <==> exists fs :: EncodableFields(fs) && EncodeFields(fs) == buf[p..q]
                     && ProjectFields(fs, schema, map[]) == Some(record)
  {
    hide Encodable, Encode, ReadField, ProjectField, FieldTyped;
    if ReadRecord(buf, p, schema, map[]) == Some((record, q)) && RecordTyped(buf, p, schema, map[]) {
      var fs := ReadRecordSound(buf, p, schema, map[]);
      ReadRecordProjects(buf, p, fs, schema, map[]);
      assert EncodableFields(fs) && EncodeFields(fs) == buf[p..q]
        && ProjectFields(fs, schema, map[]) == Some(record);
    }
    if fs :| EncodableFields(fs) && EncodeFields(fs) == buf[p..q] && ProjectFields(fs, schema, map[]) == Some(record) {
      ReadRecordProjects(buf, p, fs, schema, map[]);
      EncodedTyped(buf, p, fs, schema, map[]);
    }
  }

  /** On a header with a type that is none of the protocol's, a list is accepted exactly when it is empty. */
  lemma UntypedListAccepted(buf: seq<byte>, pos: nat, e: byte, n: nat)
    requires n <= MAX_LENGTH && !ValidFieldType(e)
    requires At(buf, pos, [e] + Digits(n, 4))
    ensures ReadI32List(buf, pos).Some? <==> n == 0
  {
    hide SkipAll, Unsigned, Digits;
    AtConcat(buf, pos, [e], Digits(n, 4));
    AtFirst(buf, pos, [e]);
    WordOfDigits(buf, pos + 1, n);
    if n > 0 {
      FirstTypeFails(buf, pos + 5, Repeat([e], n));
    } else {
      NothingToSkip(buf, pos + 5);
    }
  }

  lemma FirstTypeFails(buf: seq<byte>, pos: nat, types: seq<byte>)
    requires pos <= |buf| && types != [] && !ValidFieldType(types[0])
    ensures !SkipAll(buf, pos, types, 0).ok
  {
  }

  lemma NothingToSkip(buf: seq<byte>, pos: nat)
    requires pos <= |buf|
    ensures SkipAll(buf, pos, [], 0) == Scan(true, pos, 0)
  {
  }
}
