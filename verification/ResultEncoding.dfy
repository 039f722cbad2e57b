/** The FetchResults reply: which Thrift value a page of rows becomes, and how it reads back. */
module ResultEncoding {
  import opened Wrappers
  import opened BigEndian
  import opened NullBits
  import opened StatusCodes
  import opened ResultPages
  import opened ThriftValue
  import opened ThriftMessages

  // ----- result data -----

  /** One value of a result column. Undisplayable is a value with no display form, such as a date out of range. */
  datatype Cell =
    | Null
    | Boolean(b: bool)
    | Integer(n: int)
    | Float(bits: int64)
    | Text(text: seq<byte>)
    | Blob(blob: seq<byte>)
    | Undisplayable

  type Row = seq<Cell>

  datatype DataType =
    | BooleanType | Int8Type | Int16Type | Int32Type | Int64Type
    | UInt8Type | UInt16Type | UInt32Type | UInt64Type
    | Float32Type | Float64Type | Utf8Type | DateType | TimestampType | BinaryType
    | DecimalType(precision: int32, scale: int32)
    | ListType | MapType | StructType | OtherType

  datatype Physical = BoolColumn | I32Column | I64Column | F64Column | StringColumn | BinaryColumn

  datatype ColumnEncoder = ColumnEncoder(schemaType: int32, physical: Physical, decimal: Option<(int32, int32)>)

  datatype QueryResult = QueryResult(names: seq<seq<byte>>, types: seq<DataType>, batches: seq<seq<Row>>)

  function Encoder(t: DataType): Option<ColumnEncoder> {
    match t
    case BooleanType => Some(ColumnEncoder(0, BoolColumn, None))
    case Int8Type => Some(ColumnEncoder(1, I32Column, None))
    case Int16Type => Some(ColumnEncoder(2, I32Column, None))
    case Int32Type => Some(ColumnEncoder(3, I32Column, None))
    case Int64Type => Some(ColumnEncoder(4, I64Column, None))
    case UInt8Type => Some(ColumnEncoder(4, I64Column, None))
    case UInt16Type => Some(ColumnEncoder(4, I64Column, None))
    case UInt32Type => Some(ColumnEncoder(4, I64Column, None))
    case UInt64Type => Some(ColumnEncoder(4, I64Column, None))
    case Float32Type => Some(ColumnEncoder(5, F64Column, None))
    case Float64Type => Some(ColumnEncoder(6, F64Column, None))
    case Utf8Type => Some(ColumnEncoder(7, StringColumn, None))
    case TimestampType => Some(ColumnEncoder(8, StringColumn, None))
    case BinaryType => Some(ColumnEncoder(9, BinaryColumn, None))
    case ListType => Some(ColumnEncoder(10, StringColumn, None))
    case MapType => Some(ColumnEncoder(11, StringColumn, None))
    case StructType => Some(ColumnEncoder(12, StringColumn, None))
    case DecimalType(p, s) => Some(ColumnEncoder(15, StringColumn, Some((p, s))))
    case DateType => Some(ColumnEncoder(17, StringColumn, None))
    case OtherType => None
  }

  function Encoders(types: seq<DataType>): (r: Option<seq<ColumnEncoder>>)
    ensures r.Some? ==> |r.value| == |types|
    ensures r.Some? <==> forall i | 0 <= i < |types| :: Encoder(types[i]).Some?
    ensures r.Some? ==> forall i | 0 <= i < |types| :: Encoder(types[i]) == Some(r.value[i])
  {
    if types == [] then Some([])
    else
      match (Encoder(types[0]), Encoders(types[1..]))
      case (Some(head), Some(rest)) => Some([head] + rest)
      case _ => None
  }

  /** The field of the column union that each physical type fills. */
  function ColumnField(p: Physical): int16 {
    match p
    case BoolColumn => 1
    case I32Column => 4
    case I64Column => 5
    case F64Column => 6
    case StringColumn => 7
    case BinaryColumn => 8
  }

  function ElementType(p: Physical): byte {
    match p
    case BoolColumn => T_BOOL
    case I32Column => T_I32
    case I64Column => T_I64
    case F64Column => T_DOUBLE
    case StringColumn => T_STRING
    case BinaryColumn => T_STRING
  }

  // ----- cells on the wire -----

  /** A null is written as the type's zero; a cell the physical type cannot carry is an error. */
  function WireValue(p: Physical, c: Cell): (r: Option<Value>)
    ensures r.Some? ==> TypeOf(r.value) == ElementType(p)
  {
    match (p, c)
    case (BoolColumn, Null) => Some(BoolValue(false))
    case (BoolColumn, Boolean(b)) => Some(BoolValue(b))
    case (I32Column, Null) => Some(I32Value(0))
    case (I32Column, Integer(n)) => if -0x8000_0000 <= n < 0x8000_0000 then Some(I32Value(n)) else None
    case (I64Column, Null) => Some(I64Value(0))
    case (I64Column, Integer(n)) =>
      if -0x8000_0000_0000_0000 <= n < 0x8000_0000_0000_0000 then Some(I64Value(n)) else None
    case (F64Column, Null) => Some(Fixed(T_DOUBLE, Digits(0, 8)))
    case (F64Column, Float(bits)) => Some(Fixed(T_DOUBLE, Digits(bits, 8)))
    case (StringColumn, Null) => Some(Binary([]))
    case (StringColumn, Text(text)) => Some(Binary(text))
    case (BinaryColumn, Null) => Some(Binary([]))
    case (BinaryColumn, Blob(blob)) => Some(Binary(blob))
    case _ => None
  }

  /** How a client takes an element of a column's list. */
  function CellOf(p: Physical, v: Value): Cell {
    match p
    case BoolColumn => if v.Fixed? && v.raw != [] then Boolean(v.raw[0] != 0) else Undisplayable
    case I32Column => if v.Fixed? then Integer(Signed(v.raw)) else Undisplayable
    case I64Column => if v.Fixed? then Integer(Signed(v.raw)) else Undisplayable
    case F64Column =>
      if v.Fixed? && |v.raw| == 8 then
        SpanValues();
        Float(Signed(v.raw))
      else Undisplayable
    case StringColumn => if v.Binary? then Text(v.bytes) else Undisplayable
    case BinaryColumn => if v.Binary? then Blob(v.bytes) else Undisplayable
  }

  lemma CellRoundTrip(p: Physical, c: Cell)
    requires WireValue(p, c).Some? && c != Null
    ensures CellOf(p, WireValue(p, c).value) == c
  {
    SpanValues();
    match c {
      case Integer(n) => SignedDigits(n, if p == I32Column then 4 else 8);
      case Float(bits) => SignedDigits(bits, 8);
      case _ =>
    }
  }

  /** A column's elements, from the rows in order; None if a row lacks the column or a cell is an error. */
  function WireValues(p: Physical, rows: seq<Row>, i: nat): (r: Option<seq<Value>>)
    ensures r.Some? ==> |r.value| == |rows|
    ensures r.Some? <==> forall k | 0 <= k < |rows| :: i < |rows[k]| && WireValue(p, rows[k][i]).Some?
    ensures r.Some? ==> forall k | 0 <= k < |rows| :: WireValue(p, rows[k][i]) == Some(r.value[k])
  {
    if rows == [] then Some([])
    else
      var last := rows[|rows| - 1];
      var front := WireValues(p, rows[..|rows| - 1], i);
      if front.Some? && i < |last| && WireValue(p, last[i]).Some?
      then Some(front.value + [WireValue(p, last[i]).value])
      else None
  }

  /** Which rows are null in this column; rows of a batch without the column are passed over. */
  function NullFlags(rows: seq<Row>, i: nat): (flags: seq<bool>)
    ensures |flags| <= |rows|
    ensures (forall k | 0 <= k < |rows| :: i < |rows[k]|) ==>
      |flags| == |rows| && forall k | 0 <= k < |rows| :: flags[k] == rows[k][i].Null?
  {
    if rows == [] then []
    else
      var last := rows[|rows| - 1];
      NullFlags(rows[..|rows| - 1], i) + if i < |last| then [last[i].Null?] else []
  }

  function Padded(flags: seq<bool>, n: nat): (padded: seq<bool>)
    requires |flags| <= n
    ensures |padded| == n && padded[..|flags|] == flags
    ensures forall k | |flags| <= k < n :: !padded[k]
  {
    flags + seq(n - |flags|, _ => false)
  }

  function NullBytes(rows: seq<Row>, i: nat): seq<byte> { Pack(Padded(NullFlags(rows, i), |rows|)) }

  function ColumnFields(p: Physical, vs: seq<Value>, nulls: seq<byte>): seq<Field> {
    [Field(1, ListValue(ElementType(p), vs)), Field(2, Binary(nulls))]
  }

  function ColumnValue(p: Physical, rows: seq<Row>, i: nat): (r: Option<Value>)
    ensures r.Some? <==> WireValues(p, rows, i).Some?
    ensures r.Some? ==> TypeOf(r.value) == T_STRUCT
  {
    match WireValues(p, rows, i)
    case None => None
    case Some(vs) => Some(Struct([Field(ColumnField(p), Struct(ColumnFields(p, vs, NullBytes(rows, i))))]))
  }

  function ColumnAt(encoders: seq<ColumnEncoder>, rows: seq<Row>, i: nat): Option<Value>
    requires i < |encoders|
  {
    ColumnValue(encoders[i].physical, rows, i)
  }

  /** The first n columns. */
  function ColumnValues(encoders: seq<ColumnEncoder>, rows: seq<Row>, n: nat): (r: Option<seq<Value>>)
    requires n <= |encoders|
    ensures r.Some? ==> |r.value| == n
    ensures r.Some? ==> forall i | 0 <= i < n :: ColumnAt(encoders, rows, i) == Some(r.value[i])
    ensures (forall i | 0 <= i < n :: ColumnAt(encoders, rows, i).Some?) ==> r.Some?
  {
    hide ColumnAt, ColumnValue;
    if n == 0 then Some([])
    else
      var last := ColumnAt(encoders, rows, n - 1);
      match ColumnValues(encoders, rows, n - 1)
      case None => None
      case Some(front) => if last.Some? then Some(front + [last.value]) else None
  }

  function RowSetFields(start: int, columns: seq<Value>): seq<Field> {
    [Field(1, I64Value(start)), Field(2, ListValue(T_STRUCT, [])),
     Field(3, ListValue(T_STRUCT, columns)), Field(5, I32Value(|columns|))]
  }

  // ----- the parts of fixed shape -----

  const COLUMN_BASED_SET := 1

  function Ascii(s: string): seq<byte> { seq(|s|, i requires 0 <= i < |s| => s[i] as int % 0x100) }

  function StatusValue(code: int, message: Option<seq<byte>>): Value {
    Struct([Field(1, I32Value(code))]
           + match message
             case None => []
             case Some(text) => [Field(5, Binary(text)), Field(6, Binary(text))])
  }

  function DecimalQualifiers(precision: int, scale: int): Field {
    Field(2, Struct([Field(1, Map(T_STRING, T_STRUCT,
      [Binary(Ascii("precision")), Struct([Field(1, I32Value(precision))]),
       Binary(Ascii("scale")), Struct([Field(1, I32Value(scale))])]))]))
  }

  function TypeDescription(e: ColumnEncoder): Value {
    var primitive := [Field(1, I32Value(e.schemaType))]
      + match e.decimal case None => [] case Some((p, s)) => [DecimalQualifiers(p, s)];
    Struct([Field(1, ListValue(T_STRUCT, [Struct([Field(1, Struct(primitive))])]))])
  }

  function ColumnDescription(name: seq<byte>, e: ColumnEncoder, position: nat): Value {
    Struct([Field(1, Binary(name)), Field(2, TypeDescription(e)), Field(3, I32Value(position))])
  }

  function ColumnDescriptions(names: seq<seq<byte>>, encoders: seq<ColumnEncoder>): (vs: seq<Value>)
    requires |names| == |encoders|
    ensures |vs| == |names|
    ensures forall i | 0 <= i < |vs| :: vs[i] == ColumnDescription(names[i], encoders[i], i)
  {
    seq(|names|, i requires 0 <= i < |names| && |names| == |encoders| => ColumnDescription(names[i], encoders[i], i))
  }

  function MetadataFields(names: seq<seq<byte>>, encoders: seq<ColumnEncoder>): seq<Field>
    requires |names| == |encoders|
  {
    [Field(1, StatusValue(SUCCESS_STATUS, None)),
     Field(2, Struct([Field(1, ListValue(T_STRUCT, ColumnDescriptions(names, encoders)))])),
     Field(1281, I32Value(COLUMN_BASED_SET)), Field(1282, BoolValue(false)), Field(1287, BoolValue(false))]
  }

  // ----- the reply -----

  /** The fields of a successful response, or None when some column or cell cannot be encoded. */
  function FetchFields(names: seq<seq<byte>>, types: seq<DataType>, rows: seq<Row>, start: int, more: bool,
                       includeMetadata: bool): Option<seq<Field>> {
    if |names| != |types| then None
    else
      match Encoders(types)
      case None => None
      case Some(encoders) =>
        match ColumnValues(encoders, rows, |encoders|)
        case None => None
        case Some(columns) =>
          Some([Field(1, StatusValue(SUCCESS_STATUS, None)), Field(2, BoolValue(more)),
                Field(3, Struct(RowSetFields(start, columns)))]
               + if includeMetadata then [Field(1281, Struct(MetadataFields(names, encoders)))] else [])
  }

  /** The response to a fetch: of the rows from the offset on, as many as the request's limit allows. */
  function FetchedFields(rows: seq<Row>, names: seq<seq<byte>>, types: seq<DataType>, includeMetadata: bool,
                         offset: int, maxRows: Option<int>): Option<seq<Field>> {
    var start, end := PageStart(|rows|, offset), PageEnd(|rows|, offset, RequestedRowLimit(maxRows));
    FetchFields(names, types, rows[start..end], start, end < |rows|, includeMetadata)
  }

  /** Why a fetch is refused: the status it is told, and the message with it. */
  datatype Refusal = Refusal(code: int32, text: seq<byte>)

  /** The operation has no result: it is still active, failed or was cancelled. */
  function NotReady(message: Option<seq<byte>>): Refusal {
    Refusal(ERROR_STATUS, match message case Some(text) => text case None => Ascii("operation is not finished"))
  }

  const UNKNOWN_HANDLE := Refusal(INVALID_HANDLE_STATUS, Ascii("unknown operation handle"))

  function RefusalFields(refusal: Refusal): seq<Field> {
    [Field(1, StatusValue(refusal.code, Some(refusal.text))), Field(2, BoolValue(false))]
  }

  function ReplyFields(response: Option<seq<Field>>, refusal: Refusal): seq<Field> {
    match response
    case Some(fields) => fields
    case None => RefusalFields(refusal)
  }

  function FetchReply(seqid: int32, response: Option<seq<Field>>, refusal: Refusal): seq<byte> {
    MessageBegin(Ascii("FetchResults"), T_MESSAGE_REPLY, seqid)
    + EncodeFields([Field(0, Struct(ReplyFields(response, refusal)))])
  }

  // ----- reading a page back -----

  /** What a client makes of a column: null where its bit is set, else the element. */
  function ColumnCells(p: Physical, vs: seq<Value>, nulls: seq<byte>): Option<seq<Cell>> {
    if |nulls| != Bytes(|vs|) then None
    else Some(seq(|vs|, k requires 0 <= k < |vs| && |nulls| == Bytes(|vs|) =>
                        if Bit(nulls[k / 8], k % 8) then Null else CellOf(p, vs[k])))
  }

  function PhysicalOf(field: int16): Option<Physical> {
    match field
    case 1 => Some(BoolColumn)
    case 4 => Some(I32Column)
    case 5 => Some(I64Column)
    case 6 => Some(F64Column)
    case 7 => Some(StringColumn)
    case 8 => Some(BinaryColumn)
    case _ => None
  }

  function DecodeColumn(v: Value): Option<seq<Cell>> {
    if v.Struct? && |v.fields| == 1 && PhysicalOf(v.fields[0].id).Some? && v.fields[0].value.Struct?
    then
      var p, inner := PhysicalOf(v.fields[0].id).value, v.fields[0].value.fields;
      if |inner| == 2 && inner[0].value.Elements? && inner[1].value.Binary?
      then ColumnCells(p, inner[0].value.elements, inner[1].value.bytes) else None
    else None
  }

  function DecodeColumns(vs: seq<Value>): Option<seq<seq<Cell>>> {
    if vs == [] then Some([])
    else
      match (DecodeColumn(vs[0]), DecodeColumns(vs[1..]))
      case (Some(head), Some(rest)) => Some([head] + rest)
      case _ => None
  }

  /** Start offset, columns and whether more rows follow, from the fields of a response. */
  function DecodePage(fields: seq<Field>): Option<(int, seq<seq<Cell>>, bool)> {
    if |fields| >= 3 && fields[1].value.Fixed? && fields[2].value.Struct?
    then
      var rowSet := fields[2].value.fields;
      if |rowSet| == 4 && rowSet[0].value.Fixed? && rowSet[2].value.Elements?
      then
        match DecodeColumns(rowSet[2].value.elements)
        case None => None
        case Some(columns) => Some((Signed(rowSet[0].value.raw), columns, fields[1].value.raw != [0]))
      else None
    else None
  }

  function ColumnOf(rows: seq<Row>, i: nat): seq<Cell>
    requires forall k | 0 <= k < |rows| :: i < |rows[k]|
  {
    seq(|rows|, k requires 0 <= k < |rows| => rows[k][i])
  }

  lemma CellsReadBack(p: Physical, rows: seq<Row>, i: nat)
    requires WireValues(p, rows, i).Some?
    ensures ColumnCells(p, WireValues(p, rows, i).value, NullBytes(rows, i)) == Some(ColumnOf(rows, i))
  {
    hide Pack, Bit, CellOf, WireValue, WireValues, NullFlags;
    var vs, nulls := WireValues(p, rows, i).value, NullBytes(rows, i);
    var flags := NullFlags(rows, i);
    assert Padded(flags, |rows|) == flags;
    PackHolds(flags);
    var cells := ColumnCells(p, vs, nulls).value;
    forall k | 0 <= k < |rows| ensures cells[k] == rows[k][i] {
      assert Bit(nulls[k / 8], k % 8) <==> rows[k][i].Null?;
      if !rows[k][i].Null? {
        CellRoundTrip(p, rows[k][i]);
      }
    }
    assert cells == ColumnOf(rows, i);
  }

  lemma ColumnReadsBack(p: Physical, rows: seq<Row>, i: nat)
    requires ColumnValue(p, rows, i).Some?
    ensures forall k | 0 <= k < |rows| :: i < |rows[k]|
    ensures DecodeColumn(ColumnValue(p, rows, i).value) == Some(ColumnOf(rows, i))
  {
    hide ColumnCells, NullBytes, WireValues;
    CellsReadBack(p, rows, i);
  }

  lemma {:induction false} ColumnsReadBack(columns: seq<Value>, cells: seq<seq<Cell>>)
    requires |columns| == |cells|
    requires forall i | 0 <= i < |columns| :: DecodeColumn(columns[i]) == Some(cells[i])
    ensures DecodeColumns(columns) == Some(cells)
  {
    hide DecodeColumn;
    if columns != [] {
      ColumnsReadBack(columns[1..], cells[1..]);
      assert cells == [cells[0]] + cells[1..];
    }
  }

  lemma AllColumnsReadBack(encoders: seq<ColumnEncoder>, rows: seq<Row>)
    requires ColumnValues(encoders, rows, |encoders|).Some?
    ensures forall k | 0 <= k < |rows| :: |encoders| <= |rows[k]|
    ensures DecodeColumns(ColumnValues(encoders, rows, |encoders|).value)
      == Some(seq(|encoders|, i requires 0 <= i < |encoders| => ColumnOf(rows, i)))
  {
    hide DecodeColumn, DecodeColumns, ColumnValue, ColumnValues;
    var columns := ColumnValues(encoders, rows, |encoders|).value;
    forall i | 0 <= i < |encoders|
      ensures forall k | 0 <= k < |rows| :: i < |rows[k]|
      ensures DecodeColumn(columns[i]) == Some(ColumnOf(rows, i))
    {
      assert ColumnAt(encoders, rows, i) == Some(columns[i]);
      ColumnReadsBack(encoders[i].physical, rows, i);
    }
    if |encoders| > 0 {
      var last := |encoders| - 1;
      assert ColumnAt(encoders, rows, last) == Some(columns[last]);
      ColumnReadsBack(encoders[last].physical, rows, last);
    }
    ColumnsReadBack(columns, seq(|encoders|, i requires 0 <= i < |encoders| => ColumnOf(rows, i)));
  }

  /** A page that can be encoded reads back as it was: offset, every cell of every column, and the flag. */
  lemma PageReadsBack(names: seq<seq<byte>>, types: seq<DataType>, rows: seq<Row>, start: int64, more: bool,
                      includeMetadata: bool)
    requires FetchFields(names, types, rows, start, more, includeMetadata).Some?
    ensures forall k | 0 <= k < |rows| :: |types| <= |rows[k]|
    ensures DecodePage(FetchFields(names, types, rows, start, more, includeMetadata).value)
      == Some((start, seq(|types|, i requires 0 <= i < |types| => ColumnOf(rows, i)), more))
  {
    hide DecodeColumns, Digits, Unsigned, Signed, ColumnValues, MetadataFields, StatusValue;
    AllColumnsReadBack(Encoders(types).value, rows);
    SpanValues();
    SignedDigits(start, 8);
  }

  // ----- the reply is one well-formed message, within the reader's own limits -----

  /** Everything with a length prefix fits it. Arrow's 32-bit offsets give this for most columns. */
  predicate CellFits(c: Cell) {
    match c
    case Text(text) => |text| <= MAX_LENGTH
    case Blob(blob) => |blob| <= MAX_LENGTH
    case _ => true
  }

  predicate Fits(names: seq<seq<byte>>, rows: seq<Row>) {
    && |names| <= MAX_LENGTH && |rows| <= MAX_FETCH_ROWS
    && (forall i | 0 <= i < |names| :: |names[i]| <= MAX_LENGTH)
    && (forall k, i | 0 <= k < |rows| && 0 <= i < |rows[k]| :: CellFits(rows[k][i]))
  }

  /** Encodable at this nesting cost; and, when `small`, with no container over the element limit. */
  predicate Flat(v: Value, cost: nat, small: bool) { Encodable(v) && Cost(v) <= cost && (small ==> Bounded(v)) }

  lemma {:induction false} ElementsFlat(vs: seq<Value>, t: byte, cost: nat, small: bool)
    requires forall k | 0 <= k < |vs| :: Flat(vs[k], cost, small) && TypeOf(vs[k]) == t
    ensures EncodableAll(vs) && MaxCost(vs) <= cost && Types(vs) == Repeat([t], |vs|)
    ensures small ==> BoundedAll(vs)
  {
    hide Encodable, Cost, Bounded;
    if vs != [] {
      ElementsFlat(vs[1..], t, cost, small);
    }
  }

  lemma {:induction false} FieldsFlat(fs: seq<Field>, cost: nat, small: bool)
    requires forall k | 0 <= k < |fs| :: Flat(fs[k].value, cost, small)
    ensures EncodableFields(fs) && MaxFieldCost(fs) <= cost
    ensures small ==> BoundedFields(fs)
  {
    hide Encodable, Cost, Bounded;
    if fs != [] {
      FieldsFlat(fs[1..], cost, small);
    }
  }

  lemma ListFlat(t: byte, vs: seq<Value>, cost: nat, small: bool)
    requires ValidFieldType(t) && |vs| <= MAX_LENGTH && (small ==> |vs| <= MAX_CONTAINER_ELEMENTS)
    requires forall k | 0 <= k < |vs| :: Flat(vs[k], cost, small) && TypeOf(vs[k]) == t
    ensures Flat(ListValue(t, vs), cost + 1, small)
  {
    hide EncodableAll, MaxCost, BoundedAll, Types, Repeat;
    ElementsFlat(vs, t, cost, small);
  }

  lemma StructFlat(fs: seq<Field>, cost: nat, small: bool)
    requires forall k | 0 <= k < |fs| :: Flat(fs[k].value, cost, small)
    ensures Flat(Struct(fs), cost + 2, small)
  {
    hide EncodableFields, MaxFieldCost, BoundedFields;
    FieldsFlat(fs, cost, small);
  }

  lemma WireValueFlat(p: Physical, c: Cell)
    requires CellFits(c) && WireValue(p, c).Some?
    ensures Flat(WireValue(p, c).value, 0, true)
  {
  }

  lemma ColumnFlat(p: Physical, rows: seq<Row>, i: nat)
    requires ColumnValue(p, rows, i).Some? && |rows| <= MAX_FETCH_ROWS
    requires forall k | 0 <= k < |rows| && i < |rows[k]| :: CellFits(rows[k][i])
    ensures Flat(ColumnValue(p, rows, i).value, 5, true)
  {
    hide WireValue, Flat, Pack;
    var vs, nulls := WireValues(p, rows, i).value, NullBytes(rows, i);
    forall k | 0 <= k < |vs|
      ensures Flat(vs[k], 0, true) && TypeOf(vs[k]) == ElementType(p)
    {
      WireValueFlat(p, rows[k][i]);
    }
    ListFlat(ElementType(p), vs, 0, true);
    LeavesFlat(1, true);
    StructFlat(ColumnFields(p, vs, nulls), 1, true);
    StructFlat([Field(ColumnField(p), Struct(ColumnFields(p, vs, nulls)))], 3, true);
  }

  /** The values with nothing inside them cost nothing, so they are flat at any cost. */
  lemma LeavesFlat(cost: nat, small: bool)
    ensures forall n: int {:trigger I32Value(n)} :: Flat(I32Value(n), cost, small)
    ensures forall n: int {:trigger I64Value(n)} :: Flat(I64Value(n), cost, small)
    ensures forall b: bool {:trigger BoolValue(b)} :: Flat(BoolValue(b), cost, small)
    ensures forall bytes: seq<byte> {:trigger Binary(bytes)} | |bytes| <= MAX_LENGTH :: Flat(Binary(bytes), cost, small)
  {
  }

  lemma RowSetFlat(encoders: seq<ColumnEncoder>, rows: seq<Row>, start: int, small: bool)
    requires ColumnValues(encoders, rows, |encoders|).Some? && |rows| <= MAX_FETCH_ROWS
    requires forall k, i | 0 <= k < |rows| && 0 <= i < |rows[k]| :: CellFits(rows[k][i])
    requires |encoders| <= MAX_LENGTH && (small ==> |encoders| <= MAX_CONTAINER_ELEMENTS)
    ensures Flat(Struct(RowSetFields(start, ColumnValues(encoders, rows, |encoders|).value)), 8, small)
  {
    hide ColumnValues, ColumnValue, Flat, I32Value, I64Value;
    var columns := ColumnValues(encoders, rows, |encoders|).value;
    forall i | 0 <= i < |columns| ensures Flat(columns[i], 5, small) && TypeOf(columns[i]) == T_STRUCT {
      assert ColumnAt(encoders, rows, i) == Some(columns[i]);
      ColumnFlat(encoders[i].physical, rows, i);
      Slack(columns[i], 5, true, 5, small);
    }
    ListFlat(T_STRUCT, columns, 5, small);
    ListFlat(T_STRUCT, [], 5, small);
    LeavesFlat(6, small);
    StructFlat(RowSetFields(start, columns), 6, small);
  }

  /** Flatness at a cost is flatness at any higher one. */
  lemma Slack(v: Value, cost: nat, small: bool, more: nat, less: bool)
    requires Flat(v, cost, small) && cost <= more && (less ==> small)
    ensures Flat(v, more, less)
  {
  }

  lemma DecimalFlat(precision: int, scale: int)
    ensures Flat(DecimalQualifiers(precision, scale).value, 5, true)
  {
    hide Flat;
    LeavesFlat(0, true);
    LeavesFlat(2, true);
    var p, s := Struct([Field(1, I32Value(precision))]), Struct([Field(1, I32Value(scale))]);
    StructFlat(p.fields, 0, true);
    StructFlat(s.fields, 0, true);
    MapFlat(Ascii("precision"), p, Ascii("scale"), s);
    StructFlat(DecimalQualifiers(precision, scale).value.fields, 3, true);
  }

  lemma MapFlat(a: seq<byte>, p: Value, b: seq<byte>, s: Value)
    requires |a| <= MAX_LENGTH && |b| <= MAX_LENGTH
    requires p.Struct? && s.Struct? && Flat(p, 2, true) && Flat(s, 2, true)
    ensures Flat(Map(T_STRING, T_STRUCT, [Binary(a), p, Binary(b), s]), 3, true)
  {
    hide Encodable, Cost, Bounded;
    LeavesFlat(2, true);
    var cells := [Binary(a), p, Binary(b), s];
    PairsFlat(cells);
    var m := Map(T_STRING, T_STRUCT, cells);
    MapIsFlat(m);
  }

  lemma PairsFlat(cells: seq<Value>)
    requires |cells| == 4 && forall k | 0 <= k < 4 :: Flat(cells[k], 2, true)
    requires TypeOf(cells[0]) == TypeOf(cells[2]) == T_STRING && TypeOf(cells[1]) == TypeOf(cells[3]) == T_STRUCT
    ensures EncodableAll(cells) && BoundedAll(cells) && MaxCost(cells) <= 2
    ensures Types(cells) == Repeat([T_STRING, T_STRUCT], 2)
  {
    hide Encodable, Cost, Bounded;
    var rest := cells[1..];
    assert rest[1..] == cells[2..] && rest[1..][1..] == cells[3..];
    assert Types(cells[3..]) == [T_STRUCT] && Types(cells[2..]) == [T_STRING, T_STRUCT];
    assert Repeat([T_STRING, T_STRUCT], 1) == [T_STRING, T_STRUCT];
    assert EncodableAll(cells[3..]) && BoundedAll(cells[3..]) && MaxCost(cells[3..]) <= 2;
    assert EncodableAll(cells[2..]) && BoundedAll(cells[2..]) && MaxCost(cells[2..]) <= 2;
  }

  lemma MapIsFlat(m: Value)
    requires m.Map? && m.keyType == T_STRING && m.valueType == T_STRUCT && |m.cells| == 4
    requires EncodableAll(m.cells) && BoundedAll(m.cells) && MaxCost(m.cells) <= 2
    requires Types(m.cells) == Repeat([T_STRING, T_STRUCT], 2)
    ensures Flat(m, 3, true)
  {
    hide EncodableAll, BoundedAll, MaxCost, Types, Repeat;
  }

  lemma TypeDescriptionFlat(e: ColumnEncoder)
    ensures Flat(TypeDescription(e), 12, true)
  {
    hide Flat, DecimalQualifiers;
    var primitive := [Field(1, I32Value(e.schemaType))]
      + match e.decimal case None => [] case Some((p, s)) => [DecimalQualifiers(p, s)];
    LeavesFlat(5, true);
    if pair :| e.decimal == Some(pair) {
      DecimalFlat(pair.0, pair.1);
    }
    StructFlat(primitive, 5, true);
    StructFlat([Field(1, Struct(primitive))], 7, true);
    ListFlat(T_STRUCT, [Struct([Field(1, Struct(primitive))])], 9, true);
    StructFlat(TypeDescription(e).fields, 10, true);
  }

  lemma MetadataFlat(names: seq<seq<byte>>, encoders: seq<ColumnEncoder>, small: bool)
    requires |names| == |encoders| && |names| <= MAX_LENGTH && (small ==> |names| <= MAX_CONTAINER_ELEMENTS)
    requires forall i | 0 <= i < |names| :: |names[i]| <= MAX_LENGTH
    ensures Flat(Struct(MetadataFields(names, encoders)), 19, small)
  {
    hide Flat, TypeDescription, StatusValue;
    var descriptions := ColumnDescriptions(names, encoders);
    LeavesFlat(12, true);
    forall i | 0 <= i < |descriptions|
      ensures Flat(descriptions[i], 14, small) && TypeOf(descriptions[i]) == T_STRUCT
    {
      TypeDescriptionFlat(encoders[i]);
      StructFlat(descriptions[i].fields, 12, true);
      Slack(descriptions[i], 14, true, 14, small);
    }
    ListFlat(T_STRUCT, descriptions, 14, small);
    StructFlat([Field(1, ListValue(T_STRUCT, descriptions))], 15, small);
    StatusFlat(SUCCESS_STATUS, None, 17, small);
    LeavesFlat(17, small);
    StructFlat(MetadataFields(names, encoders), 17, small);
  }

  lemma StatusFlat(code: int, message: Option<seq<byte>>, cost: nat, small: bool)
    requires cost >= 2 && (message.Some? ==> |message.value| <= MAX_LENGTH)
    ensures Flat(StatusValue(code, message), cost, small)
  {
    hide Flat;
    LeavesFlat(0, true);
    StructFlat(StatusValue(code, message).fields, 0, true);
    Slack(StatusValue(code, message), 2, true, cost, small);
  }

  /** The reply that carries a page is encodable; and up to 16384 columns it is within the limits the reader itself
      sets. */
  lemma PageFlat(names: seq<seq<byte>>, types: seq<DataType>, rows: seq<Row>, start: int, more: bool,
                 includeMetadata: bool, small: bool)
    requires Fits(names, rows) && (small ==> |names| <= MAX_CONTAINER_ELEMENTS)
    ensures var response := FetchFields(names, types, rows, start, more, includeMetadata);
      response.Some? ==> Flat(Struct([Field(0, Struct(response.value))]), 23, small)
  {
    hide Flat, StatusValue, RowSetFields, MetadataFields, ColumnValues;
    var response := FetchFields(names, types, rows, start, more, includeMetadata);
    LeavesFlat(19, small);
    StatusFlat(SUCCESS_STATUS, None, 19, small);
    if response.Some? {
      var encoders := Encoders(types).value;
      RowSetFlat(encoders, rows, start, small);
      Slack(response.value[2].value, 8, small, 19, small);
      MetadataFlat(names, encoders, small);
      StructFlat(response.value, 19, small);
      StructFlat([Field(0, Struct(response.value))], 21, small);
    }
  }

  /** So is a refusal, and it is always within them. */
  lemma RefusalFlat(refusal: Refusal, small: bool)
    requires |refusal.text| <= MAX_LENGTH
    ensures Flat(Struct([Field(0, Struct(RefusalFields(refusal)))]), 23, small)
  {
    hide Flat, StatusValue;
    StatusFlat(refusal.code, Some(refusal.text), 19, small);
    LeavesFlat(19, small);
    StructFlat(RefusalFields(refusal), 19, small);
    StructFlat([Field(0, Struct(RefusalFields(refusal)))], 21, small);
  }
}
