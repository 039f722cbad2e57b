/** The writer, and the loops that write a page of rows with it. */
module ResultWriter {
  import opened Wrappers
  import opened BigEndian
  import opened NullBits
  import opened StatusCodes
  import opened ResultPages
  import opened ThriftValue
  import opened ThriftMessages
  import opened ResultEncoding

  class Writer {
    var buffer: seq<byte>

    constructor ()
      ensures buffer == []
    {
      buffer := [];
    }

    method WriteRaw(bytes: seq<byte>)
      modifies this
      ensures buffer == old(buffer) + bytes
    {
      buffer := buffer + bytes;
    }

    /** Lengths and counts arrive here through a cast that keeps their low four bytes. */
    method WriteI32(n: int)
      modifies this
      ensures buffer == old(buffer) + Digits(n, 4)
    {
      buffer := buffer + Digits(n, 4);
    }

    method WriteBinary(bytes: seq<byte>)
      modifies this
      ensures buffer == old(buffer) + Encode(Binary(bytes))
    {
      WriteI32(|bytes|);
      buffer := buffer + bytes;
    }

    method WriteFieldBegin(t: byte, id: int16)
      modifies this
      ensures buffer == old(buffer) + FieldHeader(t, id)
    {
      buffer := buffer + [t];
      buffer := buffer + Digits(id, 2);
    }

    method WriteListBegin(t: byte, len: nat)
      modifies this
      ensures buffer == old(buffer) + ([t] + Digits(len, 4))
    {
      buffer := buffer + [t];
      WriteI32(len);
    }

    method WriteStop()
      modifies this
      ensures buffer == old(buffer) + [T_STOP]
    {
      buffer := buffer + [T_STOP];
    }

    /** A field of a shape fixed in advance, written in one piece. */
    method WriteField(f: Field)
      modifies this
      ensures buffer == old(buffer) + EncodeField(f)
    {
      hide Encode;
      WriteFieldBegin(TypeOf(f.value), f.id);
      WriteRaw(Encode(f.value));
    }

    method WriteMessageBegin(name: seq<byte>, messageType: byte, seqid: int32)
      modifies this
      ensures buffer == old(buffer) + MessageBegin(name, messageType, seqid)
    {
      hide Digits;
      WriteI32(T_BINARY_VERSION_1 + messageType);
      WriteBinary(name);
      WriteI32(seqid);
    }
  }

  // ----- how written pieces add up -----

  lemma {:induction false} EncodeAllAppend(vs: seq<Value>, v: Value)
    ensures EncodeAll(vs + [v]) == EncodeAll(vs) + Encode(v)
    decreases vs
  {
    hide Encode;
    if vs == [] {
      assert vs + [v] == [v] && [v][1..] == [];
    } else {
      assert (vs + [v])[1..] == vs[1..] + [v];
      EncodeAllAppend(vs[1..], v);
    }
  }

  lemma Regroup<T>(a: seq<T>, b: seq<T>, c: seq<T>)
    ensures a + (b + c) == a + b + c
  {
  }

  /** A list is its header and its elements; a list field, its own header and those. */
  lemma ListFieldPieces(id: int16, t: byte, vs: seq<Value>)
    ensures EncodeField(Field(id, ListValue(t, vs)))
      == FieldHeader(T_LIST, id) + ([t] + Digits(|vs|, 4)) + EncodeAll(vs)
  {
    var count := [t] + Digits(|vs|, 4);
    assert Encode(ListValue(t, vs)) == count + EncodeAll(vs);
    hide Digits, EncodeAll, Encode, FieldHeader;
    Regroup(FieldHeader(T_LIST, id), count, EncodeAll(vs));
  }

  lemma StructFieldPieces(id: int16, fs: seq<Field>)
    ensures EncodeField(Field(id, Struct(fs))) == FieldHeader(T_STRUCT, id) + EncodeFields(fs)
  {
  }

  lemma OneFieldPieces(f: Field)
    ensures EncodeFields([f]) == EncodeField(f) + [T_STOP]
  {
    hide EncodeField;
    assert [f][1..] == [];
  }

  // ----- one column -----

  /** The array has exactly these flags set, from the first bit on. */
  ghost predicate Marks(bits: array<byte>, flags: seq<bool>)
    reads bits
  {
    forall k: nat | k < 8 * bits.Length :: Bit(bits[k / 8], k % 8) <==> k < |flags| && flags[k]
  }

  /** `nulls[row >> 3] |= 1 << (row & 7)` */
  method MarkRow(bits: array<byte>, row: nat)
    requires row < 8 * bits.Length
    modifies bits
    ensures forall k: nat | k < 8 * bits.Length ::
      Bit(bits[k / 8], k % 8) <==> k == row || old(Bit(bits[k / 8], k % 8))
  {
    hide Bit, SetBit;
    EightBits();
    SetBitBound(bits[row / 8], row % 8, 8);
    forall j: nat ensures Bit(SetBit(bits[row / 8], row % 8), j) <==> row % 8 == j || Bit(bits[row / 8], j) {
      SetBitSets(bits[row / 8], row % 8, j);
    }
    bits[row / 8] := SetBit(bits[row / 8], row % 8);
  }

  method MarkBatch(bits: array<byte>, batch: seq<Row>, i: nat, start: nat, ghost flags: seq<bool>)
    returns (pageRow: nat)
    requires start == |flags| && start + |batch| <= 8 * bits.Length && Marks(bits, flags)
    modifies bits
    ensures pageRow == start + |NullFlags(batch, i)| && Marks(bits, flags + NullFlags(batch, i))
  {
    hide Bit;
    pageRow := start;
    assert flags + NullFlags(batch[..0], i) == flags;
    for r := 0 to |batch|
      invariant pageRow == start + |NullFlags(batch[..r], i)| <= start + r
      invariant Marks(bits, flags + NullFlags(batch[..r], i))
    {
      assert batch[..r + 1][..r] == batch[..r];
      if i < |batch[r]| {
        if batch[r][i] == Null {
          MarkRow(bits, pageRow);
        }
        pageRow := pageRow + 1;
      }
    }
    assert batch[..|batch|] == batch;
  }

  lemma NullFlagsLast(rows: seq<Row>, last: Row, i: nat)
    ensures NullFlags(rows + [last], i) == NullFlags(rows, i) + if i < |last| then [last[i].Null?] else []
  {
    assert (rows + [last])[..|rows|] == rows;
  }

  lemma {:induction false} NullFlagsConcat(a: seq<Row>, b: seq<Row>, i: nat)
    ensures NullFlags(a + b, i) == NullFlags(a, i) + NullFlags(b, i)
    decreases |b|
  {
    if b == [] {
      assert a + b == a;
    } else {
      hide NullFlags;
      var front, last := b[..|b| - 1], b[|b| - 1];
      assert a + b == (a + front) + [last] && b == front + [last];
      NullFlagsConcat(a, front, i);
      NullFlagsLast(a + front, last, i);
      NullFlagsLast(front, last, i);
      Regroup(NullFlags(a, i), NullFlags(front, i), if i < |last| then [last[i].Null?] else []);
    }
  }

  lemma NoMarks(bits: array<byte>)
    requires forall j | 0 <= j < bits.Length :: bits[j] == 0
    ensures Marks(bits, [])
  {
    hide Bit;
    forall k: nat | k < 8 * bits.Length ensures !Bit(bits[k / 8], k % 8) {
      ZeroHasNoBits(k % 8);
    }
  }

  /** No other bytes have these flags set, and no more. */
  lemma MarkedArePacked(bits: array<byte>, flags: seq<bool>, n: nat)
    requires |flags| <= n && bits.Length == Bytes(n) && Marks(bits, flags)
    ensures bits[..] == Pack(Padded(flags, n))
  {
    hide Bit, Pack;
    var padded := Padded(flags, n);
    assert forall k | 0 <= k < |flags| :: padded[k] == padded[..|flags|][k];
    PackHolds(padded);
    HoldsUnique(bits[..], Pack(padded), padded);
  }

  lemma FlagsFromNext(batches: seq<seq<Row>>, b: nat, i: nat, flags: seq<bool>)
    requires b < |batches|
    ensures |RowsFrom(batches, b)| == |batches[b]| + |RowsFrom(batches, b + 1)|
    ensures flags + NullFlags(RowsFrom(batches, b), i)
      == flags + NullFlags(batches[b], i) + NullFlags(RowsFrom(batches, b + 1), i)
  {
    hide RowsFrom, NullFlags;
    RowsFromNext(batches, b);
    NullFlagsConcat(batches[b], RowsFrom(batches, b + 1), i);
  }

  method NullBitset(batches: seq<seq<Row>>, i: nat, rowCount: nat) returns (nulls: seq<byte>)
    requires rowCount == |Flatten(batches)|
    ensures nulls == NullBytes(Flatten(batches), i)
  {
    var bits := new byte[Bytes(rowCount)](_ => 0);
    ghost var rows, flags := Flatten(batches), [];
    NoMarks(bits);
    RowsFromEnds(batches);
    assert rowCount <= 8 * bits.Length && NullFlags([], i) == [];
    hide Bit, Bytes, Flatten, Pack, Padded, NullFlags, Marks, RowsFrom;
    var pageRow := 0;
    for b := 0 to |batches|
      invariant pageRow == |flags| && pageRow + |RowsFrom(batches, b)| <= rowCount
      invariant NullFlags(rows, i) == flags + NullFlags(RowsFrom(batches, b), i)
      invariant Marks(bits, flags)
    {
      FlagsFromNext(batches, b, i, flags);
      pageRow := MarkBatch(bits, batches[b], i, pageRow, flags);
      flags := flags + NullFlags(batches[b], i);
    }
    nulls := bits[..];
    assert flags + [] == flags;
    MarkedArePacked(bits, flags, |rows|);
  }

  method WriteElement(writer: Writer, p: Physical, c: Cell) returns (ok: bool)
    modifies writer
    ensures ok <==> WireValue(p, c).Some?
    ensures writer.buffer == old(writer.buffer) + if ok then Encode(WireValue(p, c).value) else []
  {
    hide Digits, WireValue;
    match WireValue(p, c) {
      case None =>
        ok := false;
      case Some(v) =>
        if v.Binary? {
          writer.WriteBinary(v.bytes);
        } else {
          writer.WriteRaw(Encode(v));
        }
        ok := true;
    }
  }

  /** The elements of the rows before row n, after whatever came before them. */
  ghost predicate Wrote(buffer: seq<byte>, before: seq<byte>, p: Physical, rows: seq<Row>, i: nat, n: nat) {
    && n <= |rows|
    && WireValues(p, rows[..n], i).Some?
    && buffer == before + EncodeAll(WireValues(p, rows[..n], i).value)
  }

  lemma WroteOne(buffer: seq<byte>, before: seq<byte>, p: Physical, rows: seq<Row>, i: nat, n: nat)
    requires n < |rows| && Wrote(buffer, before, p, rows, i, n)
    requires i < |rows[n]| && WireValue(p, rows[n][i]).Some?
    ensures Wrote(buffer + Encode(WireValue(p, rows[n][i]).value), before, p, rows, i, n + 1)
  {
    hide Encode, EncodeAll, WireValue;
    assert rows[..n + 1][..n] == rows[..n];
    EncodeAllAppend(WireValues(p, rows[..n], i).value, WireValue(p, rows[n][i]).value);
  }

  /** Writes a batch's elements, stopping at the first row whose cell is missing or cannot be carried. */
  method WriteBatch(writer: Writer, p: Physical, batch: seq<Row>, i: nat,
                    ghost before: seq<byte>, ghost rows: seq<Row>, ghost n: nat) returns (ok: bool)
    requires n + |batch| <= |rows| && rows[n..n + |batch|] == batch
    requires Wrote(writer.buffer, before, p, rows, i, n)
    modifies writer
    ensures ok ==> Wrote(writer.buffer, before, p, rows, i, n + |batch|)
    ensures !ok ==> WireValues(p, rows, i).None?
  {
    hide Wrote, Encode, WireValue;
    for r := 0 to |batch|
      invariant Wrote(writer.buffer, before, p, rows, i, n + r)
    {
      assert rows[n..n + |batch|][r] == rows[n + r];
      if |batch[r]| <= i {
        return false;
      }
      ghost var written := writer.buffer;
      var one := WriteElement(writer, p, batch[r][i]);
      if !one {
        return false;
      }
      WroteOne(written, before, p, rows, i, n + r);
    }
    ok := true;
  }

  method WriteElements(writer: Writer, p: Physical, batches: seq<seq<Row>>, i: nat) returns (ok: bool)
    modifies writer
    ensures ok <==> WireValues(p, Flatten(batches), i).Some?
    ensures ok ==> writer.buffer == old(writer.buffer) + EncodeAll(WireValues(p, Flatten(batches), i).value)
  {
    hide Flatten, RowsFrom, WireValue, Encode, Wrote;
    ghost var rows, before, n: nat := Flatten(batches), writer.buffer, 0;
    RowsFromEnds(batches);
    assert rows[0..] == rows;
    assert Wrote(before, before, p, rows, i, 0) by { NothingWritten(before, p, rows, i); }
    for b := 0 to |batches|
      invariant n <= |rows| && rows[n..] == RowsFrom(batches, b)
      invariant Wrote(writer.buffer, before, p, rows, i, n)
    {
      RowsFromNext(batches, b);
      var batch := batches[b];
      assert rows[n..][..|batch|] == batch && rows[n..][..|batch|] == rows[n..n + |batch|];
      assert rows[n..][|batch|..] == rows[n + |batch|..];
      var wrote := WriteBatch(writer, p, batch, i, before, rows, n);
      if !wrote {
        return false;
      }
      n := n + |batch|;
    }
    AllWritten(writer.buffer, before, p, rows, i, n);
    ok := true;
  }

  lemma NothingWritten(buffer: seq<byte>, p: Physical, rows: seq<Row>, i: nat)
    ensures Wrote(buffer, buffer, p, rows, i, 0)
  {
    assert rows[..0] == [];
  }

  lemma AllWritten(buffer: seq<byte>, before: seq<byte>, p: Physical, rows: seq<Row>, i: nat, n: nat)
    requires Wrote(buffer, before, p, rows, i, n) && rows[n..] == []
    ensures WireValues(p, rows, i).Some? && buffer == before + EncodeAll(WireValues(p, rows, i).value)
  {
    assert rows[..n] == rows;
  }

  method WriteColumnValues(writer: Writer, p: Physical, batches: seq<seq<Row>>, i: nat, rowCount: nat)
    returns (ok: bool)
    requires rowCount == |Flatten(batches)|
    modifies writer
    ensures ok <==> WireValues(p, Flatten(batches), i).Some?
    ensures ok ==>
      var values, nulls := WireValues(p, Flatten(batches), i).value, NullBytes(Flatten(batches), i);
      writer.buffer == old(writer.buffer) + EncodeFields(ColumnFields(p, values, nulls))
  {
    hide Flatten, Digits, Encode, EncodeAll, EncodeFields, EncodeField, WireValues, NullBytes;
    var nulls := NullBitset(batches, i, rowCount);
    writer.WriteFieldBegin(T_LIST, 1);
    writer.WriteListBegin(ElementType(p), rowCount);
    ok := WriteElements(writer, p, batches, i);
    if !ok {
      return;
    }
    writer.WriteField(Field(2, Binary(nulls)));
    writer.WriteStop();
    ghost var vs := WireValues(p, Flatten(batches), i).value;
    ListFieldPieces(1, ElementType(p), vs);
    TwoFieldPieces(Field(1, ListValue(ElementType(p), vs)), Field(2, Binary(nulls)));
  }

  lemma TwoFieldPieces(f: Field, g: Field)
    ensures EncodeFields([f, g]) == EncodeField(f) + EncodeField(g) + [T_STOP]
  {
    hide EncodeField;
    OneFieldPieces(g);
    assert [f, g][1..] == [g];
  }

  /** A column is a struct with the one field its physical type chooses. */
  method WriteColumn(writer: Writer, encoder: ColumnEncoder, i: nat, batches: seq<seq<Row>>, rowCount: nat)
    returns (ok: bool)
    requires rowCount == |Flatten(batches)|
    modifies writer
    ensures ok <==> ColumnValue(encoder.physical, Flatten(batches), i).Some?
    ensures ok ==>
      writer.buffer == old(writer.buffer) + Encode(ColumnValue(encoder.physical, Flatten(batches), i).value)
  {
    hide Flatten, Digits, EncodeFields, EncodeField, WireValues, NullBytes;
    var p := encoder.physical;
    writer.WriteFieldBegin(T_STRUCT, ColumnField(p));
    ok := WriteColumnValues(writer, p, batches, i, rowCount);
    if !ok {
      return;
    }
    writer.WriteStop();
    ghost var inner := ColumnFields(p, WireValues(p, Flatten(batches), i).value, NullBytes(Flatten(batches), i));
    StructFieldPieces(ColumnField(p), inner);
    OneFieldPieces(Field(ColumnField(p), Struct(inner)));
  }

  lemma OneColumn(encoders: seq<ColumnEncoder>, rows: seq<Row>, i: nat)
    requires i < |encoders|
    ensures ColumnAt(encoders, rows, i) == ColumnValue(encoders[i].physical, rows, i)
  {
  }

  lemma NextColumn(encoders: seq<ColumnEncoder>, rows: seq<Row>, i: nat, before: seq<byte>)
    requires i < |encoders| && ColumnValues(encoders, rows, i).Some? && ColumnAt(encoders, rows, i).Some?
    ensures ColumnValues(encoders, rows, i + 1).Some?
    ensures before + EncodeAll(ColumnValues(encoders, rows, i + 1).value)
      == before + EncodeAll(ColumnValues(encoders, rows, i).value) + Encode(ColumnAt(encoders, rows, i).value)
  {
    hide ColumnAt, Encode, EncodeAll;
    EncodeAllAppend(ColumnValues(encoders, rows, i).value, ColumnAt(encoders, rows, i).value);
  }

  method WriteColumns(writer: Writer, encoders: seq<ColumnEncoder>, batches: seq<seq<Row>>, rowCount: nat)
    returns (ok: bool)
    requires rowCount == |Flatten(batches)|
    modifies writer
    ensures ok <==> ColumnValues(encoders, Flatten(batches), |encoders|).Some?
    ensures ok ==>
      writer.buffer == old(writer.buffer) + EncodeAll(ColumnValues(encoders, Flatten(batches), |encoders|).value)
  {
    ghost var rows, before := Flatten(batches), writer.buffer;
    assert ColumnValues(encoders, rows, 0) == Some([]) && EncodeAll([]) == [];
    hide Flatten, Encode, EncodeAll, ColumnValue, ColumnValues, ColumnAt;
    for i := 0 to |encoders|
      invariant ColumnValues(encoders, rows, i).Some?
      invariant writer.buffer == before + EncodeAll(ColumnValues(encoders, rows, i).value)
    {
      OneColumn(encoders, rows, i);
      ok := WriteColumn(writer, encoders[i], i, batches, rowCount);
      if !ok {
        MissingColumn(encoders, rows, i);
        return;
      }
      NextColumn(encoders, rows, i, before);
    }
    ok := true;
  }

  lemma MissingColumn(encoders: seq<ColumnEncoder>, rows: seq<Row>, i: nat)
    requires i < |encoders| && ColumnAt(encoders, rows, i).None?
    ensures ColumnValues(encoders, rows, |encoders|).None?
  {
    hide ColumnAt;
  }

  method WriteRowSet(writer: Writer, encoders: seq<ColumnEncoder>, page: QueryResultPage<Row>) returns (ok: bool)
    requires page.rowCount == |Flatten(page.batches)|
    modifies writer
    ensures ok <==> ColumnValues(encoders, Flatten(page.batches), |encoders|).Some?
    ensures ok ==>
      var columns := ColumnValues(encoders, Flatten(page.batches), |encoders|).value;
      writer.buffer == old(writer.buffer) + EncodeFields(RowSetFields(page.startRowOffset, columns))
  {
    hide Flatten, Digits, Encode, EncodeAll, EncodeFields, EncodeField, ColumnValues, I32Value, I64Value;
    var offset, noRows := Field(1, I64Value(page.startRowOffset)), Field(2, ListValue(T_STRUCT, []));
    writer.WriteField(offset);
    writer.WriteField(noRows);
    writer.WriteFieldBegin(T_LIST, 3);
    writer.WriteListBegin(T_STRUCT, |encoders|);
    ok := WriteColumns(writer, encoders, page.batches, page.rowCount);
    if !ok {
      return;
    }
    var count := Field(5, I32Value(|encoders|));
    writer.WriteField(count);
    writer.WriteStop();
    ghost var columns := ColumnValues(encoders, Flatten(page.batches), |encoders|).value;
    ListFieldPieces(3, T_STRUCT, columns);
    FourFieldPieces(offset, noRows, Field(3, ListValue(T_STRUCT, columns)), count);
  }

  lemma FourFieldPieces(a: Field, b: Field, c: Field, d: Field)
    ensures EncodeFields([a, b, c, d])
      == EncodeField(a) + EncodeField(b) + EncodeField(c) + EncodeField(d) + [T_STOP]
  {
    hide EncodeField;
    TwoFieldPieces(c, d);
    assert [a, b, c, d][1..] == [b, c, d] && [b, c, d][1..] == [c, d];
  }

  function ColumnEncoders(names: seq<seq<byte>>, types: seq<DataType>): (r: Option<seq<ColumnEncoder>>)
    ensures r.Some? ==> |r.value| == |names|
  {
    if |names| != |types| then None else Encoders(types)
  }

  /** The row set goes to a writer of its own first, so that an error leaves this one as it was. */
  method WriteFetchResultsStruct(writer: Writer, store: InlineResultStore<Row>, names: seq<seq<byte>>,
      types: seq<DataType>, includeMetadata: bool, startRowOffset: int64, maxRows: Option<int>) returns (ok: bool)
    requires store.Valid()
    modifies writer
    ensures
      var response := FetchedFields(Flatten(store.batches), names, types, includeMetadata, startRowOffset, maxRows);
      && (ok <==> response.Some?)
      && writer.buffer == old(writer.buffer) + if ok then EncodeFields(response.value) else []
  {
    hide Flatten, Digits, EncodeFields, EncodeField, ColumnValues, StatusValue, MetadataFields, RowSetFields,
      PageStart, PageEnd;
    var page := store.Page(startRowOffset, RequestedRowLimit(maxRows));
    assert page.rowCount == |Flatten(page.batches)| by { PageCounts(page, store, startRowOffset, maxRows); }
    var encoders := ColumnEncoders(names, types);
    if encoders.None? {
      return false;
    }
    var rowWriter := new Writer();
    ok := WriteRowSet(rowWriter, encoders.value, page);
    if !ok {
      return;
    }
    ghost var columns := ColumnValues(encoders.value, Flatten(page.batches), |encoders.value|).value;
    WriteResponse(writer, rowWriter.buffer, RowSetFields(page.startRowOffset, columns), page.hasMoreRows,
      if includeMetadata then Some(Field(1281, Struct(MetadataFields(names, encoders.value)))) else None);
  }

  method WriteResponse(writer: Writer, rowBytes: seq<byte>, ghost rowSet: seq<Field>, hasMoreRows: bool,
                       metadata: Option<Field>)
    requires rowBytes == EncodeFields(rowSet)
    modifies writer
    ensures writer.buffer == old(writer.buffer) + EncodeFields(
      [Field(1, StatusValue(SUCCESS_STATUS, None)), Field(2, BoolValue(hasMoreRows)), Field(3, Struct(rowSet))]
      + match metadata case Some(field) => [field] case None => [])
  {
    hide Digits, EncodeFields, EncodeField, StatusValue;
    var status, more := Field(1, StatusValue(SUCCESS_STATUS, None)), Field(2, BoolValue(hasMoreRows));
    writer.WriteField(status);
    writer.WriteField(more);
    writer.WriteFieldBegin(T_STRUCT, 3);
    writer.WriteRaw(rowBytes);
    ghost var rowField := Field(3, Struct(rowSet));
    StructFieldPieces(3, rowSet);
    if metadata.Some? {
      writer.WriteField(metadata.value);
      FourFieldPieces(status, more, rowField, metadata.value);
      assert [status, more, rowField] + [metadata.value] == [status, more, rowField, metadata.value];
    } else {
      ThreeFieldPieces(status, more, rowField);
      assert [status, more, rowField] + [] == [status, more, rowField];
    }
    writer.WriteStop();
  }

  lemma ThreeFieldPieces(a: Field, b: Field, c: Field)
    ensures EncodeFields([a, b, c]) == EncodeField(a) + EncodeField(b) + EncodeField(c) + [T_STOP]
  {
    hide EncodeField;
    TwoFieldPieces(b, c);
    assert [a, b, c][1..] == [b, c];
  }

  lemma PageCounts(page: QueryResultPage<Row>, store: InlineResultStore<Row>, offset: int, maxRows: Option<int>)
    requires IsPage(page, Flatten(store.batches), offset, RequestedRowLimit(maxRows))
    ensures page.rowCount == |Flatten(page.batches)|
  {
  }

  method WriteRefusal(writer: Writer, refusal: Refusal)
    modifies writer
    ensures writer.buffer == old(writer.buffer) + EncodeFields(RefusalFields(refusal))
  {
    hide EncodeFields, EncodeField, StatusValue;
    var status, more := Field(1, StatusValue(refusal.code, Some(refusal.text))), Field(2, BoolValue(false));
    writer.WriteField(status);
    writer.WriteField(more);
    writer.WriteStop();
    TwoFieldPieces(status, more);
  }

  /** The whole reply: on an encoding error the same message carries an error status instead. */
  method WriteFetchResultsResponse(seqid: int32, store: InlineResultStore<Row>, names: seq<seq<byte>>,
      types: seq<DataType>, includeMetadata: bool, startRowOffset: int64, maxRows: Option<int>, errorText: seq<byte>)
    returns (reply: seq<byte>)
    requires store.Valid()
    ensures reply == FetchReply(seqid, FetchedFields(Flatten(store.batches), names, types, includeMetadata,
                                                     startRowOffset, maxRows), Refusal(ERROR_STATUS, errorText))
  {
    hide Flatten, EncodeFields, EncodeField, FetchedFields, MessageBegin, RefusalFields;
    var writer := new Writer();
    writer.WriteMessageBegin(Ascii("FetchResults"), T_MESSAGE_REPLY, seqid);
    writer.WriteFieldBegin(T_STRUCT, 0);
    var ok := WriteFetchResultsStruct(writer, store, names, types, includeMetadata, startRowOffset, maxRows);
    ghost var response := FetchedFields(Flatten(store.batches), names, types, includeMetadata, startRowOffset, maxRows);
    var refusal := Refusal(ERROR_STATUS, errorText);
    if !ok {
      WriteRefusal(writer, refusal);
    }
    writer.WriteStop();
    StructFieldPieces(0, ReplyFields(response, refusal));
    OneFieldPieces(Field(0, Struct(ReplyFields(response, refusal))));
    reply := writer.buffer;
  }

  /** The reply when there are no results to fetch. */
  method WriteRefusedReply(seqid: int32, refusal: Refusal) returns (reply: seq<byte>)
    ensures reply == FetchReply(seqid, None, refusal)
  {
    hide EncodeFields, EncodeField, MessageBegin, RefusalFields;
    var writer := new Writer();
    writer.WriteMessageBegin(Ascii("FetchResults"), T_MESSAGE_REPLY, seqid);
    writer.WriteFieldBegin(T_STRUCT, 0);
    WriteRefusal(writer, refusal);
    writer.WriteStop();
    StructFieldPieces(0, RefusalFields(refusal));
    OneFieldPieces(Field(0, Struct(RefusalFields(refusal))));
    reply := writer.buffer;
  }

  method WriteFetchResultsInvalid(seqid: int32) returns (reply: seq<byte>)
    ensures reply == FetchReply(seqid, None, UNKNOWN_HANDLE)
  {
    reply := WriteRefusedReply(seqid, UNKNOWN_HANDLE);
  }

  method WriteFetchResultsNotReady(seqid: int32, message: Option<seq<byte>>) returns (reply: seq<byte>)
    ensures reply == FetchReply(seqid, None, NotReady(message))
  {
    reply := WriteRefusedReply(seqid, NotReady(message));
  }
}
