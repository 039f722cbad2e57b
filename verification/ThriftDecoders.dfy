/** The request decoders, as loops that run over the reader. Every decoder is one loop: its match arms are
    the schema, and its local variables are the record the loop fills. */
module ThriftDecoders {
  import opened Wrappers
  import opened BigEndian
  import opened Utf8
  import opened ThriftValue
  import opened ThriftReader
  import opened ThriftRequests
  import opened ThriftMessages

  lemma StructWanted(buf: seq<byte>, pos: nat, schema: Schema)
    requires pos <= |buf|
    ensures ReadWanted(buf, pos, WantStruct(schema)) == match ReadRecord(buf, pos, schema, map[])
      case None => None
      case Some((record, end)) => Some((TakenRecord(record), end))
  {
    hide ReadRecord;
  }

  /** One turn of the loop: a field is kept, or stepped over, or the decoder gives up. */
  lemma OneTurn(buf: seq<byte>, pos: nat, schema: Schema, acc: Record)
    requires pos + 3 <= |buf| && ScanFieldBegin(buf, pos) == Scan(true, pos + 3, 0) && buf[pos] != T_STOP
    ensures -0x8000 <= Signed(buf[pos + 1..pos + 3]) < 0x8000
    ensures var t, id := buf[pos], Signed(buf[pos + 1..pos + 3]);
      ReadRecord(buf, pos, schema, acc) == match Find(schema, id, t)
        case None => (
          var r := SkipValue(buf, pos + 3, t, 0);
          if r.ok then ReadRecord(buf, r.pos, schema, acc) else None)
        case Some(w) =>
          match ReadWanted(buf, pos + 3, w)
          case None => None
          case Some((taken, end)) => ReadRecord(buf, end, schema, acc[id := taken])
  {
    hide ReadWanted, Find, SkipValue;
    SpanValues();
  }

  /** How a loop ends: no header, or the STOP byte. */
  lemma LoopEnds(buf: seq<byte>, pos: nat, schema: Schema, acc: Record)
    requires pos <= |buf|
    ensures !ScanFieldBegin(buf, pos).ok ==> ReadRecord(buf, pos, schema, acc) == None
    ensures pos < |buf| && buf[pos] == T_STOP ==> ReadRecord(buf, pos, schema, acc) == Some((acc, pos + 1))
  {
    hide ReadField;
  }

  function Prepend(values: seq<int>, r: Option<(seq<int>, nat)>): Option<(seq<int>, nat)> {
    match r case None => None case Some((rest, end)) => Some((values + rest, end))
  }

  lemma PrependMore(values: seq<int>, n: int, r: Option<(seq<int>, nat)>)
    ensures Prepend(values + [n], r) == Prepend(values, Prepend([n], r))
    ensures Prepend([], r) == r
  {
    if pair :| r == Some(pair) {
      assert values + [n] + pair.0 == values + ([n] + pair.0);
      assert [] + pair.0 == pair.0;
    }
  }

  method ReadI32Values(reader: Reader, len: nat) returns (r: Option<seq<int>>)
    requires reader.Valid()
    modifies reader`position
    ensures reader.Valid()
    ensures match ReadInts(reader.buffer, old(reader.position), len)
      case None => r == None
      case Some((ns, end)) => r == Some(ns) && reader.position == end
  {
    hide Signed;
    ghost var start := reader.position;
    var values: seq<int> := [];
    PrependMore([], 0, ReadInts(reader.buffer, start, len));
    for i := 0 to len
      invariant reader.Valid()
      invariant ReadInts(reader.buffer, start, len)
        == Prepend(values, ReadInts(reader.buffer, reader.position, len - i))
    {
      ghost var pos := reader.position;
      var value := reader.ReadI32();
      if value == None {
        return None;
      }
      PrependMore(values, value.value, ReadInts(reader.buffer, reader.position, len - i - 1));
      assert ReadInts(reader.buffer, pos, len - i)
        == Prepend([value.value], ReadInts(reader.buffer, reader.position, len - i - 1));
      values := values + [value.value];
    }
    r := Some(values);
    assert values + [] == values;
  }

  /** The value of a wanted field. */
  method ReadValue(reader: Reader, w: Want) returns (r: Option<Taken>)
    requires reader.Valid()
    modifies reader
    ensures reader.Valid()
    ensures match ReadWanted(reader.buffer, old(reader.position), w)
      case None => r == None
      case Some((taken, end)) => r == Some(taken) && reader.position == end
    decreases |reader.buffer| - reader.position, 2
  {
    hide ReadRecord, ReadI32List, Signed, ValidUtf8;
    match w {
      case WantBinary =>
        var bytes := reader.ReadBinary();
        r := if bytes.Some? then Some(TakenBytes(bytes.value)) else None;
      case WantString =>
        var bytes := reader.ReadBinary();
        r := if bytes.Some? && ValidUtf8(bytes.value) then Some(TakenBytes(bytes.value)) else None;
      case WantI32 =>
        var n := reader.ReadI32();
        r := if n.Some? then Some(TakenInt(n.value)) else None;
      case WantI64 =>
        var n := reader.ReadI64();
        r := if n.Some? then Some(TakenInt(n.value)) else None;
      case WantI32List =>
        r := ReadList(reader);
      case WantStruct(schema) =>
        StructWanted(reader.buffer, reader.position, schema);
        var record := ReadFields(reader, schema);
        r := if record.Some? then Some(TakenRecord(record.value)) else None;
    }
  }

  method ReadList(reader: Reader) returns (r: Option<Taken>)
    requires reader.Valid()
    modifies reader
    ensures reader.Valid()
    ensures match ReadI32List(reader.buffer, old(reader.position))
      case None => r == None
      case Some((taken, end)) => r == Some(taken) && reader.position == end
  {
    hide Signed, SkipAll, ReadInts;
    var elementType := reader.ReadU8();
    if elementType == None {
      return None;
    }
    var len := reader.ReadI32();
    if len == None || len.value < 0 {
      return None;
    }
    if elementType.value != T_I32 {
      var skipped := reader.SkipPattern([elementType.value], len.value, 0);
      return if skipped then Some(TakenInts([])) else None;
    }
    var values := ReadI32Values(reader, len.value);
    r := if values.Some? then Some(TakenInts(values.value)) else None;
  }

  /** The field loop every request, handle and namespace decoder runs. */
  method ReadFields(reader: Reader, schema: Schema) returns (r: Option<Record>)
    requires reader.Valid()
    modifies reader
    ensures reader.Valid()
    ensures match ReadRecord(reader.buffer, old(reader.position), schema, map[])
      case None => r == None
      case Some((record, end)) => r == Some(record) && reader.position == end
    decreases |reader.buffer| - reader.position, 1
  {
    hide ReadRecord, ReadWanted, SkipValue, ScanFieldBegin, Signed, Find;
    var record: Record := map[];
    while true
      invariant reader.Valid() && old(reader.position) <= reader.position
      invariant ReadRecord(reader.buffer, old(reader.position), schema, map[])
        == ReadRecord(reader.buffer, reader.position, schema, record)
      decreases |reader.buffer| - reader.position
    {
      ghost var pos := reader.position;
      LoopEnds(reader.buffer, pos, schema, record);
      var header := reader.ReadFieldBegin();
      if header == None {
        return None;
      }
      var (t, id) := header.value;
      if t == T_STOP {
        return Some(record);
      }
      OneTurn(reader.buffer, pos, schema, record);
      var wanted := Find(schema, id, t);
      if wanted == None {
        var skipped := reader.Skip(t);
        if !skipped {
          return None;
        }
      } else {
        var taken := ReadValue(reader, wanted.value);
        if taken == None {
          return None;
        }
        record := record[id := taken.value];
      }
    }
  }

  /** The request carried by a message's payload. */
  method ReadArguments(payload: seq<byte>, m: Method) returns (r: Option<Request>)
    ensures r == ReadArgs(payload, 0, m)
  {
    hide ReadRecord, SkipValue, ScanFieldBegin, RequestSchema, RequestOf, Signed, SkipFields;
    var reader := new Reader(payload);
    while true
      invariant reader.Valid() && reader.buffer == payload
      invariant ReadArgs(payload, 0, m) == ReadArgs(payload, reader.position, m)
      decreases |payload| - reader.position
    {
      var header := reader.ReadFieldBegin();
      if header == None {
        return None;
      }
      var (t, id) := header.value;
      if t == T_STOP {
        break;
      }
      if id == 1 && t == T_STRUCT {
        var record := ReadFields(reader, RequestSchema(m));
        if record == None {
          return None;
        }
        r := RequestOf(m, record.value);
        if r == None {
          return None;
        }
        var rest := reader.SkipRemainingStructFields();
        return if rest then r else None;
      }
      var skipped := reader.Skip(t);
      if !skipped {
        return None;
      }
    }
    r := None;
  }

  method DecodeBody(body: seq<byte>) returns (r: Option<Message>)
    ensures r == DecodeMessage(body)
  {
    hide Digits, ValidUtf8;
    var reader := new Reader(body);
    var version := reader.ReadI32();
    if version == None {
      return None;
    }
    SpanValues();
    var unsigned: int := if version.value < 0 then version.value as int + 0x1_0000_0000 else version.value;
    if unsigned / 0x1_0000 != T_BINARY_VERSION_1 / 0x1_0000 {
      return None;
    }
    var name := reader.ReadBinary();
    if name == None || !ValidUtf8(name.value) {
      return None;
    }
    var seqid := reader.ReadI32();
    if seqid == None {
      return None;
    }
    r := Some(Message(name.value, unsigned % 0x100, seqid.value, body[reader.position..]));
  }
}
