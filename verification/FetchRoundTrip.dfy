/** What a client gets out of a FetchResults reply, from the bytes alone. */
module FetchRoundTrip {
  import opened Wrappers
  import opened BigEndian
  import opened Utf8
  import opened ResultPages
  import opened StatusCodes
  import opened ThriftValue
  import opened ThriftReader
  import opened ThriftMessages
  import opened ResultEncoding

  lemma {:induction false} AsciiIsUtf8(s: seq<byte>)
    requires forall i | 0 <= i < |s| :: s[i] < 0x80
    ensures ValidUtf8(s)
  {
    if s != [] {
      AsciiIsUtf8(s[1..]);
    }
  }

  /** A fetch finds an operation with a result, and asks for these rows of it, or finds none. */
  datatype Fetch =
    | Page(names: seq<seq<byte>>, types: seq<DataType>, rows: seq<Row>, start: int, more: bool, includeMetadata: bool)
    | NoPage

  /** The fields of a successful response, if there is one. */
  function ResponseTo(f: Fetch): Option<seq<Field>> {
    match f
    case Page(names, types, rows, start, more, includeMetadata) =>
      FetchFields(names, types, rows, start, more, includeMetadata)
    case NoPage => None
  }

  predicate Carried(f: Fetch, refusal: Refusal) { |refusal.text| <= MAX_LENGTH && (f.Page? ==> Fits(f.names, f.rows)) }

  function ReplyStruct(f: Fetch, refusal: Refusal): seq<Field> {
    [Field(0, Struct(ReplyFields(ResponseTo(f), refusal)))]
  }

  /** The reply is one message, and its payload is the encoding of one field list only, to its last byte. */
  lemma ReplyIsOneMessage(seqid: int32, f: Fetch, refusal: Refusal)
    requires Carried(f, refusal)
    ensures var payload := EncodeFields(ReplyStruct(f, refusal));
      && DecodeMessage(FetchReply(seqid, ResponseTo(f), refusal))
         == Some(Message(Ascii("FetchResults"), T_MESSAGE_REPLY, seqid, payload))
      && forall gs, rest | EncodableFields(gs) && payload == EncodeFields(gs) + rest ::
           gs == ReplyStruct(f, refusal) && rest == []
  {
    hide Encodable, EncodableFields, EncodeFields, ResponseTo, ReplyFields, Carried, MessageBegin, DecodeMessage,
      ValidUtf8;
    var fs := ReplyStruct(f, refusal);
    AsciiIsUtf8(Ascii("FetchResults"));
    DecodeInvertsBegin(Ascii("FetchResults"), T_MESSAGE_REPLY, seqid, EncodeFields(fs));
    ReplyFlat(f, refusal, false);
    FlatField(fs, false);
    forall gs, rest | EncodableFields(gs) && EncodeFields(fs) == EncodeFields(gs) + rest
      ensures gs == fs && rest == []
    {
      assert EncodeFields(fs) + [] == EncodeFields(fs);
      EncodeFieldsUnique(fs, [], gs, rest);
    }
  }

  /** Too wide for the service's own reader. */
  predicate Wide(f: Fetch) { ResponseTo(f).Some? && f.Page? && |f.names| > MAX_CONTAINER_ELEMENTS }

  lemma ReplyFlat(f: Fetch, refusal: Refusal, small: bool)
    requires Carried(f, refusal) && (small ==> !Wide(f))
    ensures Flat(Struct(ReplyStruct(f, refusal)), 23, small)
  {
    hide Flat, FetchFields, Fits;
    RefusalFlat(refusal, small);
    if ResponseTo(f).Some? {
      PageFlat(f.names, f.types, f.rows, f.start, f.more, f.includeMetadata, small);
    }
  }

  lemma FlatField(fs: seq<Field>, small: bool)
    requires |fs| == 1 && fs[0].value.Struct? && Flat(Struct([fs[0]]), 23, small)
    ensures EncodableFields(fs) && 2 + MaxFieldCost(fs) <= 23 && (small ==> BoundedFields(fs))
  {
    hide EncodableFields, MaxFieldCost, BoundedFields;
    assert [fs[0]] == fs;
  }

  /** The service's own reader steps over the reply exactly when it has no page of more than 16384 columns. */
  lemma ReplySkippable(f: Fetch, refusal: Refusal)
    requires Carried(f, refusal)
    ensures var payload := EncodeFields(ReplyStruct(f, refusal));
      (SkipFields(payload, 0, 0).ok && SkipFields(payload, 0, 0).pos == |payload|) <==> !Wide(f)
  {
    hide Encodable, EncodableFields, MaxFieldCost, BoundedFields, EncodeFields, ResponseTo, ReplyFields, Carried,
      SkipFieldsLoop, Wide;
    var fs := ReplyStruct(f, refusal);
    ReplyFlat(f, refusal, false);
    FlatField(fs, false);
    SkipFieldsAccepts(EncodeFields(fs), 0, fs, 0);
    if Wide(f) {
      WideReplyUnbounded(f, refusal);
    } else {
      ReplyFlat(f, refusal, true);
      FlatField(fs, true);
    }
  }

  lemma WideReplyUnbounded(f: Fetch, refusal: Refusal)
    requires Wide(f)
    ensures !BoundedFields(ReplyStruct(f, refusal))
  {
    hide ColumnValues, Encoders, StatusValue, MetadataFields;
    var encoders := Encoders(f.types).value;
    var columns := ColumnValues(encoders, f.rows, |encoders|).value;
    var rowSet := RowSetFields(f.start, columns);
    assert !BoundedField(rowSet[2]);
    MemberUnbounded(rowSet, 2);
    var fields := ResponseTo(f).value;
    assert fields[2] == Field(3, Struct(rowSet));
    MemberUnbounded(fields, 2);
    MemberUnbounded(ReplyStruct(f, refusal), 0);
  }

  lemma {:induction false} MemberUnbounded(fs: seq<Field>, i: nat)
    requires i < |fs| && !BoundedField(fs[i])
    ensures !BoundedFields(fs)
  {
    hide BoundedField;
    if i > 0 {
      MemberUnbounded(fs[1..], i - 1);
    }
  }

  /** A page without rows of an empty result with this many columns, all BOOLEAN and without a name. */
  function EmptyPage(columns: nat): Fetch {
    Page(seq(columns, _ => []), seq(columns, _ => BooleanType), [], 0, false, false)
  }

  lemma EmptyPageAnswered(columns: nat)
    ensures ResponseTo(EmptyPage(columns)).Some?
    ensures columns <= MAX_LENGTH ==> Fits(EmptyPage(columns).names, EmptyPage(columns).rows)
  {
    var f := EmptyPage(columns);
    var encoders := Encoders(f.types).value;
    hide ColumnValues;
    forall i | 0 <= i < |encoders| ensures ColumnAt(encoders, f.rows, i).Some? {
    }
  }

  /** Such replies there are: one column more than 16384 is enough for the reader to refuse it. */
  lemma WideReply(refusal: Refusal)
    requires |refusal.text| <= MAX_LENGTH
    ensures var f := EmptyPage(MAX_CONTAINER_ELEMENTS + 1);
      var payload := EncodeFields(ReplyStruct(f, refusal));
      Carried(f, refusal) && !(SkipFields(payload, 0, 0).ok && SkipFields(payload, 0, 0).pos == |payload|)
  {
    hide EncodeFields, ReplyStruct, ResponseTo, Fits, SkipFields;
    var f := EmptyPage(MAX_CONTAINER_ELEMENTS + 1);
    EmptyPageAnswered(MAX_CONTAINER_ELEMENTS + 1);
    ReplySkippable(f, refusal);
  }

  // ----- what a client reads -----

  /** The status that a response begins with, and its message. */
  function StatusRead(fields: seq<Field>): Option<(int, Option<seq<byte>>)> {
    if fields == [] || fields[0].id != 1 || !fields[0].value.Struct? then None
    else
      var status := fields[0].value.fields;
      if status == [] || status[0].id != 1 || !status[0].value.Fixed? then None
      else Some((Signed(status[0].value.raw),
                 if |status| > 1 && status[1].value.Binary? then Some(status[1].value.bytes) else None))
  }

  lemma StatusValueReads(code: int32, message: Option<seq<byte>>, rest: seq<Field>)
    ensures StatusRead([Field(1, StatusValue(code, message))] + rest) == Some((code, message))
  {
    SpanValues();
    SignedDigits(code, 4);
  }

  /** Any reading of the reply's bytes as fields tells a client whether it has a page, and if not with which code and
      message it was refused: not ready, not encodable and an unknown handle are told apart. */
  lemma StatusReadsBack(seqid: int32, f: Fetch, refusal: Refusal)
    requires Carried(f, refusal)
    ensures var message := DecodeMessage(FetchReply(seqid, ResponseTo(f), refusal));
      && message.Some?
      && forall gs: seq<Field>, rest | EncodableFields(gs) && message.value.payload == EncodeFields(gs) + rest ::
           && rest == [] && |gs| == 1 && gs[0].value.Struct?
           && StatusRead(gs[0].value.fields) == Some(
                if ResponseTo(f).Some? then (SUCCESS_STATUS, None) else (refusal.code, Some(refusal.text)))
  {
    hide EncodableFields, EncodeFields, Carried, DecodeMessage, StatusRead, StatusValue;
    ReplyIsOneMessage(seqid, f, refusal);
    var fields := ReplyFields(ResponseTo(f), refusal);
    assert fields == [fields[0]] + fields[1..];
    if ResponseTo(f).Some? {
      StatusValueReads(SUCCESS_STATUS, None, fields[1..]);
    } else {
      StatusValueReads(refusal.code, Some(refusal.text), fields[1..]);
    }
  }

  /** A client that decodes the reply to any fetch, by any reading of its bytes as fields, has the rows from the
      start offset on: each cell, null where the cell was null, and whether rows follow them. */
  lemma FetchReadsBack(seqid: int32, names: seq<seq<byte>>, types: seq<DataType>, rows: seq<Row>, offset: int64,
                       maxRows: Option<int>, includeMetadata: bool, refusal: Refusal)
    requires |rows| <= 0x7fff_ffff_ffff_ffff && |refusal.text| <= MAX_LENGTH
    requires var start, end := PageStart(|rows|, offset), PageEnd(|rows|, offset, RequestedRowLimit(maxRows));
      Fits(names, rows[start..end])
    ensures FetchedFields(rows, names, types, includeMetadata, offset, maxRows).Some? ==>
      var start, end := PageStart(|rows|, offset), PageEnd(|rows|, offset, RequestedRowLimit(maxRows));
      var response := FetchedFields(rows, names, types, includeMetadata, offset, maxRows);
      var message := DecodeMessage(FetchReply(seqid, response, refusal));
      && message.Some?
      && (forall k | start <= k < end :: |types| <= |rows[k]|)
      && forall gs: seq<Field>, rest | EncodableFields(gs) && message.value.payload == EncodeFields(gs) + rest ::
           && rest == [] && |gs| == 1 && gs[0].value.Struct?
           && DecodePage(gs[0].value.fields) == Some((start,
                seq(|types|, i requires 0 <= i < |types| => ColumnOf(rows[start..end], i)), end < |rows|))
  {
    hide EncodableFields, EncodeFields, FetchFields, Fits, DecodePage, DecodeMessage, ColumnOf;
    var start, end := PageStart(|rows|, offset), PageEnd(|rows|, offset, RequestedRowLimit(maxRows));
    var window := rows[start..end];
    if FetchedFields(rows, names, types, includeMetadata, offset, maxRows).Some? {
      ReplyIsOneMessage(seqid, Page(names, types, window, start, end < |rows|, includeMetadata), refusal);
      PageReadsBack(names, types, window, start, end < |rows|, includeMetadata);
      forall k | start <= k < end ensures |types| <= |rows[k]| {
        assert window[k - start] == rows[k];
      }
    }
  }
}
