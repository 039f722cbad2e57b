/** Messages: the strict header, the argument struct, and the request each method decodes from it. */
module ThriftMessages {
  import opened Wrappers
  import opened BigEndian
  import opened Utf8
  import opened ThriftValue
  import opened ThriftReader
  import opened ThriftRequests

  /** A handle's identifier and secret; both are sixteen bytes on the wire. */
  datatype Handle = Handle(id: seq<byte>, secret: seq<byte>)

  datatype Request =
    | OpenSession(catalog: Option<seq<byte>>, schema: Option<seq<byte>>, infoTypes: seq<int>)
    | CloseSession(session: Option<Handle>)
    | GetInfo(session: Option<Handle>, infoType: int)
    | GetColumns(session: Option<Handle>, patterns: seq<Option<seq<byte>>>)
    | ExecuteStatement(session: Option<Handle>, statement: seq<byte>)
    | OnOperation(operation: Option<Handle>)
    | FetchResults(operation: Option<Handle>, startRowOffset: Option<int>, maxRows: Option<int>)

  datatype Method =
    | OpenSessionMethod | CloseSessionMethod | GetInfoMethod | GetColumnsMethod
    | ExecuteStatementMethod | OperationMethod | FetchResultsMethod

  const CLI_DBMS_NAME := 17

  const IDENTIFIER: Schema := [Wanted(1, WantBinary), Wanted(2, WantBinary)]
  const HANDLE: Schema := [Wanted(1, WantStruct(IDENTIFIER))]
  const NAMESPACE: Schema := [Wanted(1, WantString), Wanted(2, WantString)]

  function RequestSchema(m: Method): Schema {
    match m
    case OpenSessionMethod => [Wanted(1281, WantI32List), Wanted(1284, WantStruct(NAMESPACE))]
    case CloseSessionMethod => [Wanted(1, WantStruct(HANDLE))]
    case GetInfoMethod => [Wanted(1, WantStruct(HANDLE)), Wanted(2, WantI32)]
    case GetColumnsMethod =>
      [Wanted(1, WantStruct(HANDLE)), Wanted(2, WantString), Wanted(3, WantString),
       Wanted(4, WantString), Wanted(5, WantString)]
    case ExecuteStatementMethod => [Wanted(1, WantStruct(HANDLE)), Wanted(2, WantString)]
    case OperationMethod => [Wanted(1, WantStruct(HANDLE))]
    case FetchResultsMethod => [Wanted(1, WantStruct(HANDLE)), Wanted(3, WantI64), Wanted(1282, WantI64)]
  }

  function BytesAt(record: Record, id: int16): Option<seq<byte>> {
    if id in record && record[id].TakenBytes? then Some(record[id].bytes) else None
  }

  function IntAt(record: Record, id: int16): Option<int> {
    if id in record && record[id].TakenInt? then Some(record[id].n) else None
  }

  function RecordAt(record: Record, id: int16): Option<Record> {
    if id in record && record[id].TakenRecord? then Some(record[id].record) else None
  }

  function Sixteen(bytes: Option<seq<byte>>): Option<seq<byte>> {
    if bytes.Some? && |bytes.value| == 16 then bytes else None
  }

  /** An identifier counts only when both its halves are sixteen bytes. */
  function IdentifierOf(guid: Option<seq<byte>>, secret: Option<seq<byte>>): Option<Handle> {
    if guid.Some? && secret.Some? then Some(Handle(guid.value, secret.value)) else None
  }

  function IdentifierIn(record: Record): Option<Handle> {
    IdentifierOf(Sixteen(BytesAt(record, 1)), Sixteen(BytesAt(record, 2)))
  }

  function HandleIn(record: Record): Option<Handle> {
    var inner := RecordAt(record, 1);
    if inner.Some? then IdentifierIn(inner.value) else None
  }

  function HandleAt(record: Record, id: int16): Option<Handle> {
    var inner := RecordAt(record, id);
    if inner.Some? then HandleIn(inner.value) else None
  }

  function NamesAt(record: Record): (Option<seq<byte>>, Option<seq<byte>>) {
    var inner := RecordAt(record, 1284);
    if inner.Some? then (BytesAt(inner.value, 1), BytesAt(inner.value, 2)) else (None, None)
  }

  function IntsAt(record: Record, id: int16): seq<int> {
    if id in record && record[id].TakenInts? then record[id].ns else []
  }

  /** The request a decoder builds from what it kept; only a missing statement is an error. */
  function RequestOf(m: Method, record: Record): Option<Request> {
    match m
    case OpenSessionMethod =>
      Some(OpenSession(NamesAt(record).0, NamesAt(record).1, IntsAt(record, 1281)))
    case CloseSessionMethod => Some(CloseSession(HandleAt(record, 1)))
    case GetInfoMethod =>
      Some(GetInfo(HandleAt(record, 1),
                   match IntAt(record, 2) case Some(n) => n case None => CLI_DBMS_NAME))
    case GetColumnsMethod =>
      Some(GetColumns(HandleAt(record, 1),
                      [BytesAt(record, 2), BytesAt(record, 3), BytesAt(record, 4), BytesAt(record, 5)]))
    case ExecuteStatementMethod => (
      match BytesAt(record, 2)
      case None => None
      case Some(statement) => Some(ExecuteStatement(HandleAt(record, 1), statement)))
    case OperationMethod => Some(OnOperation(HandleAt(record, 1)))
    case FetchResultsMethod =>
      Some(FetchResults(HandleAt(record, 1), IntAt(record, 1282), IntAt(record, 3)))
  }

  // ----- the argument struct -----

  /** The first struct numbered 1 is the request; what follows it is stepped over one level deeper. */
  function ReadArgs(buf: seq<byte>, pos: nat, m: Method): Option<Request>
    requires pos <= |buf|
    decreases |buf| - pos
  {
    var header := ScanFieldBegin(buf, pos);
    if !header.ok || buf[pos] == T_STOP then None
    else if buf[pos] == T_STRUCT && Signed(buf[pos + 1..pos + 3]) == 1 then
      match ReadRecord(buf, header.pos, RequestSchema(m), map[])
      case None => None
      case Some((record, end)) =>
        if RequestOf(m, record).Some? && SkipFields(buf, end, 0).ok then RequestOf(m, record) else None
    else
      var r := SkipValue(buf, header.pos, buf[pos], 0);
      if r.ok then ReadArgs(buf, r.pos, m) else None
  }

  /** The same over the fields of the argument struct. */
  function ProjectArgs(fs: seq<Field>, m: Method): Option<Request>
    requires EncodableFields(fs)
  {
    if fs == [] then None
    else if fs[0].id == 1 && fs[0].value.Struct? then
      assert EncodableField(fs[0]);
      assert Encodable(fs[0].value);
      match ProjectFields(fs[0].value.fields, RequestSchema(m), map[])
      case None => None
      case Some(record) =>
        if BoundedFields(fs[1..]) && (fs[1..] != [] ==> 1 + MaxFieldCost(fs[1..]) <= MAX_SKIP_DEPTH)
        then RequestOf(m, record) else None
    else if Skippable(fs[0].value, 0) then ProjectArgs(fs[1..], m)
    else None
  }

  lemma FirstArgAt(buf: seq<byte>, pos: nat, fs: seq<Field>)
    requires EncodableFields(fs) && fs != [] && At(buf, pos, EncodeFields(fs))
    ensures At(buf, pos, EncodeField(fs[0])) && At(buf, pos + |EncodeField(fs[0])|, EncodeFields(fs[1..]))
    ensures EncodableFields(fs[1..]) && EncodableField(fs[0]) && Encodable(fs[0].value)
  {
    hide Encode, EncodeField, Encodable;
    AtConcat(buf, pos, EncodeField(fs[0]), EncodeFields(fs[1..]));
  }

  lemma RequestArg(buf: seq<byte>, pos: nat, fs: seq<Field>, m: Method)
    requires EncodableFields(fs) && fs != [] && At(buf, pos, EncodeFields(fs))
    requires fs[0].id == 1 && fs[0].value.Struct?
    ensures ReadArgs(buf, pos, m) == ProjectArgs(fs, m)
  {
    hide Encodable, Encode, Bounded, BoundedFields, Cost, MaxFieldCost, SkipValue, ReadRecord, ProjectFields,
      SkipFieldsLoop, RequestOf, RequestSchema, Digits, Unsigned, ValidFieldType, Skippable;
    var f, mid := fs[0], pos + |EncodeField(fs[0])|;
    FirstArgAt(buf, pos, fs);
    FieldHeaderAt(buf, pos, f);
    RequestArgProjects(buf, pos + 3, f.value, RequestSchema(m));
    SkipFieldsAccepts(buf, mid, fs[1..], 0);
  }

  lemma OtherArg(buf: seq<byte>, pos: nat, fs: seq<Field>, m: Method)
    requires EncodableFields(fs) && fs != [] && At(buf, pos, EncodeFields(fs))
    requires !(fs[0].id == 1 && fs[0].value.Struct?)
    ensures if Skippable(fs[0].value, 0) then
        && ReadArgs(buf, pos, m) == ReadArgs(buf, pos + |EncodeField(fs[0])|, m)
        && ProjectArgs(fs, m) == ProjectArgs(fs[1..], m)
      else ReadArgs(buf, pos, m) == ProjectArgs(fs, m) == None
  {
    hide Encodable, Encode, Bounded, BoundedFields, Cost, MaxFieldCost, SkipValue, ReadRecord, ProjectFields,
      SkipFieldsLoop, RequestOf, RequestSchema, Digits, Unsigned, ValidFieldType, Skippable;
    var f := fs[0];
    FirstArgAt(buf, pos, fs);
    FieldHeaderAt(buf, pos, f);
    OnlyStructsAreStructs(f.value);
    SkipAccepts(buf, pos + 3, f.value, 0);
  }

  lemma NoArgs(buf: seq<byte>, pos: nat, m: Method)
    requires At(buf, pos, EncodeFields([]))
    ensures ReadArgs(buf, pos, m) == None && ProjectArgs([], m) == None
  {
    AtFirst(buf, pos, [T_STOP]);
  }

  lemma {:induction false} ReadArgsProjects(buf: seq<byte>, pos: nat, fs: seq<Field>, m: Method)
    requires EncodableFields(fs) && At(buf, pos, EncodeFields(fs))
    ensures ReadArgs(buf, pos, m) == ProjectArgs(fs, m)
    decreases fs
  {
    hide EncodableFields, EncodeFields, ReadArgs, ProjectArgs, Skippable, At;
    if fs == [] {
      NoArgs(buf, pos, m);
    } else {
      FirstArgAt(buf, pos, fs);
      if fs[0].id == 1 && fs[0].value.Struct? {
        RequestArg(buf, pos, fs, m);
      } else {
        OtherArg(buf, pos, fs, m);
        if Skippable(fs[0].value, 0) {
          ReadArgsProjects(buf, pos + |EncodeField(fs[0])|, fs[1..], m);
        }
      }
    }
  }

  lemma RequestArgProjects(buf: seq<byte>, pos: nat, v: Value, schema: Schema)
    requires v.Struct? && Encodable(v) && At(buf, pos, Encode(v))
    ensures EncodableFields(v.fields)
    ensures ReadRecord(buf, pos, schema, map[]) == Onto(ProjectFields(v.fields, schema, map[]), pos + |Encode(v)|)
  {
    hide ReadRecord, ProjectFields;
    ReadRecordProjects(buf, pos, v.fields, schema, map[]);
  }

  lemma OnlyStructsAreStructs(v: Value)
    requires Encodable(v)
    ensures TypeOf(v) == T_STRUCT <==> v.Struct?
  {
  }

  // ----- the message header -----

  const T_MESSAGE_CALL: byte := 1
  const T_MESSAGE_REPLY: byte := 2
  const T_MESSAGE_EXCEPTION: byte := 3
  const T_BINARY_VERSION_1 := 0x8001_0000

  datatype Message = Message(name: seq<byte>, messageType: byte, seqid: int32, payload: seq<byte>)

  /** The header a call or a reply starts with. */
  function MessageBegin(name: seq<byte>, messageType: byte, seqid: int32): seq<byte> {
    Digits(T_BINARY_VERSION_1 + messageType, 4) + (Digits(|name|, 4) + name) + Digits(seqid, 4)
  }

  function DecodeMessage(body: seq<byte>): Option<Message> {
    if |body| < 4 then None
    else
      var version := Unsigned(body[..4]);
      if version / 0x1_0000 != T_BINARY_VERSION_1 / 0x1_0000 then None
      else
        var name := ScanBinary(body, 4);
        if !name.ok || !ValidUtf8(body[8..name.pos]) || name.pos + 4 > |body| then None
        else Some(Message(body[8..name.pos], version % 0x100, Word(body, name.pos), body[name.pos + 4..]))
  }

  lemma VersionField(messageType: byte)
    ensures var version := Digits(T_BINARY_VERSION_1 + messageType, 4);
      && Unsigned(version) / 0x1_0000 == T_BINARY_VERSION_1 / 0x1_0000
      && Unsigned(version) % 0x100 == messageType
  {
    hide Digits, Unsigned;
    SpanValues();
    UnsignedDigits(T_BINARY_VERSION_1 + messageType, 4);
  }

  lemma MessageLayout(name: seq<byte>, messageType: byte, seqid: int32, payload: seq<byte>)
    requires |name| <= MAX_LENGTH
    ensures var body := MessageBegin(name, messageType, seqid) + payload;
      && |body| >= 12 + |name|
      && body[..4] == Digits(T_BINARY_VERSION_1 + messageType, 4)
      && Word(body, 4) == |name| && Word(body, 8 + |name|) == seqid
      && body[8..8 + |name|] == name && body[12 + |name|..] == payload
  {
    hide Digits, Unsigned;
    var version, len := Digits(T_BINARY_VERSION_1 + messageType, 4), Digits(|name|, 4);
    var body := MessageBegin(name, messageType, seqid) + payload;
    assert body == version + (len + (name + (Digits(seqid, 4) + payload)));
    assert At(body, 4, len);
    assert At(body, 8 + |name|, Digits(seqid, 4));
    WordOfDigits(body, 4, |name|);
    WordOfDigits(body, 8 + |name|, seqid);
  }

  /** Decoding inverts writing exactly when the name's length fits its 32-bit prefix. */
  lemma DecodeInvertsBegin(name: seq<byte>, messageType: byte, seqid: int32, payload: seq<byte>)
    requires ValidUtf8(name)
    ensures DecodeMessage(MessageBegin(name, messageType, seqid) + payload)
         == Some(Message(name, messageType, seqid, payload))
      <==> |name| <= MAX_LENGTH
  {
    hide MessageBegin, Digits, Unsigned, ValidUtf8, Word;
    if |name| <= MAX_LENGTH {
      VersionField(messageType);
      MessageLayout(name, messageType, seqid, payload);
    } else {
      NameLength(MessageBegin(name, messageType, seqid) + payload);
    }
  }

  lemma NameLength(body: seq<byte>)
    ensures DecodeMessage(body).Some? ==> |DecodeMessage(body).value.name| <= MAX_LENGTH
  {
    hide Digits, Unsigned, ValidUtf8;
  }

  /** A call survives the trip: whatever surrounds the request in the argument struct, the server decodes
      the header it was sent with and the request the argument struct projects to. */
  lemma CallDecodes(name: seq<byte>, seqid: int32, fs: seq<Field>, m: Method)
    requires ValidUtf8(name) && |name| <= MAX_LENGTH && EncodableFields(fs)
    ensures var message := DecodeMessage(MessageBegin(name, T_MESSAGE_CALL, seqid) + EncodeFields(fs));
      && message == Some(Message(name, T_MESSAGE_CALL, seqid, EncodeFields(fs)))
      && ReadArgs(message.value.payload, 0, m) == ProjectArgs(fs, m)
  {
    hide Encodable, ReadRecord, ProjectFields;
    DecodeInvertsBegin(name, T_MESSAGE_CALL, seqid, EncodeFields(fs));
    ReadArgsProjects(EncodeFields(fs), 0, fs, m);
  }
}
