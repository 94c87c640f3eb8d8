/** The description of a PubSub NetworkMessage (OPC UA Part 14) and the message it describes (Go). */
module PubSubDesc {
  import opened Prelude
  import opened Text
  import opened PubSubValues
  import opened PubSubMasks

  // ---- the message

  datatype NumberType = ByteId | UInt16Id | UInt32Id | UInt64Id

  datatype PublisherId = TextId(text: string) | NumberId(typ: NumberType, n: uint64)

  datatype DataValue = DataValue(value: Option<Variant>, mask: nat, status: uint32,
                                 sourceTime: int, sourcePico: uint16, serverTime: int, serverPico: uint16)

  datatype Field = Field(name: string, index: uint16, value: Option<DataValue>)

  datatype MessageType = KeyFrame | DeltaFrame | Event | KeepAlive

  datatype Encoding = AsVariant | AsRawData | AsDataValue

  datatype DataSetMessage = DataSetMessage(typ: MessageType, valid: bool, encoding: Encoding, writerId: uint16,
                                           sequenceNumber: uint32, time: int, pico: uint16, status: uint32,
                                           major: uint32, minor: uint32, uadpMask: nat, jsonMask: nat, fieldMask: nat,
                                           fields: seq<Field>)

  datatype Security = Security(signed: bool, encrypted: bool, forceKeyReset: bool, tokenId: uint32, nonce: seq<byte>,
                               footerSize: uint16)

  datatype NetworkMessage = NetworkMessage(uadpMask: nat, jsonMask: nat, messageId: string, publisherId: PublisherId,
                                           classId: int, writerGroupId: uint16, groupVersion: uint32,
                                           messageNumber: uint16, sequenceNumber: uint16, time: int, pico: uint16,
                                           promoted: seq<Option<Variant>>, security: Option<Security>, chunk: bool,
                                           messages: seq<DataSetMessage>)

  // ---- the description

  datatype PublisherDesc = PublisherDesc(typ: string, value: string)

  datatype GroupDesc = GroupDesc(writerGroupId: Option<uint16>, groupVersion: Option<uint32>,
                                 messageNumber: Option<uint16>, sequenceNumber: Option<uint16>)

  datatype VersionDesc = VersionDesc(major: Option<uint32>, minor: Option<uint32>)

  datatype FieldDesc = FieldDesc(name: string, index: Option<uint16>, builtInType: nat, canon: Canon,
                                 status: Option<uint32>, sourceTime: Option<string>, sourcePico: Option<uint16>,
                                 serverTime: Option<string>, serverPico: Option<uint16>)

  datatype MessageDesc = MessageDesc(writerId: Option<uint16>, typ: string, encoding: string, valid: Option<bool>,
                                     sequenceNumber: Option<uint32>, time: Option<string>, pico: Option<uint16>,
                                     status: Option<uint32>, version: Option<VersionDesc>, fields: seq<FieldDesc>)

  datatype SecurityDesc = SecurityDesc(signed: bool, encrypted: bool, forceKeyReset: bool, tokenId: uint32,
                                       nonce: string, footerSize: Option<uint16>)

  datatype Desc = Desc(mapping: string, version: Option<nat>, messageId: Option<string>,
                       publisherId: Option<PublisherDesc>, classId: Option<string>, group: Option<GroupDesc>,
                       payloadHeader: Option<bool>, time: Option<string>, pico: Option<uint16>,
                       promoted: seq<FieldDesc>, security: Option<SecurityDesc>, chunk: Option<bool>,
                       messages: seq<MessageDesc>)

  function Or<T>(o: Option<T>, default: T): T { if o.Some? then o.value else default }

  // ---- times

  function ReadTime(c: Codec, s: Option<string>): Result<int, Failure> {
    if s.None? then Ok(0)
    else match c.parseTime(s.value)
      case None => Err(DescError)
      case Some(t) => Ok(t)
  }

  function NormTime(c: Codec, s: Option<string>): Option<string>
    requires ReadTime(c, s).Ok?
  {
    if s.None? then None else Some(c.showTime(c.parseTime(s.value).value))
  }

  lemma TimeNormal(c: Codec, s: Option<string>)
    requires Lawful(c) && ReadTime(c, s).Ok?
    ensures ReadTime(c, NormTime(c, s)).Ok? && NormTime(c, NormTime(c, s)) == NormTime(c, s)
  {
    if s.Some? { assert TimeStable(c, c.parseTime(s.value).value); }
  }

  // ---- fields

  /** The members that the DataValue of a field has. */
  function ValueBits(v: Option<Variant>, f: FieldDesc): seq<bool> {
    [v.Some?, f.status.Some?, f.sourceTime.Some?, f.serverTime.Some?, f.sourcePico.Some?, f.serverPico.Some?]
  }

  /** The model of a field. */
  function FieldModel(c: Codec, f: FieldDesc): Result<Field, Failure> {
    match FromCanon(c, f.canon)
    case Err(e) => Err(e)
    case Ok(v) =>
      match ReadTime(c, f.sourceTime)
      case Err(e) => Err(e)
      case Ok(source) =>
        match ReadTime(c, f.serverTime)
        case Err(e) => Err(e)
        case Ok(server) =>
          Ok(Field(f.name, Or(f.index, 0), Some(DataValue(v, MaskOf(ValueBits(v, f)), Or(f.status, 0),
            source, Or(f.sourcePico, 0), server, Or(f.serverPico, 0)))))
  }

  function BuiltInOf(v: Option<Variant>): nat { if v.Some? then BuiltInType(v.value.typ) else 0 }

  /** The description of a field, with the members of its DataValue if asked for. */
  function FieldOf(c: Codec, f: Field, name: string, index: Option<uint16>, withValue: bool): FieldDesc {
    var v := if f.value.Some? then f.value.value.value else None;
    var d := FieldDesc(name, index, BuiltInOf(v), ToCanon(c, v), None, None, None, None, None);
    if withValue && f.value.Some? then
      var dv := f.value.value;
      d.(status := if Bit(dv.mask, DV_STATUS) then Some(dv.status) else None,
         sourceTime := if Bit(dv.mask, DV_SOURCE_TIME) then Some(c.showTime(dv.sourceTime)) else None,
         sourcePico := if Bit(dv.mask, DV_SOURCE_PICO) then Some(dv.sourcePico) else None,
         serverTime := if Bit(dv.mask, DV_SERVER_TIME) then Some(c.showTime(dv.serverTime)) else None,
         serverPico := if Bit(dv.mask, DV_SERVER_PICO) then Some(dv.serverPico) else None)
    else d
  }

  /** What is left of a field: its normal value, and the members of a DataValue only where they belong. */
  function NormalField(c: Codec, f: FieldDesc, name: string, index: Option<uint16>, withValue: bool): FieldDesc
    requires FieldModel(c, f).Ok?
  {
    FieldDesc(name, index, BuiltInOf(FromCanon(c, f.canon).value), NormalValue(c, f.canon),
      if withValue then f.status else None,
      if withValue then NormTime(c, f.sourceTime) else None, if withValue then f.sourcePico else None,
      if withValue then NormTime(c, f.serverTime) else None, if withValue then f.serverPico else None)
  }

  lemma FieldIsNormal(c: Codec, f: FieldDesc, name: string, index: Option<uint16>, withValue: bool)
    requires FieldModel(c, f).Ok?
    ensures FieldOf(c, FieldModel(c, f).value, name, index, withValue) == NormalField(c, f, name, index, withValue)
  {
    DescribedValue(c, f.canon);
    MaskBits(ValueBits(FromCanon(c, f.canon).value, f));
  }

  lemma NormalFieldIsNormal(c: Codec, f: FieldDesc, name: string, index: Option<uint16>, withValue: bool)
    requires Lawful(c) && FieldModel(c, f).Ok?
    ensures var n := NormalField(c, f, name, index, withValue);
            FieldModel(c, n).Ok? && NormalField(c, n, name, index, withValue) == n
  {
    NormalValueIsNormal(c, f.canon);
    TimeNormal(c, f.sourceTime);
    TimeNormal(c, f.serverTime);
    NormalBuiltIn(c, f.canon);
  }

  lemma NormalBuiltIn(c: Codec, v: Canon)
    requires Lawful(c) && FromCanon(c, v).Ok?
    ensures FromCanon(c, NormalValue(c, v)).Ok?
    ensures BuiltInOf(FromCanon(c, NormalValue(c, v)).value) == BuiltInOf(FromCanon(c, v).value)
  {
    NormalValueIsNormal(c, v);
    DescribedValue(c, v);
    var w := FromCanon(c, v).value;
    if w.Some? { assert TypeStable(c, w.value.typ); }
  }

  // ---- lists of fields

  function Fielder(c: Codec): FieldDesc -> Result<Field, Failure> { (f: FieldDesc) => FieldModel(c, f) }

  function FieldsModel(c: Codec, fs: seq<FieldDesc>): Result<seq<Field>, Failure> { Convert(fs, Fielder(c)) }

  lemma FieldsModelIs(c: Codec, fs: seq<FieldDesc>)
    ensures FieldsModel(c, fs).Ok? <==> forall i :: 0 <= i < |fs| ==> FieldModel(c, fs[i]).Ok?
    ensures FieldsModel(c, fs).Ok? ==>
              var ms := FieldsModel(c, fs).value;
              |ms| == |fs| && forall i :: 0 <= i < |fs| ==> FieldModel(c, fs[i]) == Ok(ms[i])
  {
    ConvertIs(fs, Fielder(c));
    assert forall i :: 0 <= i < |fs| ==> Fielder(c)(fs[i]) == FieldModel(c, fs[i]);
  }

  function FieldBitsOr(b: seq<bool>, f: FieldDesc): seq<bool>
    requires |b| == 6
  {
    [b[0] || f.status.Some?, b[1] || f.sourceTime.Some?, b[2] || f.serverTime.Some?, b[3] || f.sourcePico.Some?,
     b[4] || f.serverPico.Some?, b[5]]
  }

  /** A field has the member of bit `k`; none has the raw data bit. */
  predicate FieldHas(f: FieldDesc, k: nat) {
    match k
    case 0 => f.status.Some? case 1 => f.sourceTime.Some? case 2 => f.serverTime.Some? case 3 => f.sourcePico.Some?
    case 4 => f.serverPico.Some? case _ => false
  }

  predicate SomeHas(fs: seq<FieldDesc>, k: nat) { exists i :: 0 <= i < |fs| && FieldHas(fs[i], k) }

  /** The members that some field has. */
  function FieldBits(fs: seq<FieldDesc>): (b: seq<bool>)
    ensures |b| == 6
  {
    seq(6, k requires 0 <= k < 6 => SomeHas(fs, k))
  }

  lemma SomeHasSnoc(fs: seq<FieldDesc>, f: FieldDesc, k: nat)
    ensures SomeHas(fs + [f], k) <==> SomeHas(fs, k) || FieldHas(f, k)
  {
    var t := fs + [f];
    assert t[|fs|] == f && forall i :: 0 <= i < |fs| ==> t[i] == fs[i];
  }

  lemma FieldBitsSnoc(fs: seq<FieldDesc>, f: FieldDesc)
    ensures FieldBits(fs + [f]) == FieldBitsOr(FieldBits(fs), f)
  {
    forall k: nat | k < 6 ensures FieldBits(fs + [f])[k] == FieldBitsOr(FieldBits(fs), f)[k] { SomeHasSnoc(fs, f, k); }
  }

  // ---- DataSetMessages

  function TypeText(t: MessageType): string {
    match t
    case KeyFrame => "KeyFrame" case DeltaFrame => "DeltaFrame" case Event => "Event" case KeepAlive => "KeepAlive"
  }

  function MessageTypeOf(s: string): Option<MessageType> {
    if s == "" || s == "KeyFrame" then Some(KeyFrame)
    else if s == "DeltaFrame" then Some(DeltaFrame)
    else if s == "Event" then Some(Event)
    else if s == "KeepAlive" then Some(KeepAlive)
    else None
  }

  function EncodingText(e: Encoding): string {
    match e
    case AsVariant => "Variant" case AsRawData => "RawData" case AsDataValue => "DataValue"
  }

  function EncodingOf(s: string): Option<Encoding> {
    if s == "" || s == "Variant" then Some(AsVariant)
    else if s == "RawData" then Some(AsRawData)
    else if s == "DataValue" then Some(AsDataValue)
    else None
  }

  lemma NamesRoundTrip(t: MessageType, e: Encoding)
    ensures MessageTypeOf(TypeText(t)) == Some(t) && EncodingOf(EncodingText(e)) == Some(e)
  {
  }

  function Truncated(s: Option<uint32>): Option<uint32> { if s.Some? then Some(s.value % 0x1_0000) else None }

  /** The 16 bits of the code that are on the wire are the upper half of the status. */
  function ShiftUp(s: uint32): uint32 { s * 0x1_0000 % 0x1_0000_0000 }

  lemma ShiftUpDown(s: uint32)
    ensures ShiftUp(s) / 0x1_0000 == s % 0x1_0000
  {
  }

  function UadpBits(m: MessageDesc): seq<bool> {
    [m.time.Some?, m.pico.Some?, m.status.Some?, m.version.Some? && m.version.value.major.Some?,
     m.version.Some? && m.version.value.minor.Some?, m.sequenceNumber.Some?]
  }

  function JsonBits(m: MessageDesc): seq<bool> {
    [m.writerId.Some?, m.version.Some?, m.sequenceNumber.Some?, m.time.Some?, m.status.Some?, true]
  }

  function MessageModel(c: Codec, m: MessageDesc, uadp: bool): Result<DataSetMessage, Failure> {
    match MessageTypeOf(m.typ)
    case None => Err(DescError)
    case Some(typ) =>
      match EncodingOf(m.encoding)
      case None => Err(DescError)
      case Some(encoding) =>
        match ReadTime(c, m.time)
        case Err(e) => Err(e)
        case Ok(time) =>
          match FieldsModel(c, m.fields)
          case Err(e) => Err(e)
          case Ok(fields) =>
            var version := Or(m.version, VersionDesc(None, None));
            Ok(DataSetMessage(typ, Or(m.valid, true), encoding, Or(m.writerId, 0), Or(m.sequenceNumber, 0), time,
              Or(m.pico, 0),
              if uadp then ShiftUp(Or(m.status, 0)) else Or(m.status, 0), Or(version.major, 0), Or(version.minor, 0),
              if uadp then MaskOf(UadpBits(m)) else 0, if uadp then 0 else MaskOf(JsonBits(m)),
              MaskOf(FieldBits(m.fields)), fields))
  }

  function NameAt(names: seq<string>, i: nat): string { if i < |names| then names[i] else "" }

  predicate HasFields(t: MessageType) { t == KeyFrame || t == DeltaFrame }

  /** Names go by position in key frames and by index in delta frames, which also show the index. */
  function LabelName(t: MessageType, names: seq<string>, i: nat, index: uint16): string {
    NameAt(names, if t == DeltaFrame then index else i)
  }

  function LabelIndex(t: MessageType, index: uint16): Option<uint16> { if t == DeltaFrame then Some(index) else None }

  /** The fields of a UADP message; KeepAlive and Event messages show none. */
  function FieldsOfUadp(c: Codec, m: DataSetMessage, names: seq<string>): (r: seq<FieldDesc>)
    ensures |r| == if HasFields(m.typ) then |m.fields| else 0
    ensures forall i :: 0 <= i < |r| ==>
              var f := m.fields[i];
              r[i] == FieldOf(c, f, LabelName(m.typ, names, i, f.index), LabelIndex(m.typ, f.index),
                              m.encoding == AsDataValue)
  {
    if !HasFields(m.typ) then [] else
    seq(|m.fields|, i requires 0 <= i < |m.fields| =>
      FieldOf(c, m.fields[i], LabelName(m.typ, names, i, m.fields[i].index), LabelIndex(m.typ, m.fields[i].index),
              m.encoding == AsDataValue))
  }

  function MessageOfUadp(c: Codec, m: DataSetMessage, payloadHeader: bool, names: seq<string>): MessageDesc {
    MessageDesc(
      if payloadHeader then Some(m.writerId) else None, TypeText(m.typ), EncodingText(m.encoding), Some(m.valid),
      if Bit(m.uadpMask, DM_SEQUENCE_NUMBER) then Some(m.sequenceNumber % 0x1_0000) else None,
      if Bit(m.uadpMask, DM_TIME) then Some(c.showTime(m.time)) else None,
      if Bit(m.uadpMask, DM_PICO) then Some(m.pico) else None,
      if Bit(m.uadpMask, DM_STATUS) then Some(m.status / 0x1_0000) else None,
      VersionOf(m), FieldsOfUadp(c, m, names))
  }

  function VersionOf(m: DataSetMessage): Option<VersionDesc> {
    var major, minor := Bit(m.uadpMask, DM_MAJOR), Bit(m.uadpMask, DM_MINOR);
    if !major && !minor then None
    else Some(VersionDesc(if major then Some(m.major) else None, if minor then Some(m.minor) else None))
  }

  function NormalFieldUadp(c: Codec, f: FieldDesc, t: MessageType, e: Encoding, names: seq<string>, i: nat): FieldDesc
    requires FieldModel(c, f).Ok?
  {
    NormalField(c, f, LabelName(t, names, i, Or(f.index, 0)), LabelIndex(t, Or(f.index, 0)), e == AsDataValue)
  }

  function NormalFieldsUadp(c: Codec, fs: seq<FieldDesc>, t: MessageType, e: Encoding,
                            names: seq<string>): (r: seq<FieldDesc>)
    requires FieldsModel(c, fs).Ok?
    ensures |r| == if HasFields(t) then |fs| else 0
    ensures forall i :: 0 <= i < |r| ==> FieldModel(c, fs[i]).Ok? && r[i] == NormalFieldUadp(c, fs[i], t, e, names, i)
  {
    FieldsModelIs(c, fs);
    if !HasFields(t) then [] else seq(|fs|, i requires 0 <= i < |fs| => NormalFieldUadp(c, fs[i], t, e, names, i))
  }

  function NormalVersion(v: Option<VersionDesc>): Option<VersionDesc> {
    if v.Some? && (v.value.major.Some? || v.value.minor.Some?) then v else None
  }

  lemma TruncatedStays(s: Option<uint32>)
    ensures Truncated(Truncated(s)) == Truncated(s)
  {
  }

  /** What is left of a UADP DataSetMessage: defaults filled in, the writer id only under a payload header,
      16 bits of status and sequence number, an empty version dropped. */
  function NormalMessageUadp(c: Codec, m: MessageDesc, payloadHeader: bool, names: seq<string>): MessageDesc
    requires MessageModel(c, m, true).Ok?
  {
    MessageDesc(
      if payloadHeader then Some(Or(m.writerId, 0)) else None,
      TypeText(MessageTypeOf(m.typ).value), EncodingText(EncodingOf(m.encoding).value), Some(Or(m.valid, true)),
      Truncated(m.sequenceNumber), NormTime(c, m.time), m.pico, Truncated(m.status),
      NormalVersion(m.version),
      NormalFieldsUadp(c, m.fields, MessageTypeOf(m.typ).value, EncodingOf(m.encoding).value, names))
  }

  lemma FieldsAreNormalUadp(c: Codec, m: MessageDesc, names: seq<string>)
    requires MessageModel(c, m, true).Ok?
    ensures var r := MessageModel(c, m, true).value;
            FieldsOfUadp(c, r, names) == NormalFieldsUadp(c, m.fields, r.typ, r.encoding, names)
  {
    FieldsModelIs(c, m.fields);
    var r := MessageModel(c, m, true).value;
    var of, normal := FieldsOfUadp(c, r, names), NormalFieldsUadp(c, m.fields, r.typ, r.encoding, names);
    forall i | 0 <= i < |of| ensures of[i] == normal[i] {
      var f := r.fields[i];
      FieldIsNormal(c, m.fields[i], LabelName(r.typ, names, i, f.index), LabelIndex(r.typ, f.index),
                    r.encoding == AsDataValue);
    }
  }

  lemma NormalFieldsStay(c: Codec, fs: seq<FieldDesc>, t: MessageType, e: Encoding, names: seq<string>)
    requires Lawful(c) && FieldsModel(c, fs).Ok?
    ensures var n := NormalFieldsUadp(c, fs, t, e, names);
            FieldsModel(c, n).Ok? && NormalFieldsUadp(c, n, t, e, names) == n
  {
    var n := NormalFieldsUadp(c, fs, t, e, names);
    forall i | 0 <= i < |n| ensures FieldModel(c, n[i]).Ok? && NormalFieldUadp(c, n[i], t, e, names, i) == n[i] {
      var index := Or(fs[i].index, 0);
      NormalFieldIsNormal(c, fs[i], LabelName(t, names, i, index), LabelIndex(t, index), e == AsDataValue);
    }
    FieldsModelIs(c, n);
  }

  lemma MessageIsNormalUadp(c: Codec, m: MessageDesc, payloadHeader: bool, names: seq<string>)
    requires MessageModel(c, m, true).Ok?
    ensures MessageOfUadp(c, MessageModel(c, m, true).value, payloadHeader, names) ==
            NormalMessageUadp(c, m, payloadHeader, names)
  {
    FieldsAreNormalUadp(c, m, names);
    MaskBits(UadpBits(m));
    ShiftUpDown(Or(m.status, 0));
  }

  /** A message converts exactly when its names, its time and its fields do. */
  lemma MessageModelOk(c: Codec, m: MessageDesc, uadp: bool)
    ensures MessageModel(c, m, uadp).Ok? <==>
            && MessageTypeOf(m.typ).Some? && EncodingOf(m.encoding).Some?
            && ReadTime(c, m.time).Ok? && FieldsModel(c, m.fields).Ok?
  {
  }

  /** Leaving the type or the encoding out means a key frame and variants, whatever else the message says. */
  lemma MessageDefaults(c: Codec, m: MessageDesc, uadp: bool)
    ensures MessageModel(c, m.(typ := ""), uadp) == MessageModel(c, m.(typ := "KeyFrame"), uadp)
    ensures MessageModel(c, m.(encoding := ""), uadp) == MessageModel(c, m.(encoding := "Variant"), uadp)
  {
    var t, u := m.(typ := ""), m.(typ := "KeyFrame");
    assert t.version == u.version && UadpBits(t) == UadpBits(u) && JsonBits(t) == JsonBits(u);
  }

  /** What the type and the encoding of a message say: the names as they are, and a default for what is missing. */
  ghost predicate Means(m: MessageDesc, r: DataSetMessage) {
    && (r.typ == KeyFrame <==> m.typ == "" || m.typ == "KeyFrame") && (r.typ == DeltaFrame <==> m.typ == "DeltaFrame")
    && (r.typ == Event <==> m.typ == "Event") && (r.typ == KeepAlive <==> m.typ == "KeepAlive")
    && (r.encoding == AsVariant <==> m.encoding == "" || m.encoding == "Variant")
    && (r.encoding == AsRawData <==> m.encoding == "RawData")
    && (r.encoding == AsDataValue <==> m.encoding == "DataValue")
    && (r.valid <==> m.valid != Some(false)) && |r.fields| == |m.fields|
  }

  /** The numbers of the masks of a message. */
  ghost predicate MaskMeans(m: MessageDesc, uadp: bool, r: DataSetMessage) {
    && r.uadpMask == (if !uadp then 0 else
                      One(m.time.Some?) + 2 * One(m.pico.Some?) + 4 * One(m.status.Some?)
                      + 8 * One(m.version.Some? && m.version.value.major.Some?)
                      + 16 * One(m.version.Some? && m.version.value.minor.Some?) + 32 * One(m.sequenceNumber.Some?))
    && r.jsonMask == (if uadp then 0 else
                      One(m.writerId.Some?) + 2 * One(m.version.Some?) + 4 * One(m.sequenceNumber.Some?)
                      + 8 * One(m.time.Some?) + 16 * One(m.status.Some?) + 32)
  }

  lemma MessageMeans(c: Codec, m: MessageDesc, uadp: bool)
    requires MessageModel(c, m, uadp).Ok?
    ensures Means(m, MessageModel(c, m, uadp).value)
  {
    FieldsModelIs(c, m.fields);
  }

  lemma MessageMasks(c: Codec, m: MessageDesc, uadp: bool)
    requires MessageModel(c, m, uadp).Ok?
    ensures MaskMeans(m, uadp, MessageModel(c, m, uadp).value)
  {
    MaskNumber(UadpBits(m));
    MaskNumber(JsonBits(m));
  }

  /** The number of the encoding mask of a DataValue. */
  lemma FieldMask(c: Codec, f: FieldDesc)
    requires FieldModel(c, f).Ok?
    ensures var r := FieldModel(c, f).value;
            && r.name == f.name && r.index == (if f.index.Some? then f.index.value else 0) && r.value.Some?
            && r.value.value.mask ==
               One(r.value.value.value.Some?) + 2 * One(f.status.Some?) + 4 * One(f.sourceTime.Some?)
               + 8 * One(f.serverTime.Some?) + 16 * One(f.sourcePico.Some?) + 32 * One(f.serverPico.Some?)
  {
    MaskNumber(ValueBits(FromCanon(c, f.canon).value, f));
  }

  /** The number of the field content mask: a member counts if some field has it, and raw data never. */
  lemma FieldContentMask(c: Codec, m: MessageDesc, uadp: bool)
    requires MessageModel(c, m, uadp).Ok?
    ensures MessageModel(c, m, uadp).value.fieldMask ==
            One(exists i :: 0 <= i < |m.fields| && m.fields[i].status.Some?)
            + 2 * One(exists i :: 0 <= i < |m.fields| && m.fields[i].sourceTime.Some?)
            + 4 * One(exists i :: 0 <= i < |m.fields| && m.fields[i].serverTime.Some?)
            + 8 * One(exists i :: 0 <= i < |m.fields| && m.fields[i].sourcePico.Some?)
            + 16 * One(exists i :: 0 <= i < |m.fields| && m.fields[i].serverPico.Some?)
  {
    MaskNumber(FieldBits(m.fields));
    SomeHasIs(m.fields);
  }

  lemma SomeHasIs(fs: seq<FieldDesc>)
    ensures SomeHas(fs, FC_STATUS) <==> exists i :: 0 <= i < |fs| && fs[i].status.Some?
    ensures SomeHas(fs, FC_SOURCE_TIME) <==> exists i :: 0 <= i < |fs| && fs[i].sourceTime.Some?
    ensures SomeHas(fs, FC_SERVER_TIME) <==> exists i :: 0 <= i < |fs| && fs[i].serverTime.Some?
    ensures SomeHas(fs, FC_SOURCE_PICO) <==> exists i :: 0 <= i < |fs| && fs[i].sourcePico.Some?
    ensures SomeHas(fs, FC_SERVER_PICO) <==> exists i :: 0 <= i < |fs| && fs[i].serverPico.Some?
    ensures !SomeHas(fs, FC_RAW_DATA)
  {
  }

  /** What comes back of a UADP message: the names in full, the fields of key and delta frames only, with names by
      position or by index, and the members of a DataValue under that encoding only. */
  lemma DescribedMeansUadp(c: Codec, m: MessageDesc, payloadHeader: bool, names: seq<string>)
    requires MessageModel(c, m, true).Ok?
    ensures var n := MessageOfUadp(c, MessageModel(c, m, true).value, payloadHeader, names);
            && n.typ == (if m.typ == "" then "KeyFrame" else m.typ)
            && n.encoding == (if m.encoding == "" then "Variant" else m.encoding)
            && n.valid == Some(m.valid != Some(false))
            && n.writerId == (if !payloadHeader then None else if m.writerId.None? then Some(0) else m.writerId)
            && n.sequenceNumber.Some? == m.sequenceNumber.Some? && n.status.Some? == m.status.Some? && n.pico == m.pico
            && (m.sequenceNumber.Some? ==> n.sequenceNumber.value == m.sequenceNumber.value % 65536)
            && (m.status.Some? ==> n.status.value == m.status.value % 65536)
            && |n.fields| == (if m.typ == "Event" || m.typ == "KeepAlive" then 0 else |m.fields|)
  {
    MessageIsNormalUadp(c, m, payloadHeader, names);
  }

  /** A field of a key frame is named by its position, one of a delta frame by its index, which is shown. */
  lemma DescribedFieldUadp(c: Codec, m: MessageDesc, payloadHeader: bool, names: seq<string>, i: nat)
    requires MessageModel(c, m, true).Ok? && i < |m.fields| && m.typ in {"", "KeyFrame", "DeltaFrame"}
    ensures var fs, f := MessageOfUadp(c, MessageModel(c, m, true).value, payloadHeader, names).fields, m.fields[i];
            i < |fs|
            && var k := if m.typ != "DeltaFrame" then i else if f.index.Some? then f.index.value else 0;
               && fs[i].name == (if k < |names| then names[k] else "")
               && fs[i].index == (if m.typ == "DeltaFrame" then Some(k) else None)
  {
    FieldsAreNormalUadp(c, m, names);
    FieldsModelIs(c, m.fields);
  }

  /** The members of its DataValue are shown under that encoding only. */
  lemma DescribedValueUadp(c: Codec, m: MessageDesc, payloadHeader: bool, names: seq<string>, i: nat)
    requires MessageModel(c, m, true).Ok? && i < |m.fields| && m.typ in {"", "KeyFrame", "DeltaFrame"}
    ensures var fs, f := MessageOfUadp(c, MessageModel(c, m, true).value, payloadHeader, names).fields, m.fields[i];
            && i < |fs| && fs[i].status == (if m.encoding == "DataValue" then f.status else None)
            && fs[i].sourcePico == (if m.encoding == "DataValue" then f.sourcePico else None)
            && fs[i].serverPico == (if m.encoding == "DataValue" then f.serverPico else None)
  {
    FieldsAreNormalUadp(c, m, names);
    FieldsModelIs(c, m.fields);
  }

  lemma NormalMessageStaysUadp(c: Codec, m: MessageDesc, payloadHeader: bool, names: seq<string>)
    requires Lawful(c) && MessageModel(c, m, true).Ok?
    ensures var n := NormalMessageUadp(c, m, payloadHeader, names);
            MessageModel(c, n, true).Ok? && NormalMessageUadp(c, n, payloadHeader, names) == n
  {
    var t, e := MessageTypeOf(m.typ).value, EncodingOf(m.encoding).value;
    NamesRoundTrip(t, e);
    TimeNormal(c, m.time);
    NormalFieldsStay(c, m.fields, t, e, names);
    TruncatedStays(m.sequenceNumber);
    TruncatedStays(m.status);
    MessageModelOk(c, NormalMessageUadp(c, m, payloadHeader, names), true);
  }

  // ---- lists of messages

  function Messager(c: Codec, uadp: bool): MessageDesc -> Result<DataSetMessage, Failure> {
    (m: MessageDesc) => MessageModel(c, m, uadp)
  }

  function MessagesModel(c: Codec, ms: seq<MessageDesc>, uadp: bool): Result<seq<DataSetMessage>, Failure> {
    Convert(ms, Messager(c, uadp))
  }

  lemma MessagesModelIs(c: Codec, ms: seq<MessageDesc>, uadp: bool)
    ensures MessagesModel(c, ms, uadp).Ok? <==> forall i :: 0 <= i < |ms| ==> MessageModel(c, ms[i], uadp).Ok?
    ensures MessagesModel(c, ms, uadp).Ok? ==>
              var rs := MessagesModel(c, ms, uadp).value;
              |rs| == |ms| && forall i :: 0 <= i < |ms| ==> MessageModel(c, ms[i], uadp) == Ok(rs[i])
  {
    ConvertIs(ms, Messager(c, uadp));
    assert forall i :: 0 <= i < |ms| ==> Messager(c, uadp)(ms[i]) == MessageModel(c, ms[i], uadp);
  }

  // ---- what converts

  /** Every value, time and name of a message is one that the description knows. */
  ghost predicate Convertible(c: Codec, m: MessageDesc) {
    && m.typ in {"", "KeyFrame", "DeltaFrame", "Event", "KeepAlive"}
    && m.encoding in {"", "Variant", "RawData", "DataValue"}
    && (m.time.Some? ==> c.parseTime(m.time.value).Some?)
    && forall i :: 0 <= i < |m.fields| ==> FieldConvertible(c, m.fields[i])
  }

  predicate FieldConvertible(c: Codec, f: FieldDesc) {
    && ValueConvertible(c, f.canon)
    && (f.sourceTime.Some? ==> c.parseTime(f.sourceTime.value).Some?)
    && (f.serverTime.Some? ==> c.parseTime(f.serverTime.value).Some?)
  }

  lemma ConvertibleIff(c: Codec, m: MessageDesc, uadp: bool)
    ensures MessageModel(c, m, uadp).Ok? <==> Convertible(c, m)
  {
    FieldsModelIs(c, m.fields);
    forall i | 0 <= i < |m.fields| ensures FieldModel(c, m.fields[i]).Ok? <==> FieldConvertible(c, m.fields[i]) {
      FieldConvertibleIff(c, m.fields[i]);
    }
  }

  lemma FieldConvertibleIff(c: Codec, f: FieldDesc)
    ensures FieldModel(c, f).Ok? <==> FieldConvertible(c, f)
  {
    ValueConvertibleIff(c, f.canon);
  }

  // ---- publishers

  function DropQuotes(s: string): string { if s != [] && s[0] == '"' then DropQuotes(s[1..]) else s }

  function DropQuotesEnd(s: string): string {
    if s != [] && s[|s| - 1] == '"' then DropQuotesEnd(s[..|s| - 1]) else s
  }

  function TrimQuotes(s: string): string { DropQuotesEnd(DropQuotes(s)) }

  function Quoted(s: string): string { ['"'] + s + ['"'] }

  lemma TrimQuotesDecimal(n: nat)
    ensures TrimQuotes(Decimal(n)) == Decimal(n) && TrimQuotes(Quoted(Decimal(n))) == Decimal(n)
  {
    var d := Decimal(n);
    DecimalValue(n);
    assert IsDigit(d[0]) && IsDigit(d[|d| - 1]);
    assert Quoted(d)[1..] == d + ['"'];
    assert (d + ['"'])[..|d|] == d;
    assert DropQuotes(Quoted(d)) == DropQuotes(d + ['"']) == d + ['"'];
  }

  const MAX_UINT64: uint64 := 0xFFFF_FFFF_FFFF_FFFF

  function NumberText(t: NumberType): string {
    match t
    case ByteId => "Byte" case UInt16Id => "UInt16" case UInt32Id => "UInt32" case UInt64Id => "UInt64"
  }

  function NumberTypeOf(s: string): Option<NumberType> {
    if s == "Byte" then Some(ByteId) else if s == "UInt16" then Some(UInt16Id)
    else if s == "UInt32" then Some(UInt32Id) else if s == "UInt64" then Some(UInt64Id) else None
  }

  lemma NumberTextRoundTrip(t: NumberType)
    ensures NumberTypeOf(NumberText(t)) == Some(t) && NumberText(t) != "String"
  {
  }

  function PublisherModel(c: Codec, p: PublisherDesc): Result<PublisherId, Failure> {
    if p.typ == "String" then
      match c.parseString(p.value)
      case None => Err(DescError)
      case Some(s) => Ok(TextId(s))
    else
      match ParseDigits(TrimQuotes(p.value), MAX_UINT64)
      case None => Err(DescError)
      case Some(n) =>
        match NumberTypeOf(p.typ)
        case None => Err(DescError)
        case Some(t) => Ok(NumberId(t, n))
  }

  function PublisherOf(c: Codec, p: PublisherId): PublisherDesc {
    match p
    case TextId(s) => PublisherDesc("String", c.showString(s))
    case NumberId(t, n) => PublisherDesc(NumberText(t), if t == UInt64Id then Quoted(Decimal(n)) else Decimal(n))
  }

  /** A publisher id is a text or one of four kinds of number, with or without quotes. */
  lemma PublisherMeans(c: Codec, p: PublisherDesc)
    ensures PublisherModel(c, p).Ok? <==>
            if p.typ == "String" then c.parseString(p.value).Some?
            else p.typ in {"Byte", "UInt16", "UInt32", "UInt64"}
                 && ParseDigits(TrimQuotes(p.value), 0xFFFF_FFFF_FFFF_FFFF).Some?
    ensures PublisherModel(c, p).Ok? && p.typ == "String" ==> PublisherModel(c, p).value.TextId?
    ensures PublisherModel(c, p).Ok? && p.typ != "String" ==>
              var n := ParseDigits(TrimQuotes(p.value), 0xFFFF_FFFF_FFFF_FFFF).value;
              PublisherModel(c, p).value ==
              NumberId(if p.typ == "Byte" then ByteId else if p.typ == "UInt16" then UInt16Id
                       else if p.typ == "UInt32" then UInt32Id else UInt64Id, n)
  {
  }

  /** A printed publisher id reads back as itself. */
  lemma PublisherRoundTrip(c: Codec, p: PublisherId)
    requires Lawful(c)
    ensures PublisherModel(c, PublisherOf(c, p)) == Ok(p)
  {
    match p
    case TextId(s) => assert StringStable(c, s);
    case NumberId(t, n) =>
      TrimQuotesDecimal(n);
      ParseDecimal(n, MAX_UINT64);
      NumberTextRoundTrip(t);
  }
}
