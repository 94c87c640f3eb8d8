/** JSON NetworkMessages: describing the message of a description is a normaliser with a normal form of its own. */
module PubSubJson {
  import opened Prelude
  import opened PubSubValues
  import opened PubSubMasks
  import opened PubSubDesc
  import Uadp = PubSubUadp

  function HeaderBits(d: Desc): seq<bool> { [true, true, false, d.publisherId.Some?, d.classId.Some?] }

  function Model(c: Codec, d: Desc): Result<NetworkMessage, Failure> {
    match Uadp.PublisherIn(c, d.publisherId)
    case Err(e) => Err(e)
    case Ok(publisher) =>
      match MessagesModel(c, d.messages, false)
      case Err(e) => Err(e)
      case Ok(messages) =>
        Ok(NetworkMessage(0, MaskOf(HeaderBits(d)), Or(d.messageId, ""),
          publisher, if d.classId.Some? then c.newGuid(d.classId.value) else 0,
          0, 0, 0, 0, 0, 0, [], None, false, messages))
  }

  /** JSON numbers have no width. */
  function Widened(p: PublisherId): PublisherId {
    match p
    case TextId(_) => p
    case NumberId(_, n) => NumberId(UInt64Id, n)
  }

  function FieldsOf(c: Codec, m: DataSetMessage): (r: seq<FieldDesc>)
    ensures |r| == |m.fields|
    ensures forall i :: 0 <= i < |r| ==>
              r[i] == FieldOf(c, m.fields[i], m.fields[i].name, None, !Bit(m.fieldMask, FC_RAW_DATA))
  {
    seq(|m.fields|, i requires 0 <= i < |m.fields| =>
      FieldOf(c, m.fields[i], m.fields[i].name, None, !Bit(m.fieldMask, FC_RAW_DATA)))
  }

  function MessageOf(c: Codec, m: DataSetMessage): MessageDesc {
    MessageDesc(Some(m.writerId), TypeText(m.typ), "DataValue", Some(true),
      if Bit(m.jsonMask, JM_SEQUENCE_NUMBER) then Some(m.sequenceNumber) else None,
      if Bit(m.jsonMask, JM_TIME) then Some(c.showTime(m.time)) else None, None,
      if Bit(m.jsonMask, JM_STATUS) then Some(m.status) else None,
      if Bit(m.jsonMask, JM_VERSION) then Some(VersionDesc(Some(m.major), Some(m.minor))) else None,
      FieldsOf(c, m))
  }

  function MessagesOf(c: Codec, ms: seq<DataSetMessage>): (r: seq<MessageDesc>)
    ensures |r| == |ms| && forall i :: 0 <= i < |ms| ==> r[i] == MessageOf(c, ms[i])
  {
    seq(|ms|, i requires 0 <= i < |ms| => MessageOf(c, ms[i]))
  }

  function Described(c: Codec, nm: NetworkMessage): Desc {
    Desc("json", None, if nm.messageId != "" then Some(nm.messageId) else None,
      if Bit(nm.jsonMask, JN_PUBLISHER_ID) then Some(PublisherOf(c, Widened(nm.publisherId))) else None,
      if Bit(nm.jsonMask, JN_CLASS_ID) then Some(c.showGuid(nm.classId)) else None,
      None, None, None, None, [], None, None, MessagesOf(c, nm.messages))
  }

  // ---- the normal form

  function NormalFields(c: Codec, fs: seq<FieldDesc>): (r: seq<FieldDesc>)
    requires FieldsModel(c, fs).Ok?
    ensures |r| == |fs|
    ensures forall i :: 0 <= i < |fs| ==>
              FieldModel(c, fs[i]).Ok? && r[i] == NormalField(c, fs[i], fs[i].name, None, true)
  {
    FieldsModelIs(c, fs);
    seq(|fs|, i requires 0 <= i < |fs| => NormalField(c, fs[i], fs[i].name, None, true))
  }

  /** What is left of a JSON DataSetMessage: the writer id always, both version numbers or none, status and
      sequence number in full, every field with the members of its DataValue but no index, no picoseconds. */
  function NormalMessage(c: Codec, m: MessageDesc): MessageDesc
    requires MessageModel(c, m, false).Ok?
  {
    MessageDesc(Some(Or(m.writerId, 0)), TypeText(MessageTypeOf(m.typ).value), "DataValue", Some(true),
      m.sequenceNumber, NormTime(c, m.time), None, m.status,
      if m.version.Some? then Some(VersionDesc(Some(Or(m.version.value.major, 0)), Some(Or(m.version.value.minor, 0))))
        else None,
      NormalFields(c, m.fields))
  }

  function NormalMessages(c: Codec, ms: seq<MessageDesc>): (r: seq<MessageDesc>)
    requires MessagesModel(c, ms, false).Ok?
    ensures |r| == |ms|
    ensures forall i :: 0 <= i < |r| ==> MessageModel(c, ms[i], false).Ok? && r[i] == NormalMessage(c, ms[i])
  {
    MessagesModelIs(c, ms, false);
    seq(|ms|, i requires 0 <= i < |ms| => NormalMessage(c, ms[i]))
  }

  function NormalPublisher(c: Codec, p: Option<PublisherDesc>): Option<PublisherDesc>
    requires Uadp.PublisherIn(c, p).Ok?
  {
    if p.Some? then Some(PublisherOf(c, Widened(PublisherModel(c, p.value).value))) else None
  }

  function Normal(c: Codec, d: Desc): Desc
    requires Model(c, d).Ok?
  {
    Desc("json", None, if d.messageId == Some("") then None else d.messageId, NormalPublisher(c, d.publisherId),
      Uadp.NormalClassId(c, d.classId), None, None, None, None, [], None, None, NormalMessages(c, d.messages))
  }

  lemma FieldsAreNormal(c: Codec, m: MessageDesc)
    requires MessageModel(c, m, false).Ok?
    ensures FieldsOf(c, MessageModel(c, m, false).value) == NormalFields(c, m.fields)
  {
    FieldsModelIs(c, m.fields);
    MaskBit(FieldBits(m.fields), FC_RAW_DATA);
    var r := MessageModel(c, m, false).value;
    var of, normal := FieldsOf(c, r), NormalFields(c, m.fields);
    forall i | 0 <= i < |of| ensures of[i] == normal[i] {
      FieldIsNormal(c, m.fields[i], m.fields[i].name, None, true);
    }
  }

  lemma MessageIsNormal(c: Codec, m: MessageDesc)
    requires MessageModel(c, m, false).Ok?
    ensures MessageOf(c, MessageModel(c, m, false).value) == NormalMessage(c, m)
  {
    FieldsAreNormal(c, m);
    MaskBits(JsonBits(m));
  }

  /** What comes back of a JSON message: every field under its own name, the type in full. */
  lemma DescribedMeans(c: Codec, m: MessageDesc)
    requires MessageModel(c, m, false).Ok?
    ensures var n := MessageOf(c, MessageModel(c, m, false).value);
            && n.typ == (if m.typ == "" then "KeyFrame" else m.typ)
            && n.encoding == "DataValue" && n.valid == Some(true) && n.pico == None
  {
    MessageMeans(c, m, false);
  }

  lemma DescribedNumbers(c: Codec, m: MessageDesc)
    requires MessageModel(c, m, false).Ok?
    ensures var n := MessageOf(c, MessageModel(c, m, false).value);
            && n.writerId == (if m.writerId.None? then Some(0) else m.writerId)
            && n.sequenceNumber == m.sequenceNumber && n.status == m.status
  {
    MessageIsNormal(c, m);
  }

  lemma DescribedFields(c: Codec, m: MessageDesc, i: nat)
    requires MessageModel(c, m, false).Ok? && i < |m.fields|
    ensures var fs := MessageOf(c, MessageModel(c, m, false).value).fields;
            && |fs| == |m.fields| && fs[i].name == m.fields[i].name && fs[i].index == None
            && fs[i].status == m.fields[i].status && fs[i].sourcePico == m.fields[i].sourcePico
            && fs[i].serverPico == m.fields[i].serverPico
  {
    FieldsAreNormal(c, m);
  }

  lemma MessagesAreNormal(c: Codec, d: Desc)
    requires Model(c, d).Ok?
    ensures MessagesOf(c, Model(c, d).value.messages) == NormalMessages(c, d.messages)
  {
    var nm := Model(c, d).value;
    MessagesModelIs(c, d.messages, false);
    forall i | 0 <= i < |d.messages| ensures MessageOf(c, nm.messages[i]) == NormalMessages(c, d.messages)[i] {
      MessageIsNormal(c, d.messages[i]);
    }
  }

  lemma DescribedIsNormal(c: Codec, d: Desc)
    requires Model(c, d).Ok?
    ensures Described(c, Model(c, d).value) == Normal(c, d)
  {
    MessagesAreNormal(c, d);
    MaskBits(HeaderBits(d));
  }

  /** The number of the content mask: both headers always, and what identifies the message if it is there. */
  lemma HeaderMeans(c: Codec, d: Desc)
    requires Model(c, d).Ok?
    ensures Model(c, d).value.jsonMask == 3 + 8 * One(d.publisherId.Some?) + 16 * One(d.classId.Some?)
  {
    FiveBits(HeaderBits(d), LOWEST);
  }

  // ---- normalising twice changes nothing

  lemma FieldsStay(c: Codec, fs: seq<FieldDesc>)
    requires Lawful(c) && FieldsModel(c, fs).Ok?
    ensures var n := NormalFields(c, fs); FieldsModel(c, n).Ok? && NormalFields(c, n) == n
  {
    var n := NormalFields(c, fs);
    forall i | 0 <= i < |n| ensures FieldModel(c, n[i]).Ok? && NormalField(c, n[i], n[i].name, None, true) == n[i] {
      NormalFieldIsNormal(c, fs[i], fs[i].name, None, true);
    }
    FieldsModelIs(c, n);
  }

  lemma MessageStays(c: Codec, m: MessageDesc)
    requires Lawful(c) && MessageModel(c, m, false).Ok?
    ensures var n := NormalMessage(c, m); MessageModel(c, n, false).Ok? && NormalMessage(c, n) == n
  {
    NamesRoundTrip(MessageTypeOf(m.typ).value, AsDataValue);
    TimeNormal(c, m.time);
    FieldsStay(c, m.fields);
  }

  lemma MessagesStay(c: Codec, ms: seq<MessageDesc>)
    requires Lawful(c) && MessagesModel(c, ms, false).Ok?
    ensures var n := NormalMessages(c, ms); MessagesModel(c, n, false).Ok? && NormalMessages(c, n) == n
  {
    var n := NormalMessages(c, ms);
    forall i | 0 <= i < |n| ensures MessageModel(c, n[i], false).Ok? && NormalMessage(c, n[i]) == n[i] {
      MessageStays(c, ms[i]);
    }
    MessagesModelIs(c, n, false);
  }

  lemma NormalIsNormal(c: Codec, d: Desc)
    requires Lawful(c) && Model(c, d).Ok?
    ensures Model(c, Normal(c, d)).Ok? && Normal(c, Normal(c, d)) == Normal(c, d)
  {
    if d.publisherId.Some? {
      PublisherRoundTrip(c, Widened(PublisherModel(c, d.publisherId.value).value));
    }
    Uadp.ClassIdStays(c, d.classId);
    MessagesStay(c, d.messages);
  }

  lemma ConvertibleIff(c: Codec, d: Desc)
    ensures Model(c, d).Ok? <==>
            && Uadp.PublisherIn(c, d.publisherId).Ok?
            && forall i :: 0 <= i < |d.messages| ==> Convertible(c, d.messages[i])
  {
    MessagesModelIs(c, d.messages, false);
    forall i | 0 <= i < |d.messages|
      ensures MessageModel(c, d.messages[i], false).Ok? <==> Convertible(c, d.messages[i])
    {
      PubSubDesc.ConvertibleIff(c, d.messages[i], false);
    }
  }
}
