/** UADP NetworkMessages: describing the message of a description is a normaliser. */
module PubSubUadp {
  import opened Prelude
  import opened PubSubValues
  import opened PubSubMasks
  import opened PubSubDesc
  import Base64

  /** What the zero value of a PublisherId is; it is never shown, because its bit is not set. */
  const NO_PUBLISHER: PublisherId := NumberId(ByteId, 0)

  function PublisherIn(c: Codec, p: Option<PublisherDesc>): Result<PublisherId, Failure> {
    if p.Some? then PublisherModel(c, p.value) else Ok(NO_PUBLISHER)
  }

  function Promoter(c: Codec): FieldDesc -> Result<Option<Variant>, Failure> { (f: FieldDesc) => FromCanon(c, f.canon) }

  function HeaderBits(d: Desc): seq<bool> {
    var g := Or(d.group, GroupDesc(None, None, None, None));
    [d.publisherId.Some?, d.group.Some?, g.writerGroupId.Some?, g.groupVersion.Some?, g.messageNumber.Some?,
     g.sequenceNumber.Some?, Or(d.payloadHeader, true), d.time.Some?, d.pico.Some?, d.classId.Some?, d.promoted != []]
  }

  function Model(c: Codec, d: Desc): Result<NetworkMessage, Failure> {
    match PublisherIn(c, d.publisherId)
    case Err(e) => Err(e)
    case Ok(publisher) =>
      match ReadTime(c, d.time)
      case Err(e) => Err(e)
      case Ok(time) =>
        match Convert(d.promoted, Promoter(c))
        case Err(e) => Err(e)
        case Ok(promoted) =>
          match MessagesModel(c, d.messages, true)
          case Err(e) => Err(e)
          case Ok(messages) =>
            var g := Or(d.group, GroupDesc(None, None, None, None));
            Ok(NetworkMessage(MaskOf(HeaderBits(d)), 0, "", publisher,
              if d.classId.Some? then c.newGuid(d.classId.value) else 0, Or(g.writerGroupId, 0), Or(g.groupVersion, 0),
              Or(g.messageNumber, 0), Or(g.sequenceNumber, 0), time, Or(d.pico, 0), promoted, None, false, messages))
  }

  /** The field names that the metadata of a writer gives. */
  type Names = (PublisherId, uint16, uint16) -> seq<string>

  function PromotedOf(c: Codec, v: Option<Variant>): FieldDesc {
    FieldOf(c, Field("", 0, Some(DataValue(v, 0, 0, 0, 0, 0, 0))), "", None, false)
  }

  function PromotedAll(c: Codec, vs: seq<Option<Variant>>): (r: seq<FieldDesc>)
    ensures |r| == |vs| && forall i :: 0 <= i < |vs| ==> r[i] == PromotedOf(c, vs[i])
  {
    seq(|vs|, i requires 0 <= i < |vs| => PromotedOf(c, vs[i]))
  }

  function SecurityOf(s: Security): SecurityDesc {
    SecurityDesc(s.signed, s.encrypted, s.forceKeyReset, s.tokenId, Base64.Encode(s.nonce),
                 if s.footerSize > 0 then Some(s.footerSize) else None)
  }

  function MessageOf(c: Codec, nm: NetworkMessage, md: Names, m: DataSetMessage): MessageDesc {
    var payload := Bit(nm.uadpMask, NM_PAYLOAD_HEADER);
    MessageOfUadp(c, m, payload, md(nm.publisherId, nm.writerGroupId, if payload then m.writerId else 0))
  }

  function MessagesOf(c: Codec, nm: NetworkMessage, md: Names): (r: seq<MessageDesc>)
    ensures |r| == |nm.messages| && forall i :: 0 <= i < |r| ==> r[i] == MessageOf(c, nm, md, nm.messages[i])
  {
    seq(|nm.messages|, i requires 0 <= i < |nm.messages| => MessageOf(c, nm, md, nm.messages[i]))
  }

  function GroupOf(nm: NetworkMessage): Option<GroupDesc> {
    var m := nm.uadpMask;
    if !Bit(m, NM_GROUP_HEADER) then None
    else Some(GroupDesc(if Bit(m, NM_WRITER_GROUP_ID) then Some(nm.writerGroupId) else None,
                        if Bit(m, NM_GROUP_VERSION) then Some(nm.groupVersion) else None,
                        if Bit(m, NM_MESSAGE_NUMBER) then Some(nm.messageNumber) else None,
                        if Bit(m, NM_SEQUENCE_NUMBER) then Some(nm.sequenceNumber) else None))
  }

  function Described(c: Codec, nm: NetworkMessage, md: Names): Desc {
    var m := nm.uadpMask;
    Desc("uadp", Some(1), None, if Bit(m, NM_PUBLISHER_ID) then Some(PublisherOf(c, nm.publisherId)) else None,
      if Bit(m, NM_CLASS_ID) then Some(c.showGuid(nm.classId)) else None, GroupOf(nm), Some(Bit(m, NM_PAYLOAD_HEADER)),
      if Bit(m, NM_TIME) then Some(c.showTime(nm.time)) else None, if Bit(m, NM_PICO) then Some(nm.pico) else None,
      if Bit(m, NM_PROMOTED) then PromotedAll(c, nm.promoted) else [],
      if nm.security.Some? then Some(SecurityOf(nm.security.value)) else None, Some(nm.chunk),
      MessagesOf(c, nm, md))
  }

  // ---- the normal form

  function NormalPublisher(c: Codec, p: Option<PublisherDesc>): Option<PublisherDesc>
    requires PublisherIn(c, p).Ok?
  {
    if p.Some? then Some(PublisherOf(c, PublisherModel(c, p.value).value)) else None
  }

  function NormalClassId(c: Codec, g: Option<string>): Option<string> {
    if g.Some? then Some(c.showGuid(c.newGuid(g.value))) else None
  }

  function NormalPromotedField(c: Codec, f: FieldDesc): FieldDesc
    requires FromCanon(c, f.canon).Ok?
  {
    FieldDesc("", None, BuiltInOf(FromCanon(c, f.canon).value), NormalValue(c, f.canon), None, None, None, None, None)
  }

  function NormalPromoted(c: Codec, fs: seq<FieldDesc>): (r: seq<FieldDesc>)
    requires Convert(fs, Promoter(c)).Ok?
    ensures |r| == |fs|
    ensures forall i :: 0 <= i < |fs| ==> FromCanon(c, fs[i].canon).Ok? && r[i] == NormalPromotedField(c, fs[i])
  {
    ConvertIs(fs, Promoter(c));
    assert forall i :: 0 <= i < |fs| ==> Promoter(c)(fs[i]) == FromCanon(c, fs[i].canon);
    seq(|fs|, i requires 0 <= i < |fs| => NormalPromotedField(c, fs[i]))
  }

  /** The names for a message of a description. */
  function NamesFor(c: Codec, d: Desc, md: Names, m: MessageDesc): seq<string>
    requires PublisherIn(c, d.publisherId).Ok?
  {
    var group := Or(d.group, GroupDesc(None, None, None, None));
    md(PublisherIn(c, d.publisherId).value, Or(group.writerGroupId, 0),
       if Or(d.payloadHeader, true) then Or(m.writerId, 0) else 0)
  }

  function NormalMessage(c: Codec, d: Desc, md: Names, m: MessageDesc): MessageDesc
    requires PublisherIn(c, d.publisherId).Ok? && MessageModel(c, m, true).Ok?
  {
    NormalMessageUadp(c, m, Or(d.payloadHeader, true), NamesFor(c, d, md, m))
  }

  function NormalMessages(c: Codec, d: Desc, md: Names): (r: seq<MessageDesc>)
    requires PublisherIn(c, d.publisherId).Ok? && MessagesModel(c, d.messages, true).Ok?
    ensures |r| == |d.messages|
    ensures forall i :: 0 <= i < |r| ==>
              MessageModel(c, d.messages[i], true).Ok? && r[i] == NormalMessage(c, d, md, d.messages[i])
  {
    MessagesModelIs(c, d.messages, true);
    seq(|d.messages|, i requires 0 <= i < |d.messages| => NormalMessage(c, d, md, d.messages[i]))
  }

  /** What is left of a description: version 1, no chunk, no security, the payload header flag filled in,
      and every member that was there, in normal form. */
  function Normal(c: Codec, d: Desc, md: Names): Desc
    requires Model(c, d).Ok?
  {
    Desc("uadp", Some(1), None, NormalPublisher(c, d.publisherId), NormalClassId(c, d.classId), d.group,
      Some(Or(d.payloadHeader, true)), NormTime(c, d.time), d.pico, NormalPromoted(c, d.promoted), None, Some(false),
      NormalMessages(c, d, md))
  }

  lemma PromotedAreNormal(c: Codec, fs: seq<FieldDesc>)
    requires Convert(fs, Promoter(c)).Ok?
    ensures PromotedAll(c, Convert(fs, Promoter(c)).value) == NormalPromoted(c, fs)
  {
    ConvertIs(fs, Promoter(c));
    var vs := Convert(fs, Promoter(c)).value;
    forall i | 0 <= i < |fs| ensures PromotedOf(c, vs[i]) == NormalPromoted(c, fs)[i] {
      assert Promoter(c)(fs[i]) == FromCanon(c, fs[i].canon) == Ok(vs[i]);
      DescribedValue(c, fs[i].canon);
    }
  }

  lemma MessagesAreNormal(c: Codec, d: Desc, md: Names)
    requires Model(c, d).Ok?
    ensures MessagesOf(c, Model(c, d).value, md) == NormalMessages(c, d, md)
  {
    var nm := Model(c, d).value;
    MessagesModelIs(c, d.messages, true);
    HeaderTests(d);
    forall i | 0 <= i < |d.messages| ensures MessageOf(c, nm, md, nm.messages[i]) == NormalMessages(c, d, md)[i] {
      MessageIsNormalUadp(c, d.messages[i], Or(d.payloadHeader, true), NamesFor(c, d, md, d.messages[i]));
    }
  }

  /** The bits outside the group header. */
  lemma HeaderTests(d: Desc)
    ensures var m := MaskOf(HeaderBits(d));
            && (Bit(m, NM_PUBLISHER_ID) <==> d.publisherId.Some?) && (Bit(m, NM_CLASS_ID) <==> d.classId.Some?)
            && (Bit(m, NM_PAYLOAD_HEADER) <==> Or(d.payloadHeader, true)) && (Bit(m, NM_TIME) <==> d.time.Some?)
            && (Bit(m, NM_PICO) <==> d.pico.Some?) && (Bit(m, NM_PROMOTED) <==> d.promoted != [])
  {
    MaskBits(HeaderBits(d));
  }

  lemma GroupIsNormal(nm: NetworkMessage, d: Desc)
    requires nm.uadpMask == MaskOf(HeaderBits(d))
    requires var g := Or(d.group, GroupDesc(None, None, None, None));
             && nm.writerGroupId == Or(g.writerGroupId, 0) && nm.groupVersion == Or(g.groupVersion, 0)
             && nm.messageNumber == Or(g.messageNumber, 0) && nm.sequenceNumber == Or(g.sequenceNumber, 0)
    ensures GroupOf(nm) == d.group
  {
    MaskBits(HeaderBits(d));
  }

  /** Describing the message of a description gives its normal form. */
  lemma DescribedIsNormal(c: Codec, d: Desc, md: Names)
    requires Model(c, d).Ok?
    ensures Described(c, Model(c, d).value, md) == Normal(c, d, md)
  {
    PromotedAreNormal(c, d.promoted);
    ConvertIs(d.promoted, Promoter(c));
    MessagesAreNormal(c, d, md);
    HeaderTests(d);
    GroupIsNormal(Model(c, d).value, d);
  }

  /** The number of the content mask: a payload header unless it is refused, everything else if it is there. */
  lemma HeaderNumber(d: Desc)
    ensures MaskOf(HeaderBits(d)) ==
            One(d.publisherId.Some?) + 2 * One(d.group.Some?)
            + 4 * One(d.group.Some? && d.group.value.writerGroupId.Some?)
            + 8 * One(d.group.Some? && d.group.value.groupVersion.Some?)
            + 16 * One(d.group.Some? && d.group.value.messageNumber.Some?)
            + 32 * One(d.group.Some? && d.group.value.sequenceNumber.Some?)
            + 64 * One(d.payloadHeader != Some(false)) + 128 * One(d.time.Some?) + 256 * One(d.pico.Some?)
            + 512 * One(d.classId.Some?) + 1024 * One(d.promoted != [])
  {
    ElevenBits(HeaderBits(d));
    HeaderBitsAre(d);
  }

  lemma HeaderBitsAre(d: Desc)
    ensures var b := HeaderBits(d);
            && b[0] == d.publisherId.Some? && b[1] == d.group.Some?
            && b[2] == (d.group.Some? && d.group.value.writerGroupId.Some?)
            && b[3] == (d.group.Some? && d.group.value.groupVersion.Some?)
            && b[4] == (d.group.Some? && d.group.value.messageNumber.Some?)
            && b[5] == (d.group.Some? && d.group.value.sequenceNumber.Some?)
            && b[6] == (d.payloadHeader != Some(false)) && b[7] == d.time.Some? && b[8] == d.pico.Some?
            && b[9] == d.classId.Some? && b[10] == (d.promoted != [])
  {
  }

  lemma ModelMask(c: Codec, d: Desc)
    requires Model(c, d).Ok?
    ensures Model(c, d).value.uadpMask == MaskOf(HeaderBits(d))
  {
  }

  // ---- normalising twice changes nothing

  lemma PublisherStays(c: Codec, p: Option<PublisherDesc>)
    requires Lawful(c) && PublisherIn(c, p).Ok?
    ensures PublisherIn(c, NormalPublisher(c, p)) == PublisherIn(c, p)
  {
    if p.Some? { PublisherRoundTrip(c, PublisherModel(c, p.value).value); }
  }

  lemma ClassIdStays(c: Codec, g: Option<string>)
    requires Lawful(c)
    ensures NormalClassId(c, NormalClassId(c, g)) == NormalClassId(c, g)
  {
    if g.Some? { assert GuidStable(c, c.newGuid(g.value)); }
  }

  lemma PromotedStay(c: Codec, fs: seq<FieldDesc>)
    requires Lawful(c) && Convert(fs, Promoter(c)).Ok?
    ensures var n := NormalPromoted(c, fs); Convert(n, Promoter(c)).Ok? && NormalPromoted(c, n) == n
  {
    var n := NormalPromoted(c, fs);
    forall i | 0 <= i < |n|
      ensures FromCanon(c, n[i].canon).Ok? && NormalValue(c, n[i].canon) == n[i].canon
      ensures BuiltInOf(FromCanon(c, n[i].canon).value) == n[i].builtInType
    {
      NormalValueIsNormal(c, fs[i].canon);
      NormalBuiltIn(c, fs[i].canon);
    }
    ConvertIs(n, Promoter(c));
    assert forall i :: 0 <= i < |n| ==> Promoter(c)(n[i]) == FromCanon(c, n[i].canon);
  }

  /** The head of a description that is already normal. */
  predicate SameHead(c: Codec, d: Desc, n: Desc) {
    && PublisherIn(c, d.publisherId).Ok? && PublisherIn(c, n.publisherId) == PublisherIn(c, d.publisherId)
    && n.group == d.group && n.payloadHeader == Some(Or(d.payloadHeader, true))
  }

  lemma MessageStays(c: Codec, d: Desc, n: Desc, md: Names, m: MessageDesc)
    requires Lawful(c) && SameHead(c, d, n) && MessageModel(c, m, true).Ok?
    ensures var r := NormalMessage(c, d, md, m); MessageModel(c, r, true).Ok? && NormalMessage(c, n, md, r) == r
  {
    NormalMessageStaysUadp(c, m, Or(d.payloadHeader, true), NamesFor(c, d, md, m));
  }

  lemma MessagesStay(c: Codec, d: Desc, n: Desc, md: Names)
    requires Lawful(c) && SameHead(c, d, n) && MessagesModel(c, d.messages, true).Ok?
    requires n.messages == NormalMessages(c, d, md)
    ensures MessagesModel(c, n.messages, true).Ok? && NormalMessages(c, n, md) == n.messages
  {
    forall i | 0 <= i < |n.messages|
      ensures MessageModel(c, n.messages[i], true).Ok? && NormalMessage(c, n, md, n.messages[i]) == n.messages[i]
    {
      MessageStays(c, d, n, md, d.messages[i]);
    }
    MessagesModelIs(c, n.messages, true);
  }

  lemma NormalIsNormal(c: Codec, d: Desc, md: Names)
    requires Lawful(c) && Model(c, d).Ok?
    ensures Model(c, Normal(c, d, md)).Ok? && Normal(c, Normal(c, d, md), md) == Normal(c, d, md)
  {
    var n := Normal(c, d, md);
    PublisherStays(c, d.publisherId);
    ClassIdStays(c, d.classId);
    TimeNormal(c, d.time);
    PromotedStay(c, d.promoted);
    MessagesStay(c, d, n, md);
  }

  /** A description converts exactly when all its parts do. */
  lemma ConvertibleIff(c: Codec, d: Desc)
    ensures Model(c, d).Ok? <==>
            && PublisherIn(c, d.publisherId).Ok? && (d.time.Some? ==> c.parseTime(d.time.value).Some?)
            && (forall i :: 0 <= i < |d.promoted| ==> ValueConvertible(c, d.promoted[i].canon))
            && (forall i :: 0 <= i < |d.messages| ==> Convertible(c, d.messages[i]))
  {
    ConvertIs(d.promoted, Promoter(c));
    forall i | 0 <= i < |d.promoted|
      ensures Promoter(c)(d.promoted[i]).Ok? <==> ValueConvertible(c, d.promoted[i].canon)
    {
      ValueConvertibleIff(c, d.promoted[i].canon);
    }
    MessagesModelIs(c, d.messages, true);
    forall i | 0 <= i < |d.messages|
      ensures MessageModel(c, d.messages[i], true).Ok? <==> Convertible(c, d.messages[i])
    {
      PubSubDesc.ConvertibleIff(c, d.messages[i], true);
    }
  }
}
