/** The converters as the adapter runs them: masks and lists grown step by step. */
module PubSubConvert {
  import opened Prelude
  import opened PubSubValues
  import opened PubSubMasks
  import opened PubSubDesc
  import Uadp = PubSubUadp
  import Json = PubSubJson
  import Matrix

  /** The Variant of a description value. */
  method BuildVariant(c: Codec, v: Canon) returns (r: Result<Option<Variant>, Failure>)
    ensures r == FromCanon(c, v)
  {
    if v.dataType == "Null" { return Ok(None); }
    var t := c.typeByName(v.dataType);
    if t.None? { return Err(DescError); }
    match v.raw
    case Text(text) =>
      var x := c.parseScalar(t.value, text);
      if x.None? { return Err(DescError); }
      return Ok(Some(Variant(t.value, Scalar(x.value))));
    case Items(items) =>
      var xs := Matrix.ParseArray(items, Parser(c, t.value));
      if xs.None? { return Err(DescError); }
      if |v.dims| != 2 { return Ok(Some(Box(c, t.value, Array(xs.value)))); }
      var rows := BuildRows(xs.value, v.dims[0], v.dims[1]);
      if rows.None? { return Err(IndexPanic); }
      return Ok(Some(Box(c, t.value, Rows2(rows.value))));
  }

  /** The description of a Variant. */
  method DescribeVariant(c: Codec, v: Option<Variant>) returns (r: Canon)
    ensures r == ToCanon(c, v)
  {
    if v.None? { return Canon("Null", Text("null"), []); }
    var t := v.value.typ;
    match v.value.shape
    case Scalar(x) => return Canon(c.typeName(t), Text(c.showScalar(t, x)), []);
    case Array(xs) => return Canon(c.typeName(t), Items(Shown(c, t, xs)), []);
    case Rows2(rows) =>
      var flat, dims := Walk(rows);
      return Canon(c.typeName(t), Items(Shown(c, t, flat)), dims);
  }

  /** A DataValue and the mask of all fields so far, as lists of bits. */
  ghost predicate Masked(dv: DataValue, vb: seq<bool>, m: nat, fb: seq<bool>) {
    |vb| == 6 && |fb| == 6 && dv.mask == MaskOf(vb) && m == MaskOf(fb)
  }

  /** A member of a DataValue sets its bit, here and in the mask of the whole message. */
  method MarkBoth(mask: nat, k: nat, fieldMask: nat, l: nat, on: bool, ghost vb: seq<bool>, ghost fb: seq<bool>)
    returns (n: nat, m: nat)
    requires |vb| == 6 && |fb| == 6 && k < 6 && l < 6 && mask == MaskOf(vb) && fieldMask == MaskOf(fb)
    ensures n == MaskOf(vb[k := vb[k] || on]) && m == MaskOf(fb[l := fb[l] || on])
  {
    ghost var b, c;
    n, b := Mark(mask, k, on, vb);
    m, c := Mark(fieldMask, l, on, fb);
  }

  /** The source members of a DataValue. */
  method SetSource(f: FieldDesc, time: int, was: DataValue, fieldMask: nat, ghost vb: seq<bool>, ghost fb: seq<bool>)
    returns (dv: DataValue, m: nat)
    requires Masked(was, vb, fieldMask, fb)
    ensures m == MaskOf([fb[0], fb[1] || f.sourceTime.Some?, fb[2], fb[3] || f.sourcePico.Some?, fb[4], fb[5]])
    ensures dv == was.(mask := MaskOf([vb[0], vb[1], vb[2] || f.sourceTime.Some?, vb[3],
                                       vb[4] || f.sourcePico.Some?, vb[5]]),
                       sourceTime := if f.sourceTime.Some? then time else was.sourceTime,
                       sourcePico := Or(f.sourcePico, was.sourcePico))
  {
    var n;
    n, m := MarkBoth(was.mask, DV_SOURCE_TIME, fieldMask, FC_SOURCE_TIME, f.sourceTime.Some?, vb, fb);
    ghost var v1, f1 := vb[2 := vb[2] || f.sourceTime.Some?], fb[1 := fb[1] || f.sourceTime.Some?];
    n, m := MarkBoth(n, DV_SOURCE_PICO, m, FC_SOURCE_PICO, f.sourcePico.Some?, v1, f1);
    assert v1[4 := v1[4] || f.sourcePico.Some?] ==
           [vb[0], vb[1], vb[2] || f.sourceTime.Some?, vb[3], vb[4] || f.sourcePico.Some?, vb[5]];
    assert f1[3 := f1[3] || f.sourcePico.Some?] ==
           [fb[0], fb[1] || f.sourceTime.Some?, fb[2], fb[3] || f.sourcePico.Some?, fb[4], fb[5]];
    dv := was.(mask := n, sourceTime := if f.sourceTime.Some? then time else was.sourceTime,
               sourcePico := Or(f.sourcePico, was.sourcePico));
  }

  /** The server members of a DataValue. */
  method SetServer(f: FieldDesc, time: int, was: DataValue, fieldMask: nat, ghost vb: seq<bool>, ghost fb: seq<bool>)
    returns (dv: DataValue, m: nat)
    requires Masked(was, vb, fieldMask, fb)
    ensures m == MaskOf([fb[0], fb[1], fb[2] || f.serverTime.Some?, fb[3], fb[4] || f.serverPico.Some?, fb[5]])
    ensures dv == was.(mask := MaskOf([vb[0], vb[1], vb[2], vb[3] || f.serverTime.Some?, vb[4],
                                       vb[5] || f.serverPico.Some?]),
                       serverTime := if f.serverTime.Some? then time else was.serverTime,
                       serverPico := Or(f.serverPico, was.serverPico))
  {
    var n;
    n, m := MarkBoth(was.mask, DV_SERVER_TIME, fieldMask, FC_SERVER_TIME, f.serverTime.Some?, vb, fb);
    ghost var v1, f1 := vb[3 := vb[3] || f.serverTime.Some?], fb[2 := fb[2] || f.serverTime.Some?];
    n, m := MarkBoth(n, DV_SERVER_PICO, m, FC_SERVER_PICO, f.serverPico.Some?, v1, f1);
    assert v1[5 := v1[5] || f.serverPico.Some?] ==
           [vb[0], vb[1], vb[2], vb[3] || f.serverTime.Some?, vb[4], vb[5] || f.serverPico.Some?];
    assert f1[4 := f1[4] || f.serverPico.Some?] ==
           [fb[0], fb[1], fb[2] || f.serverTime.Some?, fb[3], fb[4] || f.serverPico.Some?, fb[5]];
    dv := was.(mask := n, serverTime := if f.serverTime.Some? then time else was.serverTime,
               serverPico := Or(f.serverPico, was.serverPico));
  }

  method BuildField(c: Codec, f: FieldDesc, fieldMask: nat, ghost fb: seq<bool>)
    returns (r: Result<Field, Failure>, m: nat)
    requires |fb| == 6 && fieldMask == MaskOf(fb)
    ensures r == FieldModel(c, f) && (r.Ok? ==> m == MaskOf(FieldBitsOr(fb, f)))
  {
    m := fieldMask;
    var v := BuildVariant(c, f.canon);
    if v.Err? { return Err(v.error), m; }
    var source := ReadTime(c, f.sourceTime);
    if source.Err? { return Err(source.error), m; }
    var server := ReadTime(c, f.serverTime);
    if server.Err? { return Err(server.error), m; }
    var dv;
    dv, m := BuildValue(v.value, f, source.value, server.value, fieldMask, fb);
    return Ok(Field(f.name, Or(f.index, 0), Some(dv))), m;
  }

  /** The DataValue of a field; its members also go into the mask of the whole message. */
  method BuildValue(v: Option<Variant>, f: FieldDesc, source: int, server: int, fieldMask: nat, ghost fb: seq<bool>)
    returns (dv: DataValue, m: nat)
    requires |fb| == 6 && fieldMask == MaskOf(fb) && (f.sourceTime.None? ==> source == 0)
             && (f.serverTime.None? ==> server == 0)
    ensures dv == DataValue(v, MaskOf(ValueBits(v, f)), Or(f.status, 0), source, Or(f.sourcePico, 0), server,
                            Or(f.serverPico, 0))
    ensures m == MaskOf(FieldBitsOr(fb, f))
  {
    var n := ValueMask(v);
    ghost var v0 := [v.Some?, false, false, false, false, false];
    n, m := MarkBoth(n, DV_STATUS, fieldMask, FC_STATUS, f.status.Some?, v0, fb);
    ghost var vb := [v.Some?, f.status.Some?, false, false, false, false];
    ghost var f1 := [fb[0] || f.status.Some?, fb[1], fb[2], fb[3], fb[4], fb[5]];
    assert v0[1 := f.status.Some?] == vb && fb[0 := fb[0] || f.status.Some?] == f1;
    dv := DataValue(v, n, Or(f.status, 0), 0, 0, 0, 0);
    dv, m := SetSource(f, source, dv, m, vb, f1);
    ghost var v2 := [v.Some?, f.status.Some?, f.sourceTime.Some?, false, f.sourcePico.Some?, false];
    ghost var f2 := [f1[0], f1[1] || f.sourceTime.Some?, f1[2], f1[3] || f.sourcePico.Some?, f1[4], f1[5]];
    dv, m := SetServer(f, server, dv, m, v2, f2);
    FieldBitsInOrder(f, fb, f1, f2);
  }

  lemma FieldBitsInOrder(f: FieldDesc, b: seq<bool>, b1: seq<bool>, b2: seq<bool>)
    requires |b| == 6 && b1 == [b[0] || f.status.Some?, b[1], b[2], b[3], b[4], b[5]]
    requires b2 == [b1[0], b1[1] || f.sourceTime.Some?, b1[2], b1[3] || f.sourcePico.Some?, b1[4], b1[5]]
    ensures FieldBitsOr(b, f) == [b2[0], b2[1], b2[2] || f.serverTime.Some?, b2[3], b2[4] || f.serverPico.Some?, b2[5]]
  {
  }

  method ValueMask(v: Option<Variant>) returns (n: nat)
    ensures n == MaskOf([v.Some?, false, false, false, false, false])
  {
    BlankMask(6);
    ghost var b;
    n, b := Mark(0, DV_VALUE, v.Some?, Blank(6));
    assert b == [v.Some?, false, false, false, false, false];
  }

  method BuildFields(c: Codec, fs: seq<FieldDesc>) returns (r: Result<seq<Field>, Failure>, m: nat)
    ensures r == FieldsModel(c, fs) && (r.Ok? ==> m == MaskOf(FieldBits(fs)))
  {
    var out: seq<Field> := [];
    BlankMask(6);
    assert FieldBits(fs[..0]) == Blank(6);
    m := 0;
    for i := 0 to |fs|
      invariant Convert(fs[..i], Fielder(c)) == Ok(out) && m == MaskOf(FieldBits(fs[..i]))
    {
      ConvertStep(fs, Fielder(c), i);
      FieldBitsSnoc(fs[..i], fs[i]);
      assert fs[..i + 1] == fs[..i] + [fs[i]];
      var f;
      f, m := BuildField(c, fs[i], m, FieldBits(fs[..i]));
      assert Fielder(c)(fs[i]) == f;
      if f.Err? { return Err(f.error), m; }
      out := out + [f.value];
    }
    assert fs[..|fs|] == fs;
    return Ok(out), m;
  }

  method BuildMessage(c: Codec, m: MessageDesc, uadp: bool) returns (r: Result<DataSetMessage, Failure>)
    ensures r == MessageModel(c, m, uadp) && (r.Ok? ==> Means(m, r.value) && MaskMeans(m, uadp, r.value))
  {
    if MessageModel(c, m, uadp).Ok? {
      MessageMeans(c, m, uadp);
      MessageMasks(c, m, uadp);
    }
    var typ := MessageTypeOf(m.typ);
    if typ.None? { return Err(DescError); }
    var encoding := EncodingOf(m.encoding);
    if encoding.None? { return Err(DescError); }
    var time := ReadTime(c, m.time);
    if time.Err? { return Err(time.error); }
    var fields, fieldMask := BuildFields(c, m.fields);
    if fields.Err? { return Err(fields.error); }
    var status, uadpMask, jsonMask := StatusAndMasks(m, uadp);
    var version := Or(m.version, VersionDesc(None, None));
    return Ok(DataSetMessage(typ.value, Or(m.valid, true), encoding.value, Or(m.writerId, 0), Or(m.sequenceNumber, 0),
      time.value, Or(m.pico, 0), status, Or(version.major, 0), Or(version.minor, 0), uadpMask, jsonMask, fieldMask,
      fields.value));
  }

  method StatusAndMasks(m: MessageDesc, uadp: bool) returns (status: uint32, u: nat, j: nat)
    ensures status == if uadp then ShiftUp(Or(m.status, 0)) else Or(m.status, 0)
    ensures u == if uadp then MaskOf(UadpBits(m)) else 0
    ensures j == if uadp then 0 else MaskOf(JsonBits(m))
  {
    status, u, j := Or(m.status, 0), 0, 0;
    if uadp {
      u := MessageMaskUadp(m);
      if m.status.Some? { status := m.status.value * 0x1_0000 % 0x1_0000_0000; }
    } else {
      j := MessageMaskJson(m);
    }
  }

  method MessageMaskUadp(m: MessageDesc) returns (u: nat)
    ensures u == MaskOf(UadpBits(m))
  {
    BlankMask(6);
    ghost var b;
    u, b := Mark(0, DM_SEQUENCE_NUMBER, m.sequenceNumber.Some?, Blank(6));
    u, b := Mark(u, DM_TIME, m.time.Some?, b);
    u, b := Mark(u, DM_PICO, m.pico.Some?, b);
    u, b := Mark(u, DM_STATUS, m.status.Some?, b);
    if m.version.Some? {
      u, b := VersionMask(m.version.value, u, b);
    }
    assert b == UadpBits(m);
  }

  method VersionMask(v: VersionDesc, was: nat, ghost bits: seq<bool>) returns (u: nat, ghost b: seq<bool>)
    requires |bits| == 6 && was == MaskOf(bits)
    ensures u == MaskOf(b)
    ensures b == [bits[0], bits[1], bits[2], bits[3] || v.major.Some?, bits[4] || v.minor.Some?, bits[5]]
  {
    u, b := Mark(was, DM_MAJOR, v.major.Some?, bits);
    u, b := Mark(u, DM_MINOR, v.minor.Some?, b);
  }

  method MessageMaskJson(m: MessageDesc) returns (j: nat)
    ensures j == MaskOf(JsonBits(m))
  {
    BlankMask(6);
    ghost var b := Blank(6);
    j, b := Mark(0, JM_TYPE, true, b);
    j, b := Mark(j, JM_WRITER_ID, m.writerId.Some?, b);
    j, b := Mark(j, JM_SEQUENCE_NUMBER, m.sequenceNumber.Some?, b);
    j, b := Mark(j, JM_TIME, m.time.Some?, b);
    j, b := Mark(j, JM_STATUS, m.status.Some?, b);
    j, b := Mark(j, JM_VERSION, m.version.Some?, b);
    assert b == JsonBits(m);
  }

  method BuildMessages(c: Codec, ms: seq<MessageDesc>, uadp: bool) returns (r: Result<seq<DataSetMessage>, Failure>)
    ensures r == MessagesModel(c, ms, uadp)
  {
    var out: seq<DataSetMessage> := [];
    for i := 0 to |ms|
      invariant Convert(ms[..i], Messager(c, uadp)) == Ok(out)
    {
      ConvertStep(ms, Messager(c, uadp), i);
      var m := BuildMessage(c, ms[i], uadp);
      assert Messager(c, uadp)(ms[i]) == m;
      if m.Err? { return Err(m.error); }
      out := out + [m.value];
    }
    assert ms[..|ms|] == ms;
    return Ok(out);
  }

  method BuildPromoted(c: Codec, fs: seq<FieldDesc>) returns (r: Result<seq<Option<Variant>>, Failure>)
    ensures r == Convert(fs, Uadp.Promoter(c))
  {
    var out: seq<Option<Variant>> := [];
    for i := 0 to |fs|
      invariant Convert(fs[..i], Uadp.Promoter(c)) == Ok(out)
    {
      ConvertStep(fs, Uadp.Promoter(c), i);
      var v := BuildVariant(c, fs[i].canon);
      assert Uadp.Promoter(c)(fs[i]) == v;
      if v.Err? { return Err(v.error); }
      out := out + [v.value];
    }
    assert fs[..|fs|] == fs;
    return Ok(out);
  }

  /** The mask of a UADP header: a member sets its bit. */
  method GroupMask(g: GroupDesc, was: nat, ghost bits: seq<bool>) returns (m: nat, ghost b: seq<bool>)
    requires |bits| == 11 && was == MaskOf(bits)
    ensures m == MaskOf(b)
    ensures b == [bits[0], true, bits[2] || g.writerGroupId.Some?, bits[3] || g.groupVersion.Some?,
                  bits[4] || g.messageNumber.Some?, bits[5] || g.sequenceNumber.Some?,
                  bits[6], bits[7], bits[8], bits[9], bits[10]]
  {
    m, b := Mark(was, NM_GROUP_HEADER, true, bits);
    m, b := Mark(m, NM_WRITER_GROUP_ID, g.writerGroupId.Some?, b);
    m, b := Mark(m, NM_GROUP_VERSION, g.groupVersion.Some?, b);
    m, b := Mark(m, NM_MESSAGE_NUMBER, g.messageNumber.Some?, b);
    m, b := Mark(m, NM_SEQUENCE_NUMBER, g.sequenceNumber.Some?, b);
  }

  method HeadMask(d: Desc) returns (m: nat, ghost b: seq<bool>)
    ensures m == MaskOf(b)
    ensures b == [d.publisherId.Some?, false, false, false, false, false, Or(d.payloadHeader, true), false, false,
                  d.classId.Some?, false]
  {
    BlankMask(11);
    m, b := Mark(0, NM_PUBLISHER_ID, d.publisherId.Some?, Blank(11));
    m, b := Mark(m, NM_CLASS_ID, d.classId.Some?, b);
    m, b := Mark(m, NM_PAYLOAD_HEADER, d.payloadHeader.None? || d.payloadHeader.value, b);
  }

  method TailMask(d: Desc, was: nat, ghost bits: seq<bool>) returns (m: nat, ghost b: seq<bool>)
    requires |bits| == 11 && was == MaskOf(bits)
    ensures m == MaskOf(b)
    ensures b == [bits[0], bits[1], bits[2], bits[3], bits[4], bits[5], bits[6], bits[7] || d.time.Some?,
                  bits[8] || d.pico.Some?, bits[9], bits[10] || d.promoted != []]
  {
    m, b := Mark(was, NM_TIME, d.time.Some?, bits);
    m, b := Mark(m, NM_PICO, d.pico.Some?, b);
    m, b := Mark(m, NM_PROMOTED, d.promoted != [], b);
  }

  method HeaderMask(d: Desc) returns (m: nat)
    ensures m == MaskOf(Uadp.HeaderBits(d))
  {
    ghost var b;
    m, b := HeadMask(d);
    if d.group.Some? {
      m, b := GroupMask(d.group.value, m, b);
    }
    m, b := TailMask(d, m, b);
    assert b == Uadp.HeaderBits(d);
  }

  method BuildUadp(c: Codec, d: Desc) returns (r: Result<NetworkMessage, Failure>)
    ensures r == Uadp.Model(c, d)
  {
    var publisher := Uadp.PublisherIn(c, d.publisherId);
    if publisher.Err? { return Err(publisher.error); }
    var mask := HeaderMask(d);
    var time := ReadTime(c, d.time);
    if time.Err? { return Err(time.error); }
    var promoted := BuildPromoted(c, d.promoted);
    if promoted.Err? { return Err(promoted.error); }
    var messages := BuildMessages(c, d.messages, true);
    if messages.Err? { return Err(messages.error); }
    var g := Or(d.group, GroupDesc(None, None, None, None));
    return Ok(NetworkMessage(mask, 0, "", publisher.value, if d.classId.Some? then c.newGuid(d.classId.value) else 0,
      Or(g.writerGroupId, 0), Or(g.groupVersion, 0), Or(g.messageNumber, 0), Or(g.sequenceNumber, 0), time.value,
      Or(d.pico, 0), promoted.value, None, false, messages.value));
  }

  method HeaderMaskJson(d: Desc) returns (m: nat)
    ensures m == MaskOf(Json.HeaderBits(d))
  {
    BlankMask(5);
    ghost var b := Blank(5);
    m, b := Mark(0, JN_NETWORK_HEADER, true, b);
    m, b := Mark(m, JN_MESSAGE_HEADER, true, b);
    m, b := Mark(m, JN_PUBLISHER_ID, d.publisherId.Some?, b);
    m, b := Mark(m, JN_CLASS_ID, d.classId.Some?, b);
    assert b == Json.HeaderBits(d);
  }

  method BuildJson(c: Codec, d: Desc) returns (r: Result<NetworkMessage, Failure>)
    ensures r == Json.Model(c, d)
  {
    var publisher := Uadp.PublisherIn(c, d.publisherId);
    if publisher.Err? { return Err(publisher.error); }
    var mask := HeaderMaskJson(d);
    var messages := BuildMessages(c, d.messages, false);
    if messages.Err? { return Err(messages.error); }
    return Ok(NetworkMessage(0, mask, Or(d.messageId, ""), publisher.value,
      if d.classId.Some? then c.newGuid(d.classId.value) else 0, 0, 0, 0, 0, 0, 0, [], None, false, messages.value));
  }

  // ---- the descriptions

  /** The description of a field, with the members of its DataValue if asked for. */
  method DescribeField(c: Codec, f: Field, name: string, index: Option<uint16>, withValue: bool) returns (pf: FieldDesc)
    ensures pf == FieldOf(c, f, name, index, withValue)
  {
    var v := if f.value.Some? then f.value.value.value else None;
    var canon := DescribeVariant(c, v);
    pf := FieldDesc(name, index, if v.Some? then BuiltInType(v.value.typ) else 0, canon, None, None, None, None, None);
    if withValue && f.value.Some? {
      pf := DescribeValue(c, f.value.value, pf);
    }
  }

  method DescribeValue(c: Codec, dv: DataValue, was: FieldDesc) returns (pf: FieldDesc)
    requires was.status.None? && was.sourceTime.None? && was.sourcePico.None? && was.serverTime.None?
             && was.serverPico.None?
    ensures pf == was.(status := if Bit(dv.mask, DV_STATUS) then Some(dv.status) else None,
                       sourceTime := if Bit(dv.mask, DV_SOURCE_TIME) then Some(c.showTime(dv.sourceTime)) else None,
                       sourcePico := if Bit(dv.mask, DV_SOURCE_PICO) then Some(dv.sourcePico) else None,
                       serverTime := if Bit(dv.mask, DV_SERVER_TIME) then Some(c.showTime(dv.serverTime)) else None,
                       serverPico := if Bit(dv.mask, DV_SERVER_PICO) then Some(dv.serverPico) else None)
  {
    pf := was;
    if Bit(dv.mask, DV_STATUS) { pf := pf.(status := Some(dv.status)); }
    if Bit(dv.mask, DV_SOURCE_TIME) { pf := pf.(sourceTime := Some(c.showTime(dv.sourceTime))); }
    if Bit(dv.mask, DV_SOURCE_PICO) { pf := pf.(sourcePico := Some(dv.sourcePico)); }
    if Bit(dv.mask, DV_SERVER_TIME) { pf := pf.(serverTime := Some(c.showTime(dv.serverTime))); }
    if Bit(dv.mask, DV_SERVER_PICO) { pf := pf.(serverPico := Some(dv.serverPico)); }
  }

  method DescribeFieldsUadp(c: Codec, m: DataSetMessage, names: seq<string>) returns (fields: seq<FieldDesc>)
    ensures fields == FieldsOfUadp(c, m, names)
  {
    fields := [];
    var withValue := m.encoding == AsDataValue;
    for i := 0 to |m.fields|
      invariant |fields| == if HasFields(m.typ) then i else 0
      invariant forall j :: 0 <= j < |fields| ==> fields[j] == FieldsOfUadp(c, m, names)[j]
    {
      var f := m.fields[i];
      match m.typ
      case KeyFrame =>
        var pf := DescribeField(c, f, if i < |names| then names[i] else "", None, withValue);
        fields := fields + [pf];
      case DeltaFrame =>
        var pf := DescribeField(c, f, if f.index < |names| then names[f.index] else "", Some(f.index), withValue);
        fields := fields + [pf];
      case _ =>
    }
  }

  method DescribePromoted(c: Codec, vs: seq<Option<Variant>>) returns (r: seq<FieldDesc>)
    ensures r == Uadp.PromotedAll(c, vs)
  {
    r := [];
    for i := 0 to |vs|
      invariant |r| == i && forall j :: 0 <= j < i ==> r[j] == Uadp.PromotedOf(c, vs[j])
    {
      var pf := DescribeField(c, Field("", 0, Some(DataValue(vs[i], 0, 0, 0, 0, 0, 0))), "", None, false);
      r := r + [pf];
    }
  }

  method DescribeMessagesUadp(c: Codec, nm: NetworkMessage, md: Uadp.Names) returns (r: seq<MessageDesc>)
    ensures r == Uadp.MessagesOf(c, nm, md)
  {
    r := [];
    for i := 0 to |nm.messages|
      invariant |r| == i && forall j :: 0 <= j < i ==> r[j] == Uadp.MessageOf(c, nm, md, nm.messages[j])
    {
      var pd := DescribeMessageUadp(c, nm, md, nm.messages[i]);
      r := r + [pd];
    }
  }

  method DescribeUadp(c: Codec, nm: NetworkMessage, md: Uadp.Names) returns (d: Desc)
    ensures d == Uadp.Described(c, nm, md)
  {
    var m := nm.uadpMask;
    var promoted: seq<FieldDesc> := [];
    if Bit(m, NM_PROMOTED) {
      promoted := DescribePromoted(c, nm.promoted);
    }
    var messages := DescribeMessagesUadp(c, nm, md);
    d := Desc("uadp", Some(1), None, if Bit(m, NM_PUBLISHER_ID) then Some(PublisherOf(c, nm.publisherId)) else None,
      if Bit(m, NM_CLASS_ID) then Some(c.showGuid(nm.classId)) else None, Uadp.GroupOf(nm),
      Some(Bit(m, NM_PAYLOAD_HEADER)), if Bit(m, NM_TIME) then Some(c.showTime(nm.time)) else None,
      if Bit(m, NM_PICO) then Some(nm.pico) else None, promoted,
      if nm.security.Some? then Some(Uadp.SecurityOf(nm.security.value)) else None, Some(nm.chunk), messages);
  }

  method DescribeVersion(m: DataSetMessage) returns (r: Option<VersionDesc>)
    ensures r == VersionOf(m)
  {
    r := None;
    if Bit(m.uadpMask, DM_MAJOR) || Bit(m.uadpMask, DM_MINOR) {
      var version := VersionDesc(None, None);
      if Bit(m.uadpMask, DM_MAJOR) { version := version.(major := Some(m.major)); }
      if Bit(m.uadpMask, DM_MINOR) { version := version.(minor := Some(m.minor)); }
      r := Some(version);
    }
  }

  method DescribeMessageUadp(c: Codec, nm: NetworkMessage, md: Uadp.Names, m: DataSetMessage) returns (pd: MessageDesc)
    ensures pd == Uadp.MessageOf(c, nm, md, m)
  {
    var payload, mask := Bit(nm.uadpMask, NM_PAYLOAD_HEADER), m.uadpMask;
    var names := md(nm.publisherId, nm.writerGroupId, if payload then m.writerId else 0);
    pd := MessageDesc(None, TypeText(m.typ), EncodingText(m.encoding), Some(m.valid), None, None, None, None, None, []);
    if payload { pd := pd.(writerId := Some(m.writerId)); }
    if Bit(mask, DM_SEQUENCE_NUMBER) { pd := pd.(sequenceNumber := Some(m.sequenceNumber % 0x1_0000)); }
    if Bit(mask, DM_TIME) { pd := pd.(time := Some(c.showTime(m.time))); }
    if Bit(mask, DM_PICO) { pd := pd.(pico := Some(m.pico)); }
    if Bit(mask, DM_STATUS) { pd := pd.(status := Some(m.status / 0x1_0000)); }
    var version := DescribeVersion(m);
    var fields := DescribeFieldsUadp(c, m, names);
    pd := pd.(version := version, fields := fields);
  }

  method DescribeMessageJson(c: Codec, m: DataSetMessage) returns (pd: MessageDesc)
    ensures pd == Json.MessageOf(c, m)
  {
    pd := MessageDesc(Some(m.writerId), TypeText(m.typ), "DataValue", Some(true), None, None, None, None, None, []);
    if Bit(m.jsonMask, JM_SEQUENCE_NUMBER) { pd := pd.(sequenceNumber := Some(m.sequenceNumber)); }
    if Bit(m.jsonMask, JM_TIME) { pd := pd.(time := Some(c.showTime(m.time))); }
    if Bit(m.jsonMask, JM_STATUS) { pd := pd.(status := Some(m.status)); }
    if Bit(m.jsonMask, JM_VERSION) { pd := pd.(version := Some(VersionDesc(Some(m.major), Some(m.minor)))); }
    var fields: seq<FieldDesc> := [];
    for i := 0 to |m.fields|
      invariant |fields| == i && forall j :: 0 <= j < i ==> fields[j] == Json.FieldsOf(c, m)[j]
    {
      var pf := DescribeField(c, m.fields[i], m.fields[i].name, None, !Bit(m.fieldMask, FC_RAW_DATA));
      fields := fields + [pf];
    }
    pd := pd.(fields := fields);
  }

  method DescribeJson(c: Codec, nm: NetworkMessage) returns (d: Desc)
    ensures d == Json.Described(c, nm)
  {
    d := Desc("json", None, None, None, None, None, None, None, None, [], None, None, []);
    if nm.messageId != "" { d := d.(messageId := Some(nm.messageId)); }
    if Bit(nm.jsonMask, JN_PUBLISHER_ID) { d := d.(publisherId := Some(PublisherOf(c, Json.Widened(nm.publisherId)))); }
    if Bit(nm.jsonMask, JN_CLASS_ID) { d := d.(classId := Some(c.showGuid(nm.classId))); }
    var messages: seq<MessageDesc> := [];
    for i := 0 to |nm.messages|
      invariant |messages| == i && forall j :: 0 <= j < i ==> messages[j] == Json.MessageOf(c, nm.messages[j])
    {
      var pd := DescribeMessageJson(c, nm.messages[i]);
      messages := messages + [pd];
    }
    d := d.(messages := messages);
  }

  /** Building a UADP message from a description and describing it again. */
  method NormaliseUadp(c: Codec, d: Desc, md: Uadp.Names) returns (r: Result<Desc, Failure>)
    ensures r.Ok? <==> Uadp.Model(c, d).Ok?
    ensures r.Ok? ==> r.value == Uadp.Normal(c, d, md)
  {
    var nm := BuildUadp(c, d);
    if nm.Err? { return Err(nm.error); }
    Uadp.DescribedIsNormal(c, d, md);
    var out := DescribeUadp(c, nm.value, md);
    return Ok(out);
  }

  method NormaliseJson(c: Codec, d: Desc) returns (r: Result<Desc, Failure>)
    ensures r.Ok? <==> Json.Model(c, d).Ok?
    ensures r.Ok? ==> r.value == Json.Normal(c, d)
  {
    var nm := BuildJson(c, d);
    if nm.Err? { return Err(nm.error); }
    Json.DescribedIsNormal(c, d);
    var out := DescribeJson(c, nm.value);
    return Ok(out);
  }
}
