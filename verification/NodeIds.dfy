/** The canonical text of NodeIds and ExpandedNodeIds, and the parser of the Rust adapter. */
module NodeIds {
  import opened Prelude
  import opened Text
  import Base64

  type Guid = x: int | 0 <= x < 0x1_0000_0000_0000_0000_0000_0000_0000_0000

  /** How GUIDs and byte strings are written: printers, and parsers that may take more spellings. */
  datatype Codec = Codec(showGuid: Guid -> string, parseGuid: string -> Option<Guid>,
                         showBytes: seq<byte> -> string, parseBytes: string -> Option<seq<byte>>)

  ghost predicate Lawful(c: Codec) {
    && (forall g: Guid :: c.parseGuid(c.showGuid(g)) == Some(g) && ';' !in c.showGuid(g))
    && (forall b: seq<byte> :: c.parseBytes(c.showBytes(b)) == Some(b) && ';' !in c.showBytes(b))
  }

  function DecodeTrimmed(s: string): Option<seq<byte>> { Base64.Decode(Trim(s)) }

  /** The adapter's codec: the stack's GUID text, Base64 for byte strings. */
  function Standard(showGuid: Guid -> string, parseGuid: string -> Option<Guid>): Codec {
    Codec(showGuid, parseGuid, Base64.Encode, DecodeTrimmed)
  }

  lemma StandardLawful(showGuid: Guid -> string, parseGuid: string -> Option<Guid>)
    requires forall g: Guid :: parseGuid(showGuid(g)) == Some(g) && ';' !in showGuid(g)
    ensures Lawful(Standard(showGuid, parseGuid))
  {
    forall b: seq<byte> ensures DecodeTrimmed(Base64.Encode(b)) == Some(b) && ';' !in Base64.Encode(b) {
      Base64.EncodeChars(b);
      TrimNone(Base64.Encode(b));
      Base64.DecodeEncode(b);
    }
  }

  /** A null String or ByteString identifier is `None`: it prints like an empty one. */
  datatype Identifier = Numeric(n: uint32) | Str(s: Option<string>) | GuidId(g: Guid) | Opaque(b: Option<seq<byte>>)

  datatype NodeId = NodeId(ns: uint16, id: Identifier)

  datatype ExpandedNodeId = ExpandedNodeId(node: NodeId, uri: Option<string>, server: uint32)

  datatype Ns = Index(index: uint16) | Uri(uri: string)

  /** A NodeId as given, before its namespace URI is resolved. */
  datatype NodeRef = NodeRef(ns: Ns, id: Identifier)

  // ---- printing

  function OrEmpty<T>(o: Option<seq<T>>): seq<T> { if o.Some? then o.value else [] }

  function IdentifierText(c: Codec, id: Identifier): string {
    match id
    case Numeric(n) => "i=" + Decimal(n)
    case Str(s) => "s=" + OrEmpty(s)
    case GuidId(g) => "g=" + c.showGuid(g)
    case Opaque(b) => "b=" + c.showBytes(OrEmpty(b))
  }

  function FmtNodeId(c: Codec, n: NodeId): string {
    if n.ns == 0 then IdentifierText(c, n.id) else "ns=" + Decimal(n.ns) + ";" + IdentifierText(c, n.id)
  }

  function ServerPrefix(server: uint32): string { if server == 0 then "" else "svr=" + Decimal(server) + ";" }

  /** The text after the server index. */
  function UnservedText(c: Codec, e: ExpandedNodeId): string {
    if e.uri.Some? && e.uri.value != "" then "nsu=" + e.uri.value + ";" + IdentifierText(c, e.node.id)
    else FmtNodeId(c, e.node)
  }

  function ExpandedText(c: Codec, e: ExpandedNodeId): string {
    ServerPrefix(e.server) + UnservedText(c, e)
  }

  method FmtExpandedNodeId(c: Codec, e: ExpandedNodeId) returns (out: string)
    ensures out == ExpandedText(c, e)
  {
    out := "";
    if e.server != 0 {
      out := out + ("svr=" + Decimal(e.server) + ";");
    }
    if e.uri.Some? && e.uri.value != "" {
      out := out + ("nsu=" + e.uri.value + ";");
      out := out + IdentifierText(c, e.node.id);
    } else {
      out := out + FmtNodeId(c, e.node);
    }
  }

  /** The full text of every kind of id. */
  lemma FullText(c: Codec, u: string, ns: uint16, server: uint32, n: uint32, t: string, g: Guid, b: seq<byte>)
    requires u != "" && ns > 0 && server > 0
    ensures ExpandedText(c, ExpandedNodeId(NodeId(ns, Numeric(n)), Some(u), server)) ==
            ("svr=" + Decimal(server) + ";") + ("nsu=" + u + ";" + ("i=" + Decimal(n)))
    ensures ExpandedText(c, ExpandedNodeId(NodeId(ns, Str(Some(t))), None, server)) ==
            ("svr=" + Decimal(server) + ";") + ("ns=" + Decimal(ns) + ";" + ("s=" + t))
    ensures UnservedText(c, ExpandedNodeId(NodeId(0, GuidId(g)), Some(""), 0)) == "g=" + c.showGuid(g)
    ensures UnservedText(c, ExpandedNodeId(NodeId(ns, Opaque(Some(b))), None, 0)) ==
            "ns=" + Decimal(ns) + ";" + ("b=" + c.showBytes(b))
  {
  }

  // ---- parsing

  function ParseIdentifier(c: Codec, s: string): Option<Identifier> {
    if "i=" <= s then
      match ParseUnsigned(s[2..], 0xFFFF_FFFF) { case None => None case Some(n) => Some(Numeric(n)) }
    else if "s=" <= s then Some(Str(Some(s[2..])))
    else if "g=" <= s then
      match c.parseGuid(s[2..]) { case None => None case Some(g) => Some(GuidId(g)) }
    else if "b=" <= s then
      match c.parseBytes(s[2..]) { case None => None case Some(b) => Some(Opaque(Some(b))) }
    else None
  }

  const MARKERS: seq<string> := [";i=", ";s=", ";g=", ";b="]

  /** The first marker, in this order, that occurs in `rest`; 4 if none does. */
  function MarkerIndex(rest: string): (m: nat)
    ensures m <= 4 && (m < 4 ==> Find(rest, MARKERS[m]).Some?)
    ensures forall j :: 0 <= j < m ==> Find(rest, MARKERS[j]).None?
  {
    if Find(rest, MARKERS[0]).Some? then 0
    else if Find(rest, MARKERS[1]).Some? then 1
    else if Find(rest, MARKERS[2]).Some? then 2
    else if Find(rest, MARKERS[3]).Some? then 3
    else 4
  }

  /** Where the identifier starts: the first occurrence of that marker, not the first marker in the text. */
  function Separator(rest: string): Option<nat> {
    var m := MarkerIndex(rest);
    if m < 4 then Find(rest, MARKERS[m]) else None
  }

  method FindIdentifierSep(rest: string) returns (r: Option<nat>)
    ensures r == Separator(rest)
  {
    for m := 0 to |MARKERS|
      invariant forall j :: 0 <= j < m ==> Find(rest, MARKERS[j]).None?
    {
      var p := Find(rest, MARKERS[m]);
      if p.Some? {
        return p;
      }
    }
    return None;
  }

  /** What follows `nsu=`. */
  function ParseNamed(c: Codec, rest: string): Option<NodeRef> {
    match Separator(rest)
    case None => None
    case Some(p) =>
      if p == 0 then None
      else match ParseIdentifier(c, rest[p + 1..]) {
        case None => None
        case Some(id) => Some(NodeRef(Uri(rest[..p]), id))
      }
  }

  /** What follows `ns=`. */
  function ParseIndexed(c: Codec, rest: string): Option<NodeRef> {
    match SplitOnce(rest, ';')
    case None => None
    case Some(parts) =>
      match (ParseUnsigned(parts.0, 0xFFFF), ParseIdentifier(c, parts.1))
      case (Some(ns), Some(id)) => Some(NodeRef(Index(ns), id))
      case _ => None
  }

  function ParseNodeRef(c: Codec, s: string): Option<NodeRef> {
    if "nsu=" <= s then ParseNamed(c, s[4..])
    else if "ns=" <= s then ParseIndexed(c, s[3..])
    else match ParseIdentifier(c, s) {
      case None => None
      case Some(id) => Some(NodeRef(Index(0), id))
    }
  }

  /** A NodeId literal must not use `nsu=`. */
  function ParseNodeIdLiteral(c: Codec, s: string): Option<NodeId> {
    match ParseNodeRef(c, s)
    case Some(NodeRef(Index(i), id)) => Some(NodeId(i, id))
    case _ => None
  }

  function ExpandedOf(r: NodeRef, server: uint32): ExpandedNodeId {
    match r.ns
    case Index(i) => ExpandedNodeId(NodeId(i, r.id), None, server)
    case Uri(u) => ExpandedNodeId(NodeId(0, r.id), Some(u), server)
  }

  function ParseExpanded(c: Codec, s: string): Option<ExpandedNodeId> {
    if "svr=" <= s then
      match SplitOnce(s[4..], ';')
      case None => None
      case Some(parts) =>
        match (ParseUnsigned(parts.0, 0xFFFF_FFFF), ParseNodeRef(c, parts.1))
        case (Some(n), Some(r)) => Some(ExpandedOf(r, n))
        case _ => None
    else match ParseNodeRef(c, s) {
      case None => None
      case Some(r) => Some(ExpandedOf(r, 0))
    }
  }

  // ---- round trips

  predicate NonNull(id: Identifier) {
    (id.Str? ==> id.s.Some?) && (id.Opaque? ==> id.b.Some?)
  }

  /** A null string identifier comes back as an empty one. */
  function Filled(id: Identifier): (r: Identifier)
    ensures r == id <==> NonNull(id)
  {
    match id
    case Str(s) => Str(Some(OrEmpty(s)))
    case Opaque(b) => Opaque(Some(OrEmpty(b)))
    case _ => id
  }

  /** The letter of the identifier type: the index of its marker. */
  function Kind(id: Identifier): (k: nat)
    ensures k < 4
  {
    match id case Numeric(_) => 0 case Str(_) => 1 case GuidId(_) => 2 case Opaque(_) => 3
  }

  const LETTERS: string := "isgb"

  /** What follows the letter and the equals sign. */
  function Payload(c: Codec, id: Identifier): string {
    match id
    case Numeric(n) => Decimal(n)
    case Str(s) => OrEmpty(s)
    case GuidId(g) => c.showGuid(g)
    case Opaque(b) => c.showBytes(OrEmpty(b))
  }

  lemma TextShape(c: Codec, id: Identifier)
    ensures IdentifierText(c, id) == [LETTERS[Kind(id)], '='] + Payload(c, id)
  {
  }

  lemma PrefixOf(letter: char, rest: string)
    ensures forall x: char :: [x, '='] <= [letter, '='] + rest <==> x == letter
    ensures ([letter, '='] + rest)[2..] == rest
  {
    forall x: char ensures [x, '='] <= [letter, '='] + rest <==> x == letter {
      if [x, '='] <= [letter, '='] + rest { assert [x, '='][0] == ([letter, '='] + rest)[0]; }
    }
  }

  lemma IdentifierRoundTrip(c: Codec, id: Identifier)
    requires Lawful(c)
    ensures ParseIdentifier(c, IdentifierText(c, id)) == Some(Filled(id))
  {
    TextShape(c, id);
    PrefixOf(LETTERS[Kind(id)], Payload(c, id));
    assert "i=" == ['i', '='] && "s=" == ['s', '='] && "g=" == ['g', '='] && "b=" == ['b', '='];
    match id
    case Numeric(n) => ParseDecimal(n, 0xFFFF_FFFF);
    case Str(_) =>
    case GuidId(_) =>
    case Opaque(_) =>
  }

  /** Without a namespace URI everything but a null identifier survives, whatever the string holds. */
  lemma NodeRefRoundTrip(c: Codec, n: NodeId)
    requires Lawful(c)
    ensures ParseNodeRef(c, FmtNodeId(c, n)) == Some(NodeRef(Index(n.ns), Filled(n.id)))
    ensures !("svr=" <= FmtNodeId(c, n))
  {
    IdentifierRoundTrip(c, n.id);
    var s, t := FmtNodeId(c, n), IdentifierText(c, n.id);
    if n.ns != 0 {
      IndexedRoundTrip(c, n.ns, t);
      assert s[0] == 'n';
    } else {
      TextShape(c, n.id);
      assert s[0] == LETTERS[Kind(n.id)] && s[1] == '=';
    }
  }

  lemma IndexedRoundTrip(c: Codec, ns: uint16, t: string)
    ensures ParseNodeRef(c, "ns=" + Decimal(ns) + ";" + t)
         == match ParseIdentifier(c, t) case None => None case Some(id) => Some(NodeRef(Index(ns), id))
  {
    var s, rest := "ns=" + Decimal(ns) + ";" + t, Decimal(ns) + [';'] + t;
    IndexedRest(c, ns, t);
    assert s == "ns=" + rest;
    assert s[2] == '=' && s[3..] == rest;
  }

  lemma IndexedRest(c: Codec, ns: uint16, t: string)
    ensures ParseIndexed(c, Decimal(ns) + [';'] + t)
         == match ParseIdentifier(c, t) case None => None case Some(id) => Some(NodeRef(Index(ns), id))
  {
    ParseDecimal(ns, 0xFFFF);
    SplitOnceIs(Decimal(ns), ';', t);
  }

  /** A NodeId survives printing and parsing exactly when its identifier is not a null string. */
  lemma NodeIdRoundTrip(c: Codec, n: NodeId)
    requires Lawful(c)
    ensures ParseNodeIdLiteral(c, FmtNodeId(c, n)) == Some(n) <==> NonNull(n.id)
  {
    NodeRefRoundTrip(c, n);
  }

  /** The canonical text identifies a NodeId with a non-null identifier. */
  lemma FmtNodeIdInjective(c: Codec, m: NodeId, n: NodeId)
    requires Lawful(c) && NonNull(m.id) && NonNull(n.id)
    requires FmtNodeId(c, m) == FmtNodeId(c, n)
    ensures m == n
  {
    NodeRefRoundTrip(c, m);
    NodeRefRoundTrip(c, n);
  }

  // ---- namespace URIs

  function Marker(x: char): string { [';', x, '='] }

  lemma MarkersAre(m: nat)
    requires m < 4
    ensures MARKERS[m] == Marker(LETTERS[m]) && LETTERS[m] != ';'
  {
  }

  /** Where a marker can occur in `u;x=v`: in `u`, at the separator, or in `v`, never across. */
  lemma Occurrence(u: string, x: char, v: string, y: char, k: int)
    requires x != ';' && y != ';'
    ensures At(u + [';', x, '='] + v, Marker(y), k)
       <==> At(u, Marker(y), k) || (k == |u| && x == y) || At(v, Marker(y), k - |u| - 3)
  {
    var r, pat := u + [';', x, '='] + v, Marker(y);
    if 0 <= k && k + 3 <= |r| {
      assert r[k..k + 3] == [r[k], r[k + 1], r[k + 2]];
      if k + 3 <= |u| {
        assert u[k..k + 3] == [r[k], r[k + 1], r[k + 2]];
      } else if k >= |u| + 3 {
        var j := k - |u| - 3;
        assert v[j..j + 3] == [v[j], v[j + 1], v[j + 2]];
        assert v[j] == r[k] && v[j + 1] == r[k + 1] && v[j + 2] == r[k + 2];
      }
    }
  }

  /** The separator is found behind the URI: no marker up to the identifier's own occurs in the URI,
      and no `;i=` in a string identifier. */
  ghost predicate Separable(u: string, id: Identifier) {
    && (forall m :: 0 <= m <= Kind(id) ==> !Contains(u, MARKERS[m]))
    && (id.Str? ==> !Contains(OrEmpty(id.s), MARKERS[0]))
  }

  lemma PayloadPlain(c: Codec, id: Identifier, y: char)
    requires Lawful(c) && !id.Str?
    ensures !Contains(Payload(c, id), Marker(y))
  {
    var v := Payload(c, id);
    forall k ensures !At(v, Marker(y), k) {
      if At(v, Marker(y), k) { AtHead(v, Marker(y), k); }
    }
  }

  lemma OccursBefore(u: string, x: char, v: string, y: char)
    requires x != ';' && y != ';' && x != y
    ensures Contains(u + [';', x, '='] + v, Marker(y)) <==> Contains(u, Marker(y)) || Contains(v, Marker(y))
  {
    var r := u + [';', x, '='] + v;
    forall k ensures At(r, Marker(y), k) <==> At(u, Marker(y), k) || At(v, Marker(y), k - |u| - 3) {
      Occurrence(u, x, v, y, k);
    }
    if Contains(v, Marker(y)) {
      var k :| At(v, Marker(y), k);
      assert At(r, Marker(y), k + |u| + 3);
    }
    if Contains(u, Marker(y)) {
      var k :| At(u, Marker(y), k);
      assert At(r, Marker(y), k);
    }
  }

  lemma OccursFirst(u: string, x: char, v: string)
    requires x != ';'
    ensures Find(u + [';', x, '='] + v, Marker(x)) == Some(|u|) <==> !Contains(u, Marker(x))
  {
    var r := u + [';', x, '='] + v;
    Occurrence(u, x, v, x, |u|);
    if Contains(u, Marker(x)) {
      var k :| At(u, Marker(x), k);
      Occurrence(u, x, v, x, k);
    } else {
      forall k | 0 <= k < |u| ensures !At(r, Marker(x), k) { Occurrence(u, x, v, x, k); }
      FindIs(r, Marker(x), |u|);
    }
  }

  lemma SeparatorFound(c: Codec, u: string, id: Identifier)
    requires Lawful(c)
    ensures Separator(u + [';', LETTERS[Kind(id)], '='] + Payload(c, id)) == Some(|u|) <==> Separable(u, id)
  {
    var v, kind := Payload(c, id), Kind(id);
    var x := LETTERS[kind];
    var r := u + [';', x, '='] + v;
    forall m | 0 <= m < 4
      ensures MARKERS[m] == Marker(LETTERS[m])
      ensures m != kind ==> (Find(r, MARKERS[m]).Some? <==> Contains(u, MARKERS[m]) || Contains(v, MARKERS[m]))
      ensures !id.Str? ==> !Contains(v, MARKERS[m])
    {
      MarkersAre(m);
      MarkersAre(kind);
      if m != kind { OccursBefore(u, x, v, LETTERS[m]); }
      if !id.Str? { PayloadPlain(c, id, LETTERS[m]); }
    }
    MarkersAre(kind);
    OccursFirst(u, x, v);
    SeparatorChoice(u, x, v, kind);
  }

  /** Only the identifier's own marker is found at the separator. */
  lemma SeparatorChoice(u: string, x: char, v: string, kind: nat)
    requires kind < 4 && x == LETTERS[kind]
    ensures Separator(u + [';', x, '='] + v) == Some(|u|)
       <==> (forall m :: 0 <= m < kind ==> Find(u + [';', x, '='] + v, MARKERS[m]).None?)
            && Find(u + [';', x, '='] + v, MARKERS[kind]) == Some(|u|)
  {
    var r := u + [';', x, '='] + v;
    var m := MarkerIndex(r);
    if m < 4 && Find(r, MARKERS[m]) == Some(|u|) {
      MarkersAre(m);
      Occurrence(u, x, v, LETTERS[m], |u|);
    }
  }

  /** What comes back intact. */
  ghost predicate Preserved(e: ExpandedNodeId) {
    NonNull(e.node.id) &&
    match e.uri
    case None => true
    case Some(u) => u != "" && e.node.ns == 0 && Separable(u, e.node.id)
  }

  lemma ServerRoundTrip(c: Codec, server: uint32, body: string)
    requires !("svr=" <= body)
    ensures ParseExpanded(c, ServerPrefix(server) + body)
         == match ParseNodeRef(c, body) case None => None case Some(r) => Some(ExpandedOf(r, server))
  {
    var s := ServerPrefix(server) + body;
    if server == 0 {
      assert s == body;
    } else {
      assert s[4..] == Decimal(server) + [';'] + body;
      assert "svr=" <= s;
      SplitOnceIs(Decimal(server), ';', body);
      ParseDecimal(server, 0xFFFF_FFFF);
    }
  }

  lemma ParseUriText(c: Codec, rest: string)
    ensures ParseNodeRef(c, "nsu=" + rest) == ParseNamed(c, rest)
  {
    assert ("nsu=" + rest)[4..] == rest;
  }

  lemma UriText(u: string, x: char, v: string)
    ensures var rest, t := u + [';', x, '='] + v, [x, '='] + v;
            "nsu=" + u + ";" + t == "nsu=" + rest && rest[..|u|] == u && rest[|u| + 1..] == t
  {
    var rest, t := u + [';', x, '='] + v, [x, '='] + v;
    assert u + ";" + t == rest;
    assert "nsu=" + u + ";" + t == "nsu=" + (u + ";" + t);
  }

  lemma UriRoundTrip(c: Codec, u: string, id: Identifier)
    requires Lawful(c) && u != ""
    ensures var r := ParseNodeRef(c, "nsu=" + u + ";" + IdentifierText(c, id));
            if Separable(u, id) then r == Some(NodeRef(Uri(u), Filled(id)))
            else r.Some? ==> r.value.ns.Uri? && r.value.ns.uri != u
  {
    var t := IdentifierText(c, id);
    var rest := u + [';', LETTERS[Kind(id)], '='] + Payload(c, id);
    TextShape(c, id);
    UriText(u, LETTERS[Kind(id)], Payload(c, id));
    ParseUriText(c, rest);
    IdentifierRoundTrip(c, id);
    SeparatorFound(c, u, id);
  }

  /** An ExpandedNodeId survives printing and parsing exactly when it is `Preserved`. */
  lemma ExpandedRoundTrip(c: Codec, e: ExpandedNodeId)
    requires Lawful(c)
    ensures ParseExpanded(c, ExpandedText(c, e)) == Some(e) <==> Preserved(e)
  {
    NodeRefRoundTrip(c, e.node);
    var body := UnservedText(c, e);
    if e.uri.Some? && e.uri.value != "" {
      UriRoundTrip(c, e.uri.value, e.node.id);
      assert body[0] == 'n';
    }
    ServerRoundTrip(c, e.server, body);
  }

  // ---- accepted literals

  lemma ParsedIdentifier(c: Codec, s: string)
    requires ParseIdentifier(c, s).Some?
    ensures var id := ParseIdentifier(c, s).value; NonNull(id) && |s| >= 2 && s[0] == LETTERS[Kind(id)]
                                                   && (id.Str? ==> id.s.value == s[2..])
  {
  }

  lemma ContainsPart(s: string, lo: nat, hi: nat, pat: string)
    requires lo <= hi <= |s| && Contains(s[lo..hi], pat)
    ensures exists k :: lo <= k && k + |pat| <= hi && At(s, pat, k)
  {
    var k :| At(s[lo..hi], pat, k);
    var t := s[lo..hi];
    assert forall i :: 0 <= i < |t| ==> t[i] == s[lo + i];
    assert s[k + lo..k + lo + |pat|] == t[k..k + |pat|];
    assert At(s, pat, k + lo);
  }

  lemma ParsedSeparable(rest: string, id: Identifier)
    requires Separator(rest).Some? && Kind(id) == MarkerIndex(rest)
    requires id.Str? ==> id.s == Some(rest[Separator(rest).value + 3..])
    ensures Separable(rest[..Separator(rest).value], id)
  {
    var m, p := MarkerIndex(rest), Separator(rest).value;
    MarkersAre(m);
    forall j | 0 <= j <= m ensures !Contains(rest[..p], MARKERS[j]) {
      if Contains(rest[..p], MARKERS[j]) { ContainsPart(rest, 0, p, MARKERS[j]); }
    }
    if id.Str? && Contains(id.s.value, MARKERS[0]) {
      assert id.s.value == rest[p + 3..|rest|];
      ContainsPart(rest, p + 3, |rest|, MARKERS[0]);
    }
  }

  lemma ParsedUri(c: Codec, s: string)
    requires ParseNodeRef(c, s).Some? && ParseNodeRef(c, s).value.ns.Uri?
    ensures var r := ParseNodeRef(c, s).value; r.ns.uri != "" && Separable(r.ns.uri, r.id)
  {
    NamedSeparable(c, s[4..]);
  }

  lemma NamedSeparable(c: Codec, rest: string)
    requires ParseNamed(c, rest).Some?
    ensures var r := ParseNamed(c, rest).value; r.ns.Uri? && r.ns.uri != "" && Separable(r.ns.uri, r.id)
  {
    var p := Separator(rest).value;
    ParsedIdentifier(c, rest[p + 1..]);
    LetterAfter(rest, p);
    SameLetter(ParseNamed(c, rest).value.id, MarkerIndex(rest));
    ParsedSeparable(rest, ParseNamed(c, rest).value.id);
  }

  lemma LetterAfter(rest: string, p: nat)
    requires Separator(rest) == Some(p)
    ensures p + 3 <= |rest| && rest[p + 1] == LETTERS[MarkerIndex(rest)] && rest[p + 1..][2..] == rest[p + 3..]
  {
    MarkersAre(MarkerIndex(rest));
    assert rest[p..p + 3][1] == rest[p + 1];
  }

  lemma SameLetter(id: Identifier, m: nat)
    requires m < 4 && LETTERS[m] == LETTERS[Kind(id)]
    ensures Kind(id) == m
  {
  }

  /** Everything the parser accepts is preserved, so printing and parsing it again changes nothing. */
  lemma AcceptedIsPreserved(c: Codec, s: string)
    requires Lawful(c) && ParseExpanded(c, s).Some?
    ensures var e := ParseExpanded(c, s).value; Preserved(e) && ParseExpanded(c, ExpandedText(c, e)) == Some(e)
  {
    var e := ParseExpanded(c, s).value;
    var body := if "svr=" <= s then SplitOnce(s[4..], ';').value.1 else s;
    var r := ParseNodeRef(c, body).value;
    assert e == ExpandedOf(r, e.server);
    ParsedNonNull(c, body);
    if r.ns.Uri? { ParsedUri(c, body); }
    ExpandedRoundTrip(c, e);
  }

  lemma ParsedNonNull(c: Codec, s: string)
    requires ParseNodeRef(c, s).Some?
    ensures NonNull(ParseNodeRef(c, s).value.id)
  {
    if "nsu=" <= s {
      ParsedIdentifier(c, s[4..][Separator(s[4..]).value + 1..]);
    } else if "ns=" <= s {
      ParsedIdentifier(c, SplitOnce(s[3..], ';').value.1);
    } else {
      ParsedIdentifier(c, s);
    }
  }
}
