/** PEM blocks of the Rust adapter: the scanner of certificate files and the wrapping of DER keys. */
module Pem {
  import opened Prelude
  import opened Text
  import Base64

  const COLUMNS: nat := 64

  function Begin(tag: string): string { "-----BEGIN " + tag + "-----" }

  function End(tag: string): string { "-----END " + tag + "-----" }

  /** The bytes of a block body: white space is dropped, and a body that is not Base64 has none. */
  function BodyBytes(body: string): seq<seq<byte>> {
    match Base64.Decode(Trim(DropWhitespace(body)))
    case None => []
    case Some(d) => [d]
  }

  /** The text between the first `begin` and the `end` that follows it, and what comes after. */
  function Cut(text: string, begin: string, end: string): (r: Option<(string, string)>)
    requires begin != []
    ensures r.Some? ==> |r.value.1| < |text|
  {
    match Find(text, begin)
    case None => None
    case Some(b) =>
      var after := text[b + |begin|..];
      match Find(after, end)
      case None => None
      case Some(e) => Some((after[..e], after[e + |end|..]))
  }

  /** What `read` makes of the bodies between each `begin` and the `end` that follows it, up to the
      first `begin` that no `end` follows. */
  function Between<T>(text: string, begin: string, end: string, read: string -> seq<T>): seq<T>
    requires begin != []
    decreases |text|
  {
    match Cut(text, begin, end)
    case None => []
    case Some((body, rest)) => read(body) + Between(rest, begin, end, read)
  }

  function Blocks(text: string, tag: string): seq<seq<byte>> { Between(text, Begin(tag), End(tag), BodyBytes) }

  method PemBlocks(text: string, tag: string) returns (out: seq<seq<byte>>)
    ensures out == Blocks(text, tag)
  {
    out := Scan(text, Begin(tag), End(tag), BodyBytes);
  }

  /** The loop of the scanner. */
  method Scan<T>(text: string, begin: string, end: string, read: string -> seq<T>) returns (out: seq<T>)
    requires begin != []
    ensures out == Between(text, begin, end, read)
  {
    out := [];
    var rest := text;
    while true
      invariant out + Between(rest, begin, end, read) == Between(text, begin, end, read)
      decreases |rest|
    {
      var b := Find(rest, begin);
      if b.None? { break; }
      var after := rest[b.value + |begin|..];
      var e := Find(after, end);
      if e.None? { break; }
      var found := read(after[..e.value]);
      Prelude.Associate(out, found, Between(after[e.value + |end|..], begin, end, read));
      out := out + found;
      rest := after[e.value + |end|..];
    }
  }

  /** A text cut into lines of at most 64 columns. */
  function Lines(s: string): string
    decreases |s|
  {
    if s == [] then []
    else if |s| <= COLUMNS then s + "\n"
    else s[..COLUMNS] + "\n" + Lines(s[COLUMNS..])
  }

  lemma {:induction false} LinesLength(s: string)
    ensures |Lines(s)| == |s| + (|s| + 63) / 64
    ensures s != [] ==> Lines(s)[|Lines(s)| - 1] == '\n'
  {
    if |s| > COLUMNS {
      LinesLength(s[COLUMNS..]);
    }
  }

  lemma NextLine(k: nat)
    requires k >= 65
    ensures (k - 65) % 65 == k % 65 && (k - 65) / 65 == k / 65 - 1
  {
  }

  /** Every 65th character ends a line, and so does the last; between them is the text. */
  lemma {:induction false} LinesAt(s: string, k: nat)
    requires k < |Lines(s)|
    ensures k % 65 == 64 || k == |Lines(s)| - 1 ==> Lines(s)[k] == '\n'
    ensures !(k % 65 == 64 || k == |Lines(s)| - 1) ==> k - k / 65 < |s| && Lines(s)[k] == s[k - k / 65]
  {
    if |s| > COLUMNS {
      var t := s[COLUMNS..];
      var head := s[..COLUMNS] + "\n";
      assert Lines(s) == head + Lines(t) && |head| == 65;
      if k >= 65 {
        NextLine(k);
        LinesAt(t, k - 65);
      } else {
        LinesLength(t);
        assert Lines(s)[k] == head[k];
      }
    }
  }

  /** The body of a block as the adapter writes it. */
  function WrappedBody(b: seq<byte>): string { "\n" + Lines(Base64.Encode(b)) }

  lemma FiveParts(a: string, b: string, c: string, d: string, e: string)
    ensures a + b + c + (d + e) == a + (b + c) + d + e
  {
  }

  method WrapKey(raw: seq<byte>) returns (pem: string)
    ensures pem == Begin("PRIVATE KEY") + WrappedBody(raw) + End("PRIVATE KEY") + "\n"
  {
    var b := Base64.Encode(raw);
    pem := Begin("PRIVATE KEY") + "\n";
    ghost var head := pem;
    while b != []
      invariant pem + Lines(b) == head + Lines(Base64.Encode(raw))
      decreases |b|
    {
      var n := if |b| <= COLUMNS then |b| else COLUMNS;
      assert Lines(b) == b[..n] + "\n" + Lines(b[n..]) by {
        if |b| <= COLUMNS { assert b[..n] == b && b[n..] == []; }
      }
      pem := pem + b[..n];
      pem := pem + "\n";
      b := b[n..];
    }
    pem := pem + (End("PRIVATE KEY") + "\n");
    FiveParts(Begin("PRIVATE KEY"), "\n", Lines(Base64.Encode(raw)), End("PRIVATE KEY"), "\n");
  }

  // ---- what the scanner finds

  predicate DashFree(s: string) { forall i :: 0 <= i < |s| ==> s[i] != '-' }

  /** No `marker` starts in `s` when one follows it. */
  predicate MarkerFree(s: string, marker: string) { forall k :: 0 <= k < |s| ==> !At(s + marker, marker, k) }

  lemma DashFreeIsMarkerFree(s: string, marker: string)
    requires DashFree(s) && marker != [] && marker[0] == '-'
    ensures MarkerFree(s, marker)
  {
    forall k | 0 <= k < |s| ensures !At(s + marker, marker, k) {
      if At(s + marker, marker, k) { AtHead(s + marker, marker, k); }
    }
  }

  lemma AtPrefix(s: string, t: string, pat: string, k: int)
    requires 0 <= k && k + |pat| <= |s|
    ensures At(s + t, pat, k) <==> At(s, pat, k)
  {
    assert (s + t)[k..k + |pat|] == s[k..k + |pat|];
  }

  lemma FindFree(s: string, marker: string, rest: string)
    requires MarkerFree(s, marker)
    ensures Find(s + marker + rest, marker) == Some(|s|)
  {
    forall k | 0 <= k < |s| ensures !At(s + marker + rest, marker, k) { AtPrefix(s + marker, rest, marker, k); }
    assert (s + marker)[|s|..|s| + |marker|] == marker;
    AtPrefix(s + marker, rest, marker, |s|);
    FindIs(s + marker + rest, marker, |s|);
  }

  lemma BodyLast(before: string, body: string, end: string, rest: string)
    ensures before + (body + end + rest) == before + body + end + rest
  {
  }

  lemma BodyCut(body: string, end: string, rest: string)
    ensures (body + end + rest)[..|body|] == body && (body + end + rest)[|body| + |end|..] == rest
  {
  }

  lemma DropFirst(s: string, t: string)
    ensures (s + t)[|s|..] == t
  {
  }

  /** Where a text is cut whose first `begin` ends with `before`. */
  lemma CutAt(before: string, body: string, rest: string, begin: string, end: string)
    requires begin != [] && |begin| <= |before| && Find(before + body + end + rest, begin) == Some(|before| - |begin|)
    requires MarkerFree(body, end)
    ensures Cut(before + body + end + rest, begin, end) == Some((body, rest))
  {
    BodyLast(before, body, end, rest);
    DropFirst(before, body + end + rest);
    FindFree(body, end, rest);
    BodyCut(body, end, rest);
  }

  /** The scanner takes the first block and goes on behind it. */
  lemma BlockStep<T>(lead: string, body: string, rest: string, begin: string, end: string, read: string -> seq<T>)
    requires begin != [] && MarkerFree(lead, begin) && MarkerFree(body, end)
    ensures Between(lead + begin + body + end + rest, begin, end, read) == read(body) + Between(rest, begin, end, read)
  {
    BodyLast(lead + begin, body, end, rest);
    FindFree(lead, begin, body + end + rest);
    CutAt(lead + begin, body, rest, begin, end);
  }

  // ---- what the scanner loses

  lemma MarkerFreeSuffix(s: string, marker: string, n: nat)
    requires n <= |s| && MarkerFree(s, marker)
    ensures MarkerFree(s[n..], marker)
  {
    forall k | 0 <= k < |s[n..]| ensures !At(s[n..] + marker, marker, k) {
      assert !At(s + marker, marker, n + k);
      assert s[n..] + marker == (s + marker)[n..];
      if k + |marker| <= |s[n..] + marker| {
        assert (s[n..] + marker)[k..k + |marker|] == (s + marker)[n + k..n + k + |marker|];
      }
    }
  }

  lemma FoundInLead(lead: string, begin: string, after: string)
    requires !MarkerFree(lead, begin)
    ensures var r := Find(lead + begin + after, begin); r.Some? && r.value < |lead|
  {
    var k :| 0 <= k < |lead| && At(lead + begin, begin, k);
    AtPrefix(lead + begin, after, begin, k);
  }

  /** A marker that starts in the lead takes the place of the block's own one, so that the body begins too
      early: it holds the last character of the block's own marker. */
  lemma BlockLost<T>(lead: string, body: string, rest: string, begin: string, end: string, read: string -> seq<T>)
    returns (b: string)
    requires begin != [] && !MarkerFree(lead, begin) && MarkerFree(lead + begin + body, end)
    ensures begin[|begin| - 1] in b
    ensures Between(lead + begin + body + end + rest, begin, end, read) == read(b) + Between(rest, begin, end, read)
  {
    FoundInLead(lead, begin, body + end + rest);
    BodyLast(lead + begin, body, end, rest);
    var head := lead + begin + body;
    var n := Find(head + end + rest, begin).value + |begin|;
    b := head[n..];
    MarkerFreeSuffix(head, end, n);
    assert head[..n] + b == head;
    CutAt(head[..n], b, rest, begin, end);
    assert b[|lead| + |begin| - 1 - n] == begin[|begin| - 1];
  }

  lemma {:induction false} DashStays(s: string)
    requires '-' in s
    ensures '-' in DropWhitespace(s)
  {
    if s[0] != '-' { DashStays(s[1..]); }
  }

  /** A body with a dash in it is not Base64. */
  lemma DashedBody(body: string)
    requires '-' in body
    ensures BodyBytes(body) == []
  {
    var s := DropWhitespace(body);
    DashStays(body);
    TrimNone(s);
    if Base64.Decode(s).Some? {
      Base64.EncodeDecode(s);
      Base64.EncodeChars(Base64.Decode(s).value);
    }
  }

  /** Exactly when a block is found: no `begin` may start in the text before it, not even one that the
      block's own marker completes. */
  lemma FoundIffMarkerFree(lead: string, body: string, rest: string, tag: string)
    requires MarkerFree(lead + Begin(tag) + body, End(tag))
    ensures var text := lead + Begin(tag) + body + End(tag) + rest;
            && (!MarkerFree(lead, Begin(tag)) ==> Blocks(text, tag) == Blocks(rest, tag))
            && (MarkerFree(lead, Begin(tag)) || BodyBytes(body) == [] <==>
                Blocks(text, tag) == BodyBytes(body) + Blocks(rest, tag))
  {
    if MarkerFree(lead, Begin(tag)) {
      var head := lead + Begin(tag);
      MarkerFreeSuffix(head + body, End(tag), |head|);
      assert (head + body)[|head|..] == body;
      BlockStep(lead, body, rest, Begin(tag), End(tag), BodyBytes);
    } else {
      var b := BlockLost(lead, body, rest, Begin(tag), End(tag), BodyBytes);
      DashedBody(b);
    }
  }

  /** The dashes of a text that holds the marker twice, the first time cut short. */
  lemma CutMarkerDashes(tag: string, body: string, i: nat)
    requires DashFree(tag) && DashFree(body)
    requires i < |"-----BEGIN " + tag + Begin(tag) + body|
    requires ("-----BEGIN " + tag + Begin(tag) + body)[i] == '-'
    ensures var n := 11 + |tag|; i < 5 || n <= i < n + 5 || n + n <= i < n + n + 5
  {
    var lead := "-----BEGIN " + tag;
    assert Begin(tag) == lead + "-----";
  }

  /** A lead without the marker is not enough: a marker cut before its last dashes is completed by the dashes
      of the next one, and the block behind it is lost. */
  lemma StraddlingLead(tag: string, body: string, rest: string)
    requires DashFree(tag) && DashFree(body) && (body != [] ==> body[0] != 'E')
    ensures var lead := "-----BEGIN " + tag;
            && !Contains(lead, Begin(tag))
            && Blocks(lead + Begin(tag) + body + End(tag) + rest, tag) == Blocks(rest, tag)
  {
    var lead, begin := "-----BEGIN " + tag, Begin(tag);
    assert begin == lead + "-----";
    assert (lead + begin)[0..|begin|] == begin;
    assert At(lead + begin, begin, 0);
    CutMarkerHasNoEnd(tag, body);
    FoundIffMarkerFree(lead, body, rest, tag);
  }

  lemma CutMarkerHasNoEnd(tag: string, body: string)
    requires DashFree(tag) && DashFree(body) && (body != [] ==> body[0] != 'E')
    ensures MarkerFree("-----BEGIN " + tag + Begin(tag) + body, End(tag))
  {
    var s := "-----BEGIN " + tag + Begin(tag) + body;
    forall k | 0 <= k < |s| ensures !At(s + End(tag), End(tag), k) {
      if At(s + End(tag), End(tag), k) {
        EndAt(s + End(tag), tag, k);
        NoEndAt(tag, body, k);
      }
    }
  }

  /** Five dashes and an `E`. */
  predicate EndStart(t: string, k: nat) {
    && k + 6 <= |t| && t[k] == '-' && t[k + 1] == '-' && t[k + 2] == '-' && t[k + 3] == '-' && t[k + 4] == '-'
    && t[k + 5] == 'E'
  }

  lemma EndAt(t: string, tag: string, k: nat)
    requires At(t, End(tag), k)
    ensures EndStart(t, k)
  {
    var end := t[k..k + |End(tag)|];
    assert end[0] == '-' && end[1] == '-' && end[2] == '-' && end[3] == '-' && end[4] == '-' && end[5] == 'E';
  }

  lemma NoEndAt(tag: string, body: string, k: nat)
    requires DashFree(tag) && DashFree(body) && (body != [] ==> body[0] != 'E')
    requires k < |"-----BEGIN " + tag + Begin(tag) + body|
    ensures !EndStart("-----BEGIN " + tag + Begin(tag) + body + End(tag), k)
  {
    var s := "-----BEGIN " + tag + Begin(tag) + body;
    var t := s + End(tag);
    if EndStart(t, k) {
      assert s[k] == t[k];
      CutMarkerDashes(tag, body, k);
    }
  }

  datatype Block = Block(lead: string, body: string)

  function Render(bs: seq<Block>, tail: string, tag: string): string {
    if bs == [] then tail
    else bs[0].lead + Begin(tag) + bs[0].body + End(tag) + Render(bs[1..], tail, tag)
  }

  function AllBytes(bs: seq<Block>): seq<seq<byte>> {
    if bs == [] then [] else BodyBytes(bs[0].body) + AllBytes(bs[1..])
  }

  /** A file of several blocks gives all of them, in order, whatever stands between them. */
  lemma {:induction false} BlocksOfFile(bs: seq<Block>, tail: string, tag: string)
    requires forall i :: 0 <= i < |bs| ==> MarkerFree(bs[i].lead, Begin(tag)) && MarkerFree(bs[i].body, End(tag))
    ensures Blocks(Render(bs, tail, tag), tag) == AllBytes(bs) + Blocks(tail, tag)
  {
    if bs != [] {
      BlocksOfFile(bs[1..], tail, tag);
      BlockStep(bs[0].lead, bs[0].body, Render(bs[1..], tail, tag), Begin(tag), End(tag), BodyBytes);
      Prelude.Associate(BodyBytes(bs[0].body), AllBytes(bs[1..]), Blocks(tail, tag));
    }
  }

  /** No `end` starts before the one of the block itself, and its body is Base64. */
  predicate Whole(b: Block, tag: string) {
    MarkerFree(b.lead + Begin(tag) + b.body, End(tag)) && BodyBytes(b.body) != []
  }

  lemma FirstBlock(b: Block, rest: string, tag: string)
    requires Whole(b, tag)
    ensures var text := b.lead + Begin(tag) + b.body + End(tag) + rest;
            |Blocks(text, tag)| ==
            |Blocks(rest, tag)| + if MarkerFree(b.lead, Begin(tag)) then |BodyBytes(b.body)| else 0
  {
    FoundIffMarkerFree(b.lead, b.body, rest, tag);
  }

  /** Nothing is found that is not there. */
  lemma {:induction false} BlocksAtMost(bs: seq<Block>, tail: string, tag: string)
    requires forall i :: 0 <= i < |bs| ==> Whole(bs[i], tag)
    ensures |Blocks(Render(bs, tail, tag), tag)| <= |AllBytes(bs)| + |Blocks(tail, tag)|
  {
    if bs != [] {
      BlocksAtMost(bs[1..], tail, tag);
      FirstBlock(bs[0], Render(bs[1..], tail, tag), tag);
    }
  }

  /** Every block behind a started marker is missing. */
  lemma {:induction false} BlockMissing(bs: seq<Block>, i: nat, tail: string, tag: string)
    requires forall i :: 0 <= i < |bs| ==> Whole(bs[i], tag)
    requires i < |bs| && !MarkerFree(bs[i].lead, Begin(tag))
    ensures |Blocks(Render(bs, tail, tag), tag)| < |AllBytes(bs)| + |Blocks(tail, tag)|
  {
    FirstBlock(bs[0], Render(bs[1..], tail, tag), tag);
    if i == 0 {
      BlocksAtMost(bs[1..], tail, tag);
    } else {
      BlockMissing(bs[1..], i - 1, tail, tag);
    }
  }

  lemma BodyFree(b: Block, tag: string)
    requires Whole(b, tag)
    ensures MarkerFree(b.body, End(tag))
  {
    var head := b.lead + Begin(tag);
    MarkerFreeSuffix(head + b.body, End(tag), |head|);
    assert (head + b.body)[|head|..] == b.body;
  }

  /** A file gives all its blocks exactly when no marker starts in the text before any of them. */
  lemma AllFoundIffMarkerFree(bs: seq<Block>, tail: string, tag: string)
    requires forall i :: 0 <= i < |bs| ==> Whole(bs[i], tag)
    ensures Blocks(Render(bs, tail, tag), tag) == AllBytes(bs) + Blocks(tail, tag) <==>
            forall i :: 0 <= i < |bs| ==> MarkerFree(bs[i].lead, Begin(tag))
  {
    if i :| 0 <= i < |bs| && !MarkerFree(bs[i].lead, Begin(tag)) {
      BlockMissing(bs, i, tail, tag);
    } else {
      forall i | 0 <= i < |bs| ensures MarkerFree(bs[i].body, End(tag)) { BodyFree(bs[i], tag); }
      BlocksOfFile(bs, tail, tag);
    }
  }

  // ---- wrapping

  lemma LinesCut(s: string, n: nat)
    requires s != [] && n == if |s| <= COLUMNS then |s| else COLUMNS
    ensures Lines(s) == s[..n] + "\n" + Lines(s[n..])
  {
    if |s| <= COLUMNS { assert s[..n] == s && s[n..] == []; }
  }

  predicate Solid(s: string) { forall i :: 0 <= i < |s| ==> !IsWhitespace(s[i]) && s[i] != '-' }

  lemma LineContent(line: string, rest: string)
    requires Solid(line)
    ensures DropWhitespace(line + "\n" + rest) == line + DropWhitespace(rest)
  {
    DropWhitespaceAppend(line + "\n", rest);
    NewlineGone(line);
  }

  lemma NewlineGone(line: string)
    requires Solid(line)
    ensures DropWhitespace(line + "\n") == line
  {
    DropWhitespaceAppend(line, "\n");
    DropWhitespaceNone(line);
    assert DropWhitespace("\n") == [];
  }

  lemma LineDashFree(line: string, rest: string)
    requires Solid(line) && DashFree(rest)
    ensures DashFree(line + "\n" + rest)
  {
  }

  lemma {:induction false} LinesContent(s: string)
    requires Solid(s)
    ensures DropWhitespace(Lines(s)) == s && DashFree(Lines(s))
    decreases |s|
  {
    if s != [] {
      var n := if |s| <= COLUMNS then |s| else COLUMNS;
      LinesContent(s[n..]);
      LinesCut(s, n);
      LineContent(s[..n], Lines(s[n..]));
      LineDashFree(s[..n], Lines(s[n..]));
      assert s == s[..n] + s[n..];
    }
  }

  lemma WrappedBodyContent(e: string)
    requires Solid(e)
    ensures Trim(DropWhitespace("\n" + Lines(e))) == e && DashFree("\n" + Lines(e))
  {
    LinesContent(e);
    DropWhitespaceAppend("\n", Lines(e));
    assert DropWhitespace("\n") == [];
    assert [] + e == e;
    TrimNone(e);
  }

  lemma WrappedBodyBytes(b: seq<byte>)
    ensures BodyBytes(WrappedBody(b)) == [b] && DashFree(WrappedBody(b))
  {
    Base64.EncodeChars(b);
    WrappedBodyContent(Base64.Encode(b));
    Base64.DecodeEncode(b);
  }

  /** A block at the start of the text. */
  lemma ScanBlock(body: string, rest: string, tag: string)
    requires DashFree(body)
    ensures Blocks(Begin(tag) + body + End(tag) + rest, tag) == BodyBytes(body) + Blocks(rest, tag)
  {
    DashFreeIsMarkerFree(body, End(tag));
    BlockStep([], body, rest, Begin(tag), End(tag), BodyBytes);
    assert [] + Begin(tag) == Begin(tag);
  }

  lemma NewlineIsNoBlock(tag: string)
    ensures Blocks("\n", tag) == []
  {
    assert Find("\n", Begin(tag)).None?;
  }

  /** Wrapping and scanning is the identity on every byte string. */
  lemma ScanWrapped(b: seq<byte>, tag: string)
    ensures Blocks(Begin(tag) + WrappedBody(b) + End(tag) + "\n", tag) == [b]
  {
    WrappedBodyBytes(b);
    ScanBlock(WrappedBody(b), "\n", tag);
    NewlineIsNoBlock(tag);
  }

  /** The same through the adapter's own code. */
  method WrapThenScan(raw: seq<byte>) returns (out: seq<seq<byte>>)
    ensures out == [raw]
  {
    var pem := WrapKey(raw);
    out := PemBlocks(pem, "PRIVATE KEY");
    ScanWrapped(raw, "PRIVATE KEY");
  }
}
