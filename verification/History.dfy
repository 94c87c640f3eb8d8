/** HistoryRead with continuation points: the paging of the Rust server and the clients that follow it. */
module History {
  import opened Prelude

  // ---- the server

  datatype Status = Good | Uncertain | BadHistoryOperationUnsupported | BadContinuationPointInvalid | OtherBad

  predicate IsBad(s: Status) { s != Good && s != Uncertain }

  /** A continuation point that the server issued, or one it does not know. */
  datatype Cp = At(offset: nat) | Foreign

  datatype Sample = Sample(time: int, value: int)

  datatype Details = Details(start: Option<int>, end: Option<int>, num: nat, modified: bool)

  datatype HistoryNode = HistoryNode(isTemperature: bool, cp: Option<Cp>)

  /** The result of one node, or a fault of the whole service. */
  datatype Answer<T> = Page(status: Status, items: seq<T>, next: Option<Cp>) | ServiceFault(status: Status)

  predicate Within(d: Details, s: Sample) {
    (d.start.None? || s.time >= d.start.value) && (d.end.None? || s.time <= d.end.value)
  }

  function InRange(samples: seq<Sample>, d: Details): seq<Sample> {
    if samples == [] then []
    else
      var r := InRange(samples[..|samples| - 1], d);
      if Within(d, samples[|samples| - 1]) then r + [samples[|samples| - 1]] else r
  }

  /** One page of `r` from a continuation point on; 0 values asked for means all of them. */
  function Read<T>(r: seq<T>, n: nat, cp: Option<Cp>): Answer<T> {
    if cp == Some(Foreign) || (cp.Some? && cp.value.offset > |r|) then Page(BadContinuationPointInvalid, [], None)
    else
      var from := if cp.Some? then cp.value.offset else 0;
      var to := if n == 0 || from + n > |r| then |r| else from + n;
      Page(Good, r[from..to], if to < |r| then Some(At(to)) else None)
  }

  function NodeAnswer(samples: seq<Sample>, d: Details, node: HistoryNode): Answer<Sample> {
    if d.modified || !node.isTemperature then Page(BadHistoryOperationUnsupported, [], None)
    else Read(InRange(samples, d), d.num, node.cp)
  }

  method Filter(samples: seq<Sample>, d: Details) returns (r: seq<Sample>)
    ensures r == InRange(samples, d)
  {
    r := [];
    for i := 0 to |samples|
      invariant r == InRange(samples[..i], d)
    {
      assert samples[..i + 1][..i] == samples[..i];
      if Within(d, samples[i]) {
        r := r + [samples[i]];
      }
    }
    assert samples[..|samples|] == samples;
  }

  /** What an answer says about a sample, by its time alone. */
  ghost predicate AnswerHolds(samples: seq<Sample>, d: Details, node: HistoryNode, a: Answer<Sample>, s: Sample) {
    && a.Page?
    && (s in a.items ==> s in samples && node.isTemperature && !d.modified)
    && (s in a.items ==> (d.start.Some? ==> d.start.value <= s.time) && (d.end.Some? ==> s.time <= d.end.value))
    && (s in samples && (d.start.Some? ==> d.start.value <= s.time) && (d.end.Some? ==> s.time <= d.end.value) ==>
          node.isTemperature && !d.modified && node.cp.None? && d.num == 0 ==> s in a.items)
  }

  /** The service. A page holds samples between the two times, both included; a read of all values from the start
      holds every one of them. */
  method HistoryReadRawModified(samples: seq<Sample>, d: Details, nodes: seq<HistoryNode>)
    returns (results: seq<Answer<Sample>>)
    ensures |results| == |nodes|
    ensures forall i :: 0 <= i < |nodes| ==> results[i] == NodeAnswer(samples, d, nodes[i]) && results[i].Page?
    ensures forall i, s :: 0 <= i < |nodes| ==> AnswerHolds(samples, d, nodes[i], results[i], s)
  {
    results := [];
    for i := 0 to |nodes|
      invariant |results| == i
      invariant forall j :: 0 <= j < i ==> results[j] == NodeAnswer(samples, d, nodes[j])
    {
      var node := nodes[i];
      if d.modified || !node.isTemperature {
        results := results + [Page(BadHistoryOperationUnsupported, [], None)];
        continue;
      }
      var inRange := Filter(samples, d);
      var offset := 0;
      if node.cp.Some? {
        if node.cp.value.Foreign? {
          results := results + [Page(BadContinuationPointInvalid, [], None)];
          continue;
        }
        offset := node.cp.value.offset;
      }
      if offset > |inRange| {
        results := results + [Page(BadContinuationPointInvalid, [], None)];
        continue;
      }
      var per := if d.num == 0 then |inRange| else d.num;
      var endIdx := if offset + per <= |inRange| then offset + per else |inRange|;
      var next: Option<Cp> := None;
      if endIdx < |inRange| {
        next := Some(At(endIdx));
      }
      results := results + [Page(Good, inRange[offset..endIdx], next)];
    }
    forall i, s | 0 <= i < |nodes| ensures AnswerHolds(samples, d, nodes[i], results[i], s) {
      AnswerIs(samples, d, nodes[i], s);
    }
  }

  // ---- what every read in range returns

  /** The filter keeps exactly the samples in range, each at its place. */
  lemma {:induction false} InRangeSplits(a: seq<Sample>, s: Sample, b: seq<Sample>, d: Details)
    ensures InRange(a + [s] + b, d) ==
            InRange(a, d) +
            (if (d.start.None? || d.start.value <= s.time) && (d.end.None? || s.time <= d.end.value) then [s] else []) +
            InRange(b, d)
  {
    var t := a + [s];
    if b == [] {
      assert t + b == t && t[..|a|] == a;
    } else {
      InRangeSplits(a, s, b[..|b| - 1], d);
      assert (t + b)[..|t + b| - 1] == t + b[..|b| - 1];
    }
  }

  /** The filter keeps a sample exactly if it lies between the two times, both included. */
  lemma {:induction false} InRangeIs(samples: seq<Sample>, d: Details, s: Sample)
    ensures s in InRange(samples, d) <==>
            s in samples && (d.start.None? || d.start.value <= s.time) && (d.end.None? || s.time <= d.end.value)
  {
    if samples != [] {
      var t := samples[..|samples| - 1];
      InRangeIs(t, d, s);
      assert samples == t + [samples[|samples| - 1]];
    }
  }

  lemma AnswerIs(samples: seq<Sample>, d: Details, node: HistoryNode, s: Sample)
    ensures AnswerHolds(samples, d, node, NodeAnswer(samples, d, node), s)
  {
    InRangeIs(samples, d, s);
    var r := InRange(samples, d);
    assert r[0..|r|] == r;
  }

  /** A range with both ends at one time holds the samples of that time and no others, each at its place. */
  lemma {:induction false} InstantIs(samples: seq<Sample>, time: int)
    ensures var d := Details(Some(time), Some(time), 0, false);
            && NodeAnswer(samples, d, HistoryNode(true, None)).items == InRange(samples, d)
            && (forall s :: s in InRange(samples, d) <==> s in samples && s.time == time)
  {
    var d := Details(Some(time), Some(time), 0, false);
    forall s ensures s in InRange(samples, d) <==> s in samples && s.time == time { InRangeIs(samples, d, s); }
  }

  // ---- following continuation points

  function Next<T>(a: Answer<T>): Option<Cp> { if a.Page? then a.next else None }

  /** The answers to following the continuation points, at most `k` of them. */
  function Followed<T>(read: Option<Cp> -> Answer<T>, cp: Option<Cp>, k: nat,
                       stops: Answer<T> -> bool): (r: seq<Answer<T>>)
    ensures |r| <= k && (k > 0 ==> |r| > 0)
    decreases k
  {
    if k == 0 then []
    else
      var a := read(cp);
      if stops(a) || Next(a).None? then [a] else [a] + Followed(read, Next(a), k - 1, stops)
  }

  function Items<T>(pages: seq<Answer<T>>): seq<T> {
    if pages == [] then [] else (if pages[0].Page? then pages[0].items else []) + Items(pages[1..])
  }

  /** The last continuation point among the answers. */
  function LastIssued<T>(pages: seq<Answer<T>>): Option<Cp> {
    if pages == [] then None
    else if Next(pages[|pages| - 1]).Some? then Next(pages[|pages| - 1])
    else LastIssued(pages[..|pages| - 1])
  }

  /** The continuation point of the last answer. */
  function LastNext<T>(pages: seq<Answer<T>>): Option<Cp> {
    if pages == [] then None else Next(pages[|pages| - 1])
  }

  function LastStatus<T>(pages: seq<Answer<T>>): Status {
    if pages == [] then Good else pages[|pages| - 1].status
  }

  lemma {:induction false} ItemsSnoc<T>(pages: seq<Answer<T>>, a: Answer<T>)
    ensures Items(pages + [a]) == if a.Page? then Items(pages) + a.items else Items(pages)
  {
    if pages == [] {
      assert pages + [a] == [a];
    } else {
      assert (pages + [a])[1..] == pages[1..] + [a];
      ItemsSnoc(pages[1..], a);
    }
  }

  lemma LastSnoc<T>(pages: seq<Answer<T>>, a: Answer<T>)
    ensures LastIssued(pages + [a]) == if Next(a).Some? then Next(a) else LastIssued(pages)
    ensures LastStatus(pages + [a]) == a.status && LastNext(pages + [a]) == Next(a)
  {
    assert (pages + [a])[..|pages|] == pages;
  }

  predicate Faulted<T>(pages: seq<Answer<T>>) { pages != [] && pages[|pages| - 1].ServiceFault? }

  predicate GoStops<T>(a: Answer<T>) { false }

  predicate RustStops<T>(a: Answer<T>) { a.status != Good }

  predicate CsStops<T>(a: Answer<T>) { a.ServiceFault? || IsBad(a.status) }

  /** The answers whose continuation point counts: the one that stops a client is not looked at. */
  function Counted<T>(pages: seq<Answer<T>>, stops: Answer<T> -> bool): seq<Answer<T>> {
    if pages != [] && stops(pages[|pages| - 1]) then pages[..|pages| - 1] else pages
  }

  lemma CountedSnoc<T>(pages: seq<Answer<T>>, a: Answer<T>, stops: Answer<T> -> bool)
    ensures Counted(pages + [a], stops) == if stops(a) then pages else pages + [a]
  {
    assert (pages + [a])[..|pages|] == pages;
  }

  /** A loop over the answers has read `pages` and goes on at `cp`. */
  ghost predicate Reading<T>(read: Option<Cp> -> Answer<T>, from: Option<Cp>, k: nat, stops: Answer<T> -> bool,
                             pages: seq<Answer<T>>, cp: Option<Cp>) {
    |pages| <= k && Followed(read, from, k, stops) == pages + Followed(read, cp, k - |pages|, stops)
  }

  lemma ReadingStep<T>(read: Option<Cp> -> Answer<T>, from: Option<Cp>, k: nat, stops: Answer<T> -> bool,
                       pages: seq<Answer<T>>, cp: Option<Cp>)
    requires Reading(read, from, k, stops, pages, cp) && |pages| < k
    ensures var a := read(cp);
            if stops(a) || Next(a).None? then Followed(read, from, k, stops) == pages + [a]
            else Reading(read, from, k, stops, pages + [a], Next(a))
  {
    var a := read(cp);
    if !(stops(a) || Next(a).None?) {
      var rest := Followed(read, Next(a), k - |pages| - 1, stops);
      assert pages + ([a] + rest) == (pages + [a]) + rest;
    }
  }

  predicate GoesOn<T>(a: Answer<T>, stops: Answer<T> -> bool) { !stops(a) && Next(a).Some? }

  /** Where a client reads on. */
  function PointAfter<T>(from: Option<Cp>, pages: seq<Answer<T>>): Option<Cp> {
    if pages == [] then from else Next(pages[|pages| - 1])
  }

  /** Each answer is to the continuation point of the one before it. */
  predicate Chain<T(==)>(read: Option<Cp> -> Answer<T>, from: Option<Cp>, stops: Answer<T> -> bool,
                         pages: seq<Answer<T>>)
    decreases |pages|, 0
  {
    pages == [] ||
    var t, a := pages[..|pages| - 1], pages[|pages| - 1];
    Open(read, from, stops, t) && a == read(PointAfter(from, t))
  }

  /** The client reads on. */
  predicate Open<T(==)>(read: Option<Cp> -> Answer<T>, from: Option<Cp>, stops: Answer<T> -> bool,
                        pages: seq<Answer<T>>)
    decreases |pages|, 1
  {
    Chain(read, from, stops, pages) && (pages == [] || GoesOn(pages[|pages| - 1], stops))
  }

  lemma ChainStep<T>(read: Option<Cp> -> Answer<T>, from: Option<Cp>, stops: Answer<T> -> bool, pages: seq<Answer<T>>,
                     a: Answer<T>)
    requires Open(read, from, stops, pages) && a == read(PointAfter(from, pages))
    ensures Chain(read, from, stops, pages + [a]) && PointAfter(from, pages + [a]) == Next(a)
    ensures GoesOn(a, stops) ==> Open(read, from, stops, pages + [a])
  {
    assert (pages + [a])[..|pages|] == pages;
  }

  lemma {:induction false} OpenIsReading<T>(read: Option<Cp> -> Answer<T>, from: Option<Cp>, k: nat,
                                            stops: Answer<T> -> bool, pages: seq<Answer<T>>)
    requires Open(read, from, stops, pages) && |pages| <= k
    ensures Reading(read, from, k, stops, pages, PointAfter(from, pages))
  {
    if pages == [] {
      assert pages + Followed(read, from, k, stops) == Followed(read, from, k, stops);
    } else {
      var t := pages[..|pages| - 1];
      OpenIsReading(read, from, k, stops, t);
      ReadingStep(read, from, k, stops, t, PointAfter(from, t));
      assert pages == t + [pages[|pages| - 1]];
    }
  }

  /** A chain that cannot go on is the run of the client. */
  lemma ChainIsFollowed<T>(read: Option<Cp> -> Answer<T>, from: Option<Cp>, k: nat, stops: Answer<T> -> bool,
                           pages: seq<Answer<T>>)
    requires Chain(read, from, stops, pages) && |pages| <= k
    requires |pages| == k || (pages != [] && !GoesOn(pages[|pages| - 1], stops))
    ensures Followed(read, from, k, stops) == pages
  {
    if pages != [] {
      var t := pages[..|pages| - 1];
      OpenIsReading(read, from, k, stops, t);
      ReadingStep(read, from, k, stops, t, PointAfter(from, t));
      assert pages == t + [pages[|pages| - 1]];
      assert pages + [] == pages;
    }
  }

  /** The variables of a client after the answers `pages`. */
  ghost predicate Kept<T>(pages: seq<Answer<T>>, all: seq<T>, last: Option<Cp>, status: Status) {
    all == Items(pages) && last == LastIssued(pages) && status == LastStatus(pages)
  }

  lemma KeptStep<T>(pages: seq<Answer<T>>, all: seq<T>, last: Option<Cp>, status: Status, a: Answer<T>)
    requires Kept(pages, all, last, status)
    ensures LastNext(pages + [a]) == Next(a)
    ensures Kept(pages + [a], if a.Page? then all + a.items else all, if Next(a).Some? then Next(a) else last, a.status)
  {
    ItemsSnoc(pages, a);
    LastSnoc(pages, a);
  }

  /** What a client reports. */
  datatype Scenario<T> = Scenario(pages: seq<Answer<T>>, all: seq<T>, status: Status, released: Option<Option<Cp>>,
                                  reused: Option<Cp>)

  lemma FaultEnds<T>(read: Option<Cp> -> Answer<T>, from: Option<Cp>, k: nat, pages: seq<Answer<T>>, a: Answer<T>)
    requires Open(read, from, GoStops, pages) && a == read(PointAfter(from, pages)) && a.ServiceFault? && |pages| < k
    ensures var f := Followed(read, from, k, GoStops); Faulted(f) && LastStatus(f) == a.status
  {
    ChainStep(read, from, GoStops, pages, a);
    ChainIsFollowed(read, from, k, GoStops, pages + [a]);
  }

  /** Go: follows the points up to a fault of the service; `reused` is the last point the server returned. */
  method GoFollow<T>(read: Option<Cp> -> Answer<T>, maxPages: nat) returns (r: Result<Scenario<T>, Status>)
    ensures var pages := Followed(read, None, maxPages, GoStops);
            if Faulted(pages) then r == Err(LastStatus(pages))
            else r == Ok(Scenario(pages, Items(pages), LastStatus(pages), None, LastIssued(pages)))
  {
    var pages: seq<Answer<T>>, all: seq<T> := [], [];
    var cp: Option<Cp>, last: Option<Cp>, status := None, None, Good;
    var n := 0;
    while n < maxPages
      invariant n == |pages| <= maxPages && Open(read, None, GoStops, pages) && cp == PointAfter(None, pages)
      invariant Kept(pages, all, last, status)
      invariant !Faulted(pages)
    {
      var a := read(cp);
      if a.ServiceFault? {
        FaultEnds(read, None, maxPages, pages, a);
        return Err(a.status);
      }
      ChainStep(read, None, GoStops, pages, a);
      KeptStep(pages, all, last, status, a);
      status, pages, all, cp := a.status, pages + [a], all + a.items, a.next;
      if cp.None? {
        break;
      }
      last := cp;
      n := n + 1;
    }
    ChainIsFollowed(read, None, maxPages, GoStops, pages);
    return Ok(Scenario(pages, all, status, None, last));
  }

  /** The fault of a release or of the read after it that ends the Go command. */
  function EndFault<T>(last: Option<Cp>, release: Cp -> Result<Status, Status>,
                       again: Cp -> Answer<T>): Option<Status> {
    if last.None? then None
    else if release(last.value).Err? then Some(release(last.value).error)
    else if again(last.value).ServiceFault? then Some(again(last.value).status)
    else None
  }

  /** Go: releases the last point the server returned and sends it again; a fault of any of these calls is an
      error. `ends` are the statuses of the release and of the read after it. */
  method GoContinue<T>(read: Option<Cp> -> Answer<T>, maxPages: nat, release: Cp -> Result<Status, Status>,
                       again: Cp -> Answer<T>)
    returns (r: Result<Scenario<T>, Status>, ends: Option<(Status, Status)>)
    ensures var pages := Followed(read, None, maxPages, GoStops);
            var last := LastIssued(pages);
            var fault := if Faulted(pages) then Some(LastStatus(pages)) else EndFault(last, release, again);
            if fault.Some? then r == Err(fault.value)
            else
              && r == Ok(Scenario(pages, Items(pages), LastStatus(pages),
                                  if last.Some? then Some(last) else None, last))
              && (last.None? ==> ends.None?)
              && (last.Some? ==> ends == Some((release(last.value).value, again(last.value).status)))
  {
    ends := None;
    r := GoFollow(read, maxPages);
    if r.Err? || r.value.reused.None? {
      return;
    }
    var last := r.value.reused.value;
    var released := release(last);
    if released.Err? {
      return Err(released.error), None;
    }
    var a := again(last);
    if a.ServiceFault? {
      return Err(a.status), None;
    }
    return Ok(r.value.(released := Some(Some(last)))), Some((released.value, a.status));
  }

  /** Rust: a point left over is released, otherwise the null point. */
  method RustFollow<T>(read: Option<Cp> -> Answer<T>, limit: nat) returns (r: Scenario<T>)
    requires limit > 0
    ensures r.pages == Followed(read, None, limit, RustStops)
    ensures r.all == Items(r.pages) && r.status == LastStatus(r.pages)
    ensures var p := Counted(r.pages, RustStops); r.released == Some(LastNext(p)) && r.reused == LastIssued(p)
  {
    var pages: seq<Answer<T>>, all: seq<T> := [], [];
    var cp: Option<Cp>, last: Option<Cp>, status := None, None, Good;
    var i := 0;
    while i < limit
      invariant i == |pages| <= limit && Open(read, None, RustStops, pages) && cp == PointAfter(None, pages)
      invariant Kept(pages, all, last, status)
      invariant cp == last == LastNext(pages) && Counted(pages, RustStops) == pages
    {
      var a := read(cp);
      ChainStep(read, None, RustStops, pages, a);
      KeptStep(pages, all, last, status, a);
      CountedSnoc(pages, a, RustStops);
      status, pages := a.status, pages + [a];
      if a.Page? {
        all := all + a.items;
      }
      if status != Good {
        break;
      }
      cp := Next(a);
      if cp.Some? {
        last := cp;
      } else {
        break;
      }
      i := i + 1;
    }
    ChainIsFollowed(read, None, limit, RustStops, pages);
    if cp.Some? {
      return Scenario(pages, all, status, Some(cp), cp);
    }
    return Scenario(pages, all, status, Some(None), last);
  }

  /** The most pages of the raw read of each client, and the page size when the caller asks for 0 values. */
  const RUST_PAGES: nat := 8
  const CS_PAGES: nat := 8
  const GO_PAGES: nat := 64

  function PageSize(num: nat): nat { if num == 0 then 2 else num }

  function Sized<T>(server: (nat, Option<Cp>) -> Answer<T>, num: nat): Option<Cp> -> Answer<T> {
    (cp: Option<Cp>) => server(PageSize(num), cp)
  }

  /** The raw read of the Rust client. */
  method RustContinue<T>(server: (nat, Option<Cp>) -> Answer<T>, num: nat) returns (r: Scenario<T>)
    ensures r.pages == Followed(Sized(server, num), None, RUST_PAGES, RustStops)
    ensures r.all == Items(r.pages) && r.status == LastStatus(r.pages)
    ensures var p := Counted(r.pages, RustStops); r.released == Some(LastNext(p)) && r.reused == LastIssued(p)
  {
    r := RustFollow(Sized(server, num), RUST_PAGES);
  }

  /** The raw read of the C# client stops like that of Rust, but releases the last point even if it is used up. */
  method CsRawContinue<T>(server: (nat, Option<Cp>) -> Answer<T>, num: nat) returns (r: Scenario<T>)
    ensures r.pages == Followed(Sized(server, num), None, CS_PAGES, RustStops)
    ensures r.all == Items(r.pages) && r.status == LastStatus(r.pages)
    ensures r.reused == LastIssued(Counted(r.pages, RustStops)) && r.released == Some(r.reused)
  {
    var read := Sized(server, num);
    var pages: seq<Answer<T>>, all: seq<T> := [], [];
    var cur: Option<Cp>, last: Option<Cp>, status := None, None, Good;
    var i := 0;
    while i < CS_PAGES
      invariant i == |pages| <= CS_PAGES && Open(read, None, RustStops, pages) && cur == PointAfter(None, pages)
      invariant Kept(pages, all, last, status) && Counted(pages, RustStops) == pages
    {
      var a := read(cur);
      ChainStep(read, None, RustStops, pages, a);
      KeptStep(pages, all, last, status, a);
      CountedSnoc(pages, a, RustStops);
      status, pages := a.status, pages + [a];
      if a.Page? {
        all := all + a.items;
      }
      if status != Good || Next(a).None? {
        break;
      }
      cur := Next(a);
      last := cur;
      i := i + 1;
    }
    ChainIsFollowed(read, None, CS_PAGES, RustStops, pages);
    return Scenario(pages, all, status, Some(last), last);
  }

  /** The raw read of the Go client. */
  method GoRawContinue<T>(server: (nat, Option<Cp>) -> Answer<T>, num: nat, release: Cp -> Result<Status, Status>,
                          again: Cp -> Answer<T>)
    returns (r: Result<Scenario<T>, Status>, ends: Option<(Status, Status)>)
    ensures var pages := Followed(Sized(server, num), None, GO_PAGES, GoStops);
            && (r.Err? <==> Faulted(pages) || EndFault(LastIssued(pages), release, again).Some?)
            && (r.Ok? ==> r.value.pages == pages && r.value.all == Items(pages))
  {
    r, ends := GoContinue(Sized(server, num), GO_PAGES, release, again);
  }

  /** C#: stops at a Bad page, releases and reuses the last point received. */
  method CsContinue<T>(read: Option<Cp> -> Answer<T>, from: Option<Cp>, maxPages: nat) returns (r: Scenario<T>)
    requires maxPages > 0
    ensures r.pages == Followed(read, from, maxPages, CsStops)
    ensures r.all == Items(r.pages) && r.status == LastStatus(r.pages)
    ensures r.reused == LastIssued(Counted(r.pages, CsStops))
    ensures r.released == if r.reused.None? then None else Some(r.reused)
  {
    var pages: seq<Answer<T>>, all: seq<T> := [], [];
    var cur, last: Option<Cp>, status := from, None, Good;
    var i := 0;
    while i < maxPages
      invariant i == |pages| <= maxPages && Open(read, from, CsStops, pages) && cur == PointAfter(from, pages)
      invariant Kept(pages, all, last, status) && Counted(pages, CsStops) == pages
    {
      var a := read(cur);
      ChainStep(read, from, CsStops, pages, a);
      KeptStep(pages, all, last, status, a);
      CountedSnoc(pages, a, CsStops);
      status, pages := a.status, pages + [a];
      if a.Page? {
        all := all + a.items;
      }
      if CsStops(a) {
        break;
      }
      cur := Next(a);
      if cur.None? {
        break;
      }
      last := cur;
      i := i + 1;
    }
    ChainIsFollowed(read, from, maxPages, CsStops, pages);
    return Scenario(pages, all, status, if last.None? then None else Some(last), last);
  }

  // ---- paging refines one unpaged read

  function Reader<T>(r: seq<T>, n: nat): Option<Cp> -> Answer<T> { (cp: Option<Cp>) => Read(r, n, cp) }

  /** Where a page of `n` values from `from` ends. */
  function PageEnd(len: nat, n: nat, from: nat): (to: nat)
    requires from <= len
    ensures from <= to <= len
  {
    if n == 0 || from + n > len then len else from + n
  }

  /** The pages from an offset on. */
  function Pages<T>(r: seq<T>, n: nat, from: nat, k: nat): seq<Answer<T>>
    requires from <= |r|
    decreases k
  {
    if k == 0 then []
    else
      var to := PageEnd(|r|, n, from);
      if to < |r| then [Page(Good, r[from..to], Some(At(to)))] + Pages(r, n, to, k - 1)
      else [Page(Good, r[from..to], None)]
  }

  lemma ReadsPage<T>(r: seq<T>, n: nat, cp: Option<Cp>)
    requires cp.Some? ==> cp.value.At? && cp.value.offset <= |r|
    ensures var from := if cp.Some? then cp.value.offset else 0;
            var to := PageEnd(|r|, n, from);
            Reader(r, n)(cp) == Page(Good, r[from..to], if to < |r| then Some(At(to)) else None)
  {
  }

  /** A client that does not stop at Good pages reads exactly these, so all three read the same. */
  lemma {:induction false} FollowedIsPages<T>(r: seq<T>, n: nat, cp: Option<Cp>, k: nat, stops: Answer<T> -> bool)
    requires cp.Some? ==> cp.value.At? && cp.value.offset <= |r|
    requires forall a: Answer<T> :: a.status == Good && a.Page? ==> !stops(a)
    ensures Followed(Reader(r, n), cp, k, stops) == Pages(r, n, if cp.Some? then cp.value.offset else 0, k)
    decreases k
  {
    if k > 0 {
      var from := if cp.Some? then cp.value.offset else 0;
      var to := PageEnd(|r|, n, from);
      ReadsPage(r, n, cp);
      if to < |r| {
        FollowedIsPages(r, n, Some(At(to)), k - 1, stops);
      }
    }
  }

  /** How far `k` pages reach. */
  function Reach(len: nat, n: nat, from: nat, k: nat): (to: nat)
    requires from <= len
    ensures from <= to <= len
  {
    if k == 0 then from else if n == 0 || from + Times(k, n) > len then len else from + Times(k, n)
  }

  /** The values of the pages, put together, are the values in range, in order, up to the page limit. */
  lemma {:induction false} PagesAreTheRead<T>(r: seq<T>, n: nat, from: nat, k: nat)
    requires from <= |r|
    ensures Items(Pages(r, n, from, k)) == r[from..Reach(|r|, n, from, k)]
    decreases k
  {
    if k > 0 {
      var to := PageEnd(|r|, n, from);
      if to < |r| {
        ItemsCons(Page(Good, r[from..to], Some(At(to))), Pages(r, n, to, k - 1));
        PagesAreTheRead(r, n, to, k - 1);
        SlicesJoin(r, from, to, Reach(|r|, n, to, k - 1));
      } else {
        ItemsCons(Page(Good, r[from..to], None), []);
        TimesPositive(k, n);
      }
    }
  }

  lemma ItemsCons<T>(p: Answer<T>, rest: seq<Answer<T>>)
    requires p.Page?
    ensures Items([p] + rest) == p.items + Items(rest)
    ensures rest == [] ==> Items([p]) == p.items
  {
    assert ([p] + rest)[1..] == rest;
    assert [p] + [] == [p];
  }

  lemma SlicesJoin<T>(r: seq<T>, a: nat, b: nat, c: nat)
    requires a <= b <= c <= |r|
    ensures r[a..b] + r[b..c] == r[a..c]
  {
  }

  lemma TimesPositive(k: nat, n: nat)
    requires k > 0
    ensures Times(k, n) >= n
  {
  }

  /** The number of pages: one for nothing, else as many as the values fill. */
  function PageCount(len: nat, n: nat): (m: nat)
    requires n > 0
    ensures m > 0
  {
    if len <= n then 1 else 1 + PageCount(len - n, n)
  }

  /** It is the length divided by the page size, rounded up. */
  lemma {:induction false} PageCountIs(len: nat, n: nat)
    requires n > 0
    ensures len == 0 ==> PageCount(len, n) == 1
    ensures len > 0 ==> Times(PageCount(len, n) - 1, n) < len <= Times(PageCount(len, n), n)
  {
    if len > n {
      PageCountIs(len - n, n);
    }
  }

  /** Following takes as many requests as there are pages, or stops at the limit. */
  lemma {:induction false} PagesCount<T>(r: seq<T>, n: nat, from: nat, k: nat)
    requires from <= |r|
    ensures |Pages(r, n, from, k)| ==
            if n == 0 then if k == 0 then 0 else 1
            else if k < PageCount(|r| - from, n) then k else PageCount(|r| - from, n)
    decreases k
  {
    if k > 0 && PageEnd(|r|, n, from) < |r| {
      PagesCount(r, n, PageEnd(|r|, n, from), k - 1);
    }
  }

  /** Every page but the last is full, and every point issued lies strictly inside the range and
      strictly after the one before; only the last page can be without one. */
  lemma {:induction false} PagesAreFull<T>(r: seq<T>, n: nat, from: nat, k: nat, i: nat)
    requires from <= |r| && i < |Pages(r, n, from, k)|
    ensures var p := Pages(r, n, from, k)[i];
            && p.Page? && p.status == Good
            && (i < |Pages(r, n, from, k)| - 1 ==> p.next.Some?)
            && (p.next.Some? ==> |p.items| == n > 0 && p.next.value.At? && from < p.next.value.offset < |r|)
            && (p.next.None? && n > 0 ==> |p.items| <= n)
    decreases k
  {
    if i > 0 {
      PagesAreFull(r, n, PageEnd(|r|, n, from), k - 1, i - 1);
    }
  }

  lemma {:induction false} PointsIncrease<T>(r: seq<T>, n: nat, from: nat, k: nat, i: nat)
    requires from <= |r| && i + 1 < |Pages(r, n, from, k)| && Next(Pages(r, n, from, k)[i + 1]).Some?
    ensures var p, q := Next(Pages(r, n, from, k)[i]), Next(Pages(r, n, from, k)[i + 1]);
            p.Some? && p.value.At? && q.value.At? && p.value.offset < q.value.offset
    decreases k
  {
    var to := PageEnd(|r|, n, from);
    if i == 0 {
      PagesAreFull(r, n, to, k - 1, 0);
    } else {
      PointsIncrease(r, n, to, k - 1, i - 1);
    }
  }

  /** With enough requests allowed, paging gives exactly the unpaged read, whichever client does it. */
  lemma PagingIsUnpaged<T>(r: seq<T>, n: nat, k: nat)
    requires k > 0 && (n > 0 ==> PageCount(|r|, n) <= k)
    ensures Items(Pages(r, n, 0, k)) == Read(r, 0, None).items == r
    ensures LastNext(Pages(r, n, 0, k)).None?
  {
    PagesAreTheRead(r, n, 0, k);
    if n > 0 {
      CountCovers(|r|, n, k);
    }
    LastHasNoPoint(r, n, 0, k);
  }

  lemma {:induction false} CountCovers(len: nat, n: nat, k: nat)
    requires n > 0 && PageCount(len, n) <= k
    ensures Times(k, n) >= len
  {
    if len > n {
      CountCovers(len - n, n, k - 1);
    } else {
      TimesPositive(k, n);
    }
  }

  lemma {:induction false} LastHasNoPoint<T>(r: seq<T>, n: nat, from: nat, k: nat)
    requires from <= |r| && k > 0 && (n > 0 ==> PageCount(|r| - from, n) <= k)
    ensures |Pages(r, n, from, k)| > 0 && LastNext(Pages(r, n, from, k)).None?
    decreases k
  {
    var to := PageEnd(|r|, n, from);
    if to < |r| {
      LastHasNoPoint(r, n, to, k - 1);
    }
  }

  // ---- the clients compared

  /** A client whose limit covers the pages reads the same pages with every higher limit. */
  lemma {:induction false} EnoughRequests<T>(r: seq<T>, n: nat, from: nat, k: nat, l: nat)
    requires from <= |r| && n > 0 && PageCount(|r| - from, n) <= k <= l
    ensures Pages(r, n, from, k) == Pages(r, n, from, l)
    decreases k
  {
    var to := PageEnd(|r|, n, from);
    if to < |r| {
      EnoughRequests(r, n, to, k - 1, l - 1);
    }
  }

  /** Two limits show the same pages exactly when the lower one covers them, and the same values then too. */
  lemma LimitsAgree<T>(r: seq<T>, n: nat, k: nat, l: nat)
    requires n > 0 && 0 < k < l
    ensures Pages(r, n, 0, k) == Pages(r, n, 0, l) <==> PageCount(|r|, n) <= k
    ensures Items(Pages(r, n, 0, k)) == Items(Pages(r, n, 0, l)) <==> PageCount(|r|, n) <= k
  {
    if PageCount(|r|, n) <= k {
      EnoughRequests(r, n, 0, k, l);
    } else {
      PagesAreTheRead(r, n, 0, k);
      PagesAreTheRead(r, n, 0, l);
      MoreReached(|r|, n, k, l);
    }
  }

  lemma MoreReached(len: nat, n: nat, k: nat, l: nat)
    requires n > 0 && 0 < k < l && k < PageCount(len, n)
    ensures Reach(len, n, 0, k) < Reach(len, n, 0, l)
  {
    PageCountIs(len, n);
    TimesGrows(k, PageCount(len, n) - 1, n);
    TimesGrows(k + 1, l, n);
  }

  lemma {:induction false} TimesGrows(k: nat, l: nat, n: nat)
    requires k <= l
    ensures Times(k, n) <= Times(l, n)
  {
    if k < l {
      TimesGrows(k, l - 1, n);
    }
  }

  /** The raw reads: Rust and C# have the same limit, and Go reads the same exactly when eight pages are enough. */
  lemma RawClientsAgree<T>(r: seq<T>, num: nat)
    ensures var n := PageSize(num);
            var rust := Followed(Reader(r, n), None, RUST_PAGES, RustStops);
            var go := Followed(Reader(r, n), None, GO_PAGES, GoStops);
            && rust == Followed(Reader(r, n), None, CS_PAGES, RustStops)
            && (rust == go <==> PageCount(|r|, n) <= RUST_PAGES)
            && (Items(rust) == Items(go) <==> PageCount(|r|, n) <= RUST_PAGES)
  {
    var n := PageSize(num);
    FollowedIsPages(r, n, None, RUST_PAGES, RustStops);
    FollowedIsPages(r, n, None, GO_PAGES, GoStops);
    LimitsAgree(r, n, RUST_PAGES, GO_PAGES);
  }

  /** Seventeen values in pages of two: Rust stops after sixteen, Go reads them all. */
  lemma RawClientsDiffer<T>(r: seq<T>)
    requires |r| == 17
    ensures Items(Followed(Reader(r, 2), None, RUST_PAGES, RustStops)) == r[..16]
    ensures Items(Followed(Reader(r, 2), None, GO_PAGES, GoStops)) == r
  {
    FollowedIsPages(r, 2, None, RUST_PAGES, RustStops);
    FollowedIsPages(r, 2, None, GO_PAGES, GoStops);
    PagesAreTheRead(r, 2, 0, RUST_PAGES);
    PagesAreTheRead(r, 2, 0, GO_PAGES);
    TimesIs(RUST_PAGES, 2);
    TimesIs(GO_PAGES, 2);
    assert r[0..16] == r[..16] && r[0..17] == r;
  }

  /** Go reads 128 values in pages of two, and of 129 the last is missing. */
  lemma GoReadsSixtyFourPages<T>(r: seq<T>)
    requires 128 <= |r| <= 129
    ensures Items(Followed(Reader(r, 2), None, GO_PAGES, GoStops)) == r[..128]
    ensures |Followed(Reader(r, 2), None, GO_PAGES, GoStops)| == 64
  {
    FirstPages(r, 2, GO_PAGES);
  }

  /** When `k` pages are filled, a client that stops after `k` pages reads exactly these. */
  lemma FirstPages<T>(r: seq<T>, n: nat, k: nat)
    requires n > 0 && k > 0 && k * n <= |r|
    ensures Items(Followed(Reader(r, n), None, k, GoStops)) == r[..k * n]
    ensures |Followed(Reader(r, n), None, k, GoStops)| == k
  {
    FollowedIsPages(r, n, None, k, GoStops);
    PagesAreTheRead(r, n, 0, k);
    TimesIs(k, n);
    FilledCount(|r|, n, k);
    PagesCount(r, n, 0, k);
    assert r[0..k * n] == r[..k * n];
  }

  lemma {:induction false} FilledCount(len: nat, n: nat, k: nat)
    requires n > 0 && k > 0 && k * n <= len
    ensures k <= PageCount(len, n)
  {
    if k > 1 {
      assert k * n == (k - 1) * n + n && (k - 1) * n >= n;
      FilledCount(len - n, n, k - 1);
    }
  }

  /** The event reads of Go and C# have one page size and one limit, but only C# starts at a point that is given: they
      read the same pages exactly when none is given or it is the start. */
  lemma EventClientsAgree<T>(r: seq<T>, num: nat, from: Option<Cp>, maxPages: nat)
    ensures Followed(Reader(r, num), None, maxPages, GoStops) == Followed(Reader(r, num), from, maxPages, CsStops) <==>
            maxPages == 0 || from.None? || from == Some(At(0))
  {
    if maxPages > 0 {
      FollowedIsPages(r, num, None, maxPages, GoStops);
      FirstPage(r, num, 0, maxPages);
      if from.None? || (from.value.At? && from.value.offset <= |r|) {
        FollowedIsPages(r, num, from, maxPages, CsStops);
        FirstPage(r, num, if from.Some? then from.value.offset else 0, maxPages);
      } else {
        assert Reader(r, num)(from).status == BadContinuationPointInvalid;
        assert Followed(Reader(r, num), from, maxPages, CsStops)[0] == Reader(r, num)(from);
      }
    }
  }

  /** The first page tells where it starts. */
  lemma FirstPage<T>(r: seq<T>, n: nat, from: nat, k: nat)
    requires from <= |r| && k > 0
    ensures var to, p := PageEnd(|r|, n, from), Pages(r, n, from, k);
            p != [] && p[0].Page? && p[0].status == Good && |p[0].items| == to - from
            && p[0].next == if to < |r| then Some(At(to)) else None
  {
  }

  /** Asked for 0 values, an event read has one page and a raw read pages of two: the same exactly for two values. */
  lemma ZeroIsTwoInRawReads<T>(r: seq<T>, k: nat)
    requires k > 0
    ensures Pages(r, 0, 0, k) == Pages(r, PageSize(0), 0, k) <==> |r| <= 2
  {
    assert Pages(r, 0, 0, k) == [Page(Good, r[0..|r|], None)];
    if |r| > 2 {
      assert Pages(r, 2, 0, k)[0].next.Some?;
    }
  }

  // ---- the clients on the server

  /** What the server answers about the temperature node. */
  function SampleServer(samples: seq<Sample>, d: Details): (nat, Option<Cp>) -> Answer<Sample> {
    (n: nat, cp: Option<Cp>) => NodeAnswer(samples, d.(num := n), HistoryNode(true, cp))
  }

  lemma {:induction false} SameRange(samples: seq<Sample>, d: Details, n: nat)
    ensures InRange(samples, d.(num := n)) == InRange(samples, d)
  {
    if samples != [] {
      SameRange(samples[..|samples| - 1], d, n);
    }
  }

  lemma {:induction false} SameAnswers<T>(read: Option<Cp> -> Answer<T>, other: Option<Cp> -> Answer<T>, cp: Option<Cp>,
                                          k: nat, stops: Answer<T> -> bool)
    requires forall c :: read(c) == other(c)
    ensures Followed(read, cp, k, stops) == Followed(other, cp, k, stops)
    decreases k
  {
    if k > 0 {
      SameAnswers(read, other, Next(read(cp)), k - 1, stops);
    }
  }

  /** Following the server reads the pages of the range. */
  lemma ServerPages(samples: seq<Sample>, d: Details, k: nat, stops: Answer<Sample> -> bool)
    requires !d.modified && forall a: Answer<Sample> :: a.status == Good && a.Page? ==> !stops(a)
    ensures var n := PageSize(d.num);
            Followed(Sized(SampleServer(samples, d), d.num), None, k, stops) == Pages(InRange(samples, d), n, 0, k)
  {
    var n, r := PageSize(d.num), InRange(samples, d);
    SameRange(samples, d, n);
    SameAnswers(Sized(SampleServer(samples, d), d.num), Reader(r, n), None, k, stops);
    FollowedIsPages(r, n, None, k, stops);
  }

  /** The values of the pages are all in range exactly when the limit covers the pages. */
  lemma AllWhenCovered<T>(r: seq<T>, n: nat, k: nat)
    requires n > 0 && k > 0
    ensures Items(Pages(r, n, 0, k)) == r <==> PageCount(|r|, n) <= k
  {
    if PageCount(|r|, n) <= k {
      PagingIsUnpaged(r, n, k);
    } else {
      PagesAreTheRead(r, n, 0, k);
      PageCountIs(|r|, n);
      TimesGrows(k, PageCount(|r|, n) - 1, n);
    }
  }

  /** The Rust command against the server: everything in range exactly if eight pages hold it. */
  method RustRawRead(samples: seq<Sample>, d: Details) returns (r: Scenario<Sample>)
    requires !d.modified
    ensures r.pages == Pages(InRange(samples, d), PageSize(d.num), 0, RUST_PAGES)
    ensures r.all == InRange(samples, d) <==> PageCount(|InRange(samples, d)|, PageSize(d.num)) <= RUST_PAGES
    ensures r.released == Some(LastNext(r.pages)) && r.reused == LastIssued(r.pages)
  {
    ServerPages(samples, d, RUST_PAGES, RustStops);
    AllWhenCovered(InRange(samples, d), PageSize(d.num), RUST_PAGES);
    AllCounted(InRange(samples, d), PageSize(d.num), RUST_PAGES);
    r := RustContinue(SampleServer(samples, d), d.num);
  }

  /** The C# command against the server reads the same, but releases another point. */
  method CsRawRead(samples: seq<Sample>, d: Details) returns (r: Scenario<Sample>)
    requires !d.modified
    ensures r.pages == Pages(InRange(samples, d), PageSize(d.num), 0, CS_PAGES)
    ensures r.all == InRange(samples, d) <==> PageCount(|InRange(samples, d)|, PageSize(d.num)) <= CS_PAGES
    ensures r.released == Some(LastIssued(r.pages)) && r.reused == LastIssued(r.pages)
  {
    ServerPages(samples, d, CS_PAGES, RustStops);
    AllWhenCovered(InRange(samples, d), PageSize(d.num), CS_PAGES);
    AllCounted(InRange(samples, d), PageSize(d.num), CS_PAGES);
    r := CsRawContinue(SampleServer(samples, d), d.num);
  }

  lemma AllCounted<T>(r: seq<T>, n: nat, k: nat)
    ensures Counted(Pages(r, n, 0, k), RustStops) == Pages(r, n, 0, k)
  {
    var pages := Pages(r, n, 0, k);
    if pages != [] {
      PagesAreFull(r, n, 0, k, |pages| - 1);
    }
  }

  lemma {:induction false} LastHasPoint<T>(r: seq<T>, n: nat, from: nat, k: nat)
    requires from <= |r| && n > 0 && 0 < k < PageCount(|r| - from, n)
    ensures LastNext(Pages(r, n, from, k)).Some?
    decreases k
  {
    if k > 1 {
      var to := PageEnd(|r|, n, from);
      LastHasPoint(r, n, to, k - 1);
      PagesCount(r, n, to, k - 1);
    }
  }

  /** Rust releases the point of the last page, C# the last point issued: the same exactly when there is one page or
      the limit cuts the pages off. */
  lemma ReleasesAgree<T>(r: seq<T>, n: nat, k: nat)
    requires n > 0 && k > 0
    ensures LastNext(Pages(r, n, 0, k)) == LastIssued(Pages(r, n, 0, k)) <==>
            PageCount(|r|, n) == 1 || PageCount(|r|, n) > k
  {
    var pages := Pages(r, n, 0, k);
    PagesCount(r, n, 0, k);
    if PageCount(|r|, n) > k {
      LastHasPoint(r, n, 0, k);
    } else {
      LastHasNoPoint(r, n, 0, k);
      if |pages| > 1 {
        PagesAreFull(r, n, 0, k, |pages| - 2);
        assert pages[..|pages| - 1][|pages| - 2] == pages[|pages| - 2];
      } else {
        assert LastIssued(pages[..|pages| - 1]).None?;
      }
    }
  }

  /** The Go command against the server, when neither the release nor the read after it faults. */
  method GoRawRead(samples: seq<Sample>, d: Details, release: Cp -> Result<Status, Status>, again: Cp -> Answer<Sample>)
    returns (r: Result<Scenario<Sample>, Status>)
    requires !d.modified
    ensures var pages := Pages(InRange(samples, d), PageSize(d.num), 0, GO_PAGES);
            r.Err? <==> EndFault(LastIssued(pages), release, again).Some?
    ensures r.Ok? ==> r.value.pages == Pages(InRange(samples, d), PageSize(d.num), 0, GO_PAGES)
    ensures r.Ok? ==> (r.value.all == InRange(samples, d) <==>
                       PageCount(|InRange(samples, d)|, PageSize(d.num)) <= GO_PAGES)
  {
    var inRange := InRange(samples, d);
    ServerPages(samples, d, GO_PAGES, GoStops);
    AllWhenCovered(inRange, PageSize(d.num), GO_PAGES);
    NoFaults(inRange, PageSize(d.num), GO_PAGES);
    var ends;
    r, ends := GoRawContinue(SampleServer(samples, d), d.num, release, again);
  }

  lemma NoFaults<T>(r: seq<T>, n: nat, k: nat)
    ensures !Faulted(Pages(r, n, 0, k))
  {
    var pages := Pages(r, n, 0, k);
    if pages != [] {
      PagesAreFull(r, n, 0, k, |pages| - 1);
    }
  }
}
