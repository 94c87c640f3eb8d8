/** ConditionRefresh (OPC UA Part 9) as the Rust, Go and C# adapters collect it. */
module Alarms {
  import opened Prelude
  import opened NodeIds

  /** A field that should hold a NodeId: absent or of another type, a NodeId, or an ExpandedNodeId. */
  datatype NodeField = Absent | Node(id: NodeId) | Expanded(id: NodeId)

  /** The fields of an event that the adapters look at. */
  datatype Event = Event(eventType: NodeField, conditionId: NodeField, eventId: Option<seq<byte>>,
                         conditionName: Option<string>, retain: Option<bool>, acked: Option<bool>,
                         confirmed: Option<bool>, comment: Option<string>)

  const REFRESH_START := NodeId(0, Numeric(2787))
  const REFRESH_END := NodeId(0, Numeric(2788))

  datatype Mark = Start | End | Plain

  /** How an adapter reads events: what their type marks, and what it identifies conditions by. */
  datatype Reader<!K> = Reader(mark: Event -> Mark, id: Event -> Option<K>)

  function MarkOf(t: Option<NodeId>): Mark {
    if t == Some(REFRESH_START) then Start else if t == Some(REFRESH_END) then End else Plain
  }

  // The three readers of NodeId fields. Which NodeIds are null is for each stack to say.

  /** Rust: a NodeId that is not null. */
  function RustNode(f: NodeField, isNull: NodeId -> bool): Option<NodeId> {
    if f.Node? && !isNull(f.id) then Some(f.id) else None
  }

  /** Go: any NodeId. */
  function GoNode(f: NodeField): Option<NodeId> {
    if f.Node? then Some(f.id) else None
  }

  /** C#: a NodeId or ExpandedNodeId that is not null. */
  function CsNode(f: NodeField, isNull: NodeId -> bool): Option<NodeId> {
    if !f.Absent? && !isNull(f.id) then Some(f.id) else None
  }

  function Shown(n: Option<NodeId>, show: NodeId -> string): Option<string> {
    if n.Some? then Some(show(n.value)) else None
  }

  function Rust(isNull: NodeId -> bool): Reader<NodeId> {
    Reader((e: Event) => MarkOf(RustNode(e.eventType, isNull)), (e: Event) => RustNode(e.conditionId, isNull))
  }

  function Go(show: NodeId -> string): Reader<string> {
    Reader((e: Event) => MarkOf(GoNode(e.eventType)), (e: Event) => Shown(GoNode(e.conditionId), show))
  }

  function CSharp(isNull: NodeId -> bool, show: NodeId -> string): Reader<string> {
    Reader((e: Event) => MarkOf(CsNode(e.eventType, isNull)), (e: Event) => Shown(CsNode(e.conditionId, isNull), show))
  }

  // ---- what a refresh collects

  /** The condition an event is about; RefreshStart and RefreshEnd events are about none. */
  function Key<K>(rd: Reader<K>, e: Event): Option<K> {
    if rd.mark(e) == Plain then rd.id(e) else None
  }

  function Position<K(==)>(rd: Reader<K>, r: seq<Event>, k: K): (p: Option<nat>)
    ensures p.Some? ==> p.value < |r| && Key(rd, r[p.value]) == Some(k)
    ensures p.None? ==> forall i :: 0 <= i < |r| ==> Key(rd, r[i]) != Some(k)
  {
    if r == [] then None
    else if Key(rd, r[|r| - 1]) == Some(k) then Some(|r| - 1)
    else Position(rd, r[..|r| - 1], k)
  }

  function Put<K(==)>(rd: Reader<K>, r: seq<Event>, e: Event): seq<Event> {
    match Key(rd, e)
    case None => r
    case Some(k) =>
      match Position(rd, r, k)
      case None => r + [e]
      case Some(p) => r[p := e]
  }

  /** Among distinct conditions there is one place to put an event. */
  lemma PutAt<K>(rd: Reader<K>, r: seq<Event>, e: Event, p: Option<nat>)
    requires Key(rd, e).Some?
    requires forall j, k :: 0 <= j < k < |r| ==> Key(rd, r[j]) != Key(rd, r[k])
    requires p.Some? ==> p.value < |r| && Key(rd, r[p.value]) == Key(rd, e)
    requires p.None? ==> forall k :: 0 <= k < |r| ==> Key(rd, r[k]) != Key(rd, e)
    ensures Put(rd, r, e) == if p.Some? then r[p.value := e] else r + [e]
  {
  }

  /** The conditions of a run of events, deduplicated. */
  function Collected<K(==)>(rd: Reader<K>, w: seq<Event>): seq<Event> {
    if w == [] then [] else Put(rd, Collected(rd, w[..|w| - 1]), w[|w| - 1])
  }

  /** Index of the first RefreshEnd, or the length. */
  function EndIndex<K>(rd: Reader<K>, s: seq<Event>): (n: nat)
    ensures n <= |s| && (n < |s| ==> rd.mark(s[n]) == End)
    ensures forall i :: 0 <= i < n ==> rd.mark(s[i]) != End
  {
    if s == [] then 0
    else
      var n := EndIndex(rd, s[..|s| - 1]);
      if n < |s| - 1 then n else if rd.mark(s[|s| - 1]) == End then |s| - 1 else |s|
  }

  predicate Ended<K>(rd: Reader<K>, s: seq<Event>) { EndIndex(rd, s) < |s| }

  predicate Started<K>(rd: Reader<K>, s: seq<Event>) {
    exists i :: 0 <= i < EndIndex(rd, s) && rd.mark(s[i]) == Start
  }

  /** The refreshed conditions of the events that arrived since the refresh was asked for. */
  function Refreshed<K(==)>(rd: Reader<K>, s: seq<Event>): seq<Event> {
    Collected(rd, s[..EndIndex(rd, s)])
  }

  lemma EndIndexSnoc<K>(rd: Reader<K>, s: seq<Event>, e: Event)
    ensures EndIndex(rd, s + [e]) ==
            if Ended(rd, s) then EndIndex(rd, s) else if rd.mark(e) == End then |s| else |s| + 1
  {
    assert (s + [e])[..|s|] == s;
  }

  lemma StartedSnoc<K>(rd: Reader<K>, s: seq<Event>, e: Event)
    ensures Started(rd, s + [e]) <==> Started(rd, s) || (!Ended(rd, s) && rd.mark(e) == Start)
  {
    var t := s + [e];
    EndIndexSnoc(rd, s, e);
    assert t[|s|] == e && forall i :: 0 <= i < |s| ==> t[i] == s[i];
  }

  lemma CollectedSnoc<K>(rd: Reader<K>, w: seq<Event>, e: Event)
    ensures Collected(rd, w + [e]) == Put(rd, Collected(rd, w), e)
  {
    assert (w + [e])[..|w|] == w;
  }

  lemma RefreshedSnoc<K>(rd: Reader<K>, s: seq<Event>, e: Event)
    ensures Ended(rd, s + [e]) <==> Ended(rd, s) || rd.mark(e) == End
    ensures Started(rd, s + [e]) <==> Started(rd, s) || (!Ended(rd, s) && rd.mark(e) == Start)
    ensures Refreshed(rd, s + [e]) == if Ended(rd, s) then Refreshed(rd, s) else Put(rd, Refreshed(rd, s), e)
  {
    var n := EndIndex(rd, s);
    EndIndexSnoc(rd, s, e);
    StartedSnoc(rd, s, e);
    assert (s + [e])[..n] == s[..n];
    if !Ended(rd, s) {
      assert s[..n] == s && (s + [e])[..|s| + 1] == s + [e];
      CollectedSnoc(rd, s, e);
    }
  }

  /** Once the RefreshEnd is in, later events change nothing. */
  lemma {:induction false} RefreshedStays<K>(rd: Reader<K>, s: seq<Event>, t: seq<Event>)
    requires s <= t && Ended(rd, s)
    ensures Ended(rd, t) && Refreshed(rd, t) == Refreshed(rd, s) && (Started(rd, t) <==> Started(rd, s))
    decreases |t|
  {
    if t != s {
      var u, e := t[..|t| - 1], t[|t| - 1];
      assert u + [e] == t;
      RefreshedStays(rd, s, u);
      RefreshedSnoc(rd, u, e);
    }
  }

  lemma WindowStays<K>(rd: Reader<K>, all: seq<Event>, more: seq<Event>, from: nat)
    requires from <= |all| && all <= more && Ended(rd, all[from..])
    ensures var s, t := all[from..], more[from..];
            Ended(rd, t) && Refreshed(rd, t) == Refreshed(rd, s) && (Started(rd, t) <==> Started(rd, s))
  {
    RefreshedStays(rd, all[from..], more[from..]);
  }

  // ---- meaning of the collection

  predicate LastAt<K(==)>(rd: Reader<K>, w: seq<Event>, i: int) {
    0 <= i < |w| && Key(rd, w[i]).Some? && forall j :: i < j < |w| ==> Key(rd, w[j]) != Key(rd, w[i])
  }

  /** An event of `a` arrived before every event of `b`. */
  ghost predicate SeenBefore<K>(rd: Reader<K>, w: seq<Event>, a: Option<K>, b: Option<K>) {
    exists i :: 0 <= i < |w| && Key(rd, w[i]) == a && forall j :: 0 <= j <= i ==> Key(rd, w[j]) != b
  }

  ghost predicate IsLast<K>(rd: Reader<K>, w: seq<Event>, e: Event) {
    exists i :: 0 <= i < |w| && LastAt(rd, w, i) && w[i] == e
  }

  /** The `k`-th event listed is the last one of its condition. */
  ghost predicate ListsLast<K>(rd: Reader<K>, w: seq<Event>, r: seq<Event>, k: int) {
    0 <= k < |r| ==> IsLast(rd, w, r[k])
  }

  /** The `i`-th event is listed if it is the last one of its condition. */
  predicate LastListed<K(==)>(rd: Reader<K>, w: seq<Event>, r: seq<Event>, i: int) { LastAt(rd, w, i) ==> w[i] in r }

  /** The conditions at `j` and `k` are listed in the order of first appearance. */
  ghost predicate InOrder<K>(rd: Reader<K>, w: seq<Event>, r: seq<Event>, j: int, k: int) {
    0 <= j < k < |r| ==> SeenBefore(rd, w, Key(rd, r[j]), Key(rd, r[k]))
  }

  /** `r` holds the last event of every condition of `w`, in the order of first appearance. */
  ghost predicate LastPerCondition<K>(rd: Reader<K>, w: seq<Event>, r: seq<Event>) {
    && (forall k :: ListsLast(rd, w, r, k))
    && (forall i :: LastListed(rd, w, r, i))
    && (forall j, k :: InOrder(rd, w, r, j, k))
  }

  lemma {:induction false} CollectedIsLastPerCondition<K>(rd: Reader<K>, w: seq<Event>)
    ensures LastPerCondition(rd, w, Collected(rd, w))
  {
    if w != [] {
      var v, e := w[..|w| - 1], w[|w| - 1];
      CollectedIsLastPerCondition(rd, v);
      PutKeepsMeaning(rd, v, Collected(rd, v), e);
      assert w == v + [e];
    }
  }

  lemma SeenBeforeSnoc<K>(rd: Reader<K>, w: seq<Event>, e: Event, a: Option<K>, b: Option<K>)
    requires SeenBefore(rd, w, a, b)
    ensures SeenBefore(rd, w + [e], a, b)
  {
    var i :| 0 <= i < |w| && Key(rd, w[i]) == a && forall j :: 0 <= j <= i ==> Key(rd, w[j]) != b;
    assert (w + [e])[i] == w[i];
  }

  lemma LastAtSnoc<K>(rd: Reader<K>, w: seq<Event>, e: Event, i: nat)
    requires i < |w|
    ensures LastAt(rd, w + [e], i) <==> LastAt(rd, w, i) && Key(rd, w[i]) != Key(rd, e)
  {
    var t := w + [e];
    assert forall j :: 0 <= j < |w| ==> t[j] == w[j];
    assert t[|w|] == e;
  }

  /** A collected event is about a condition, and every condition is collected once. */
  lemma RefreshedKeys<K>(rd: Reader<K>, s: seq<Event>)
    ensures forall k :: 0 <= k < |Refreshed(rd, s)| ==> Key(rd, Refreshed(rd, s)[k]).Some?
    ensures forall j, k :: 0 <= j < k < |Refreshed(rd, s)| ==>
              Key(rd, Refreshed(rd, s)[j]) != Key(rd, Refreshed(rd, s)[k])
  {
    var w := s[..EndIndex(rd, s)];
    CollectedIsLastPerCondition(rd, w);
    CollectedKeys(rd, w, Collected(rd, w));
  }

  lemma CollectedKeys<K>(rd: Reader<K>, w: seq<Event>, r: seq<Event>)
    requires LastPerCondition(rd, w, r)
    ensures forall k :: 0 <= k < |r| ==> Key(rd, r[k]).Some?
    ensures forall j, k :: 0 <= j < k < |r| ==> Key(rd, r[j]) != Key(rd, r[k])
  {
    forall k | 0 <= k < |r| ensures Key(rd, r[k]).Some? { assert ListsLast(rd, w, r, k); }
    forall j, k | 0 <= j < k < |r| ensures Key(rd, r[j]) != Key(rd, r[k]) { assert InOrder(rd, w, r, j, k); }
  }

  /** Every condition seen has a last event. */
  lemma {:induction false} HasLast<K>(rd: Reader<K>, w: seq<Event>, i: nat)
    requires i < |w| && Key(rd, w[i]).Some?
    ensures exists l :: i <= l < |w| && LastAt(rd, w, l) && Key(rd, w[l]) == Key(rd, w[i])
    decreases |w| - i
  {
    if !LastAt(rd, w, i) {
      var j :| i < j < |w| && Key(rd, w[j]) == Key(rd, w[i]);
      HasLast(rd, w, j);
    }
  }

  lemma PutKeepsMeaning<K>(rd: Reader<K>, w: seq<Event>, r: seq<Event>, e: Event)
    requires LastPerCondition(rd, w, r)
    ensures LastPerCondition(rd, w + [e], Put(rd, r, e))
  {
    var q, t := Put(rd, r, e), w + [e];
    forall k ensures ListsLast(rd, t, q, k) { if 0 <= k < |q| { PutIsLast(rd, w, r, e, k); } }
    forall i ensures LastListed(rd, t, q, i) { if LastAt(rd, t, i) { PutHolds(rd, w, r, e, i); } }
    forall j, k ensures InOrder(rd, t, q, j, k) { if 0 <= j < k < |q| { PutOrder(rd, w, r, e, j, k); } }
  }

  lemma NewEventIsLast<K>(rd: Reader<K>, w: seq<Event>, e: Event)
    requires Key(rd, e).Some?
    ensures IsLast(rd, w + [e], e)
  {
    assert LastAt(rd, w + [e], |w|);
  }

  lemma StaysLast<K>(rd: Reader<K>, w: seq<Event>, e: Event, x: Event)
    requires IsLast(rd, w, x) && Key(rd, x) != Key(rd, e)
    ensures IsLast(rd, w + [e], x)
  {
    var i :| 0 <= i < |w| && LastAt(rd, w, i) && w[i] == x;
    LastAtSnoc(rd, w, e, i);
    assert (w + [e])[i] == x;
  }

  lemma PutIsLast<K>(rd: Reader<K>, w: seq<Event>, r: seq<Event>, e: Event, k: nat)
    requires LastPerCondition(rd, w, r) && k < |Put(rd, r, e)|
    ensures IsLast(rd, w + [e], Put(rd, r, e)[k])
  {
    CollectedKeys(rd, w, r);
    if k < |r| && Key(rd, r[k]) != Key(rd, e) {
      assert ListsLast(rd, w, r, k);
      StaysLast(rd, w, e, r[k]);
    } else {
      NewEventIsLast(rd, w, e);
    }
  }

  lemma PutKey<K>(rd: Reader<K>, r: seq<Event>, e: Event, i: nat)
    requires i < |r|
    ensures |r| <= |Put(rd, r, e)| <= |r| + 1 && Key(rd, Put(rd, r, e)[i]) == Key(rd, r[i])
    ensures |Put(rd, r, e)| > |r| ==>
              Key(rd, e).Some? && Position(rd, r, Key(rd, e).value).None? && Put(rd, r, e)[|r|] == e
  {
  }

  lemma PutOrder<K>(rd: Reader<K>, w: seq<Event>, r: seq<Event>, e: Event, j: nat, k: nat)
    requires LastPerCondition(rd, w, r) && j < k < |Put(rd, r, e)|
    ensures SeenBefore(rd, w + [e], Key(rd, Put(rd, r, e)[j]), Key(rd, Put(rd, r, e)[k]))
  {
    PutKey(rd, r, e, j);
    if k < |r| {
      PutKey(rd, r, e, k);
      assert InOrder(rd, w, r, j, k);
      SeenBeforeSnoc(rd, w, e, Key(rd, r[j]), Key(rd, r[k]));
    } else {
      NewIsLast(rd, w, r, e, j);
    }
  }

  lemma PutHolds<K>(rd: Reader<K>, w: seq<Event>, r: seq<Event>, e: Event, i: nat)
    requires i <= |w| && LastPerCondition(rd, w, r) && LastAt(rd, w + [e], i)
    ensures (w + [e])[i] in Put(rd, r, e)
  {
    var q, t := Put(rd, r, e), w + [e];
    if i == |w| {
      var p := Position(rd, r, Key(rd, e).value);
      assert q[if p.Some? then p.value else |r|] == e;
    } else {
      LastAtSnoc(rd, w, e, i);
      assert LastListed(rd, w, r, i);
      var k :| 0 <= k < |r| && r[k] == w[i];
      assert q[k] == r[k];
    }
  }

  /** Every condition seen is listed. */
  lemma ListedKey<K>(rd: Reader<K>, w: seq<Event>, r: seq<Event>, x: nat)
    requires LastPerCondition(rd, w, r) && x < |w| && Key(rd, w[x]).Some?
    ensures Position(rd, r, Key(rd, w[x]).value).Some?
  {
    HasLast(rd, w, x);
    var l :| x <= l < |w| && LastAt(rd, w, l) && Key(rd, w[l]) == Key(rd, w[x]);
    assert LastListed(rd, w, r, l);
  }

  lemma NewIsLast<K>(rd: Reader<K>, w: seq<Event>, r: seq<Event>, e: Event, j: nat)
    requires LastPerCondition(rd, w, r) && j < |r| && Key(rd, e).Some?
    requires Position(rd, r, Key(rd, e).value).None?
    ensures SeenBefore(rd, w + [e], Key(rd, r[j]), Key(rd, e))
  {
    assert ListsLast(rd, w, r, j);
    var i :| 0 <= i < |w| && LastAt(rd, w, i) && w[i] == r[j];
    var t := w + [e];
    forall x | 0 <= x <= i ensures Key(rd, t[x]) != Key(rd, e) {
      if Key(rd, w[x]) == Key(rd, e) {
        ListedKey(rd, w, r, x);
      }
    }
    assert t[i] == r[j];
  }

  // ---- the readers compared

  /** The null tests of the Rust and of the C# stack; neither holds of the types that mark a refresh. */
  datatype Nulls = Nulls(rust: NodeId -> bool, cs: NodeId -> bool) {
    predicate Sane() { forall n | n in [REFRESH_START, REFRESH_END] :: !rust(n) && !cs(n) }
  }

  /** What all three readers make of an event. */
  predicate SameReading(e: Event, nulls: Nulls) {
    var rust, cs := RustNode(e.eventType, nulls.rust), CsNode(e.eventType, nulls.cs);
    && MarkOf(rust) == MarkOf(GoNode(e.eventType)) == MarkOf(cs)
    && (MarkOf(rust) == Plain ==>
          RustNode(e.conditionId, nulls.rust) == GoNode(e.conditionId) == CsNode(e.conditionId, nulls.cs))
  }

  /** No ExpandedNodeId marks the refresh, and a condition is never named by a null NodeId or an ExpandedNodeId. */
  predicate Portable(e: Event, nulls: Nulls) {
    var refresh := {REFRESH_START, REFRESH_END};
    && !(e.eventType.Expanded? && e.eventType.id in refresh)
    && ((e.eventType.Node? && e.eventType.id in refresh)
        || match e.conditionId
           case Absent => true
           case Node(n) => !nulls.rust(n) && !nulls.cs(n)
           case Expanded(n) => nulls.cs(n))
  }

  lemma SameReadingIffPortable(e: Event, nulls: Nulls)
    requires nulls.Sane()
    ensures SameReading(e, nulls) <==> Portable(e, nulls)
  {
  }

  /** Two readers that mark the same events and tell the same conditions apart. */
  ghost predicate Equivalent<K, L>(a: Reader<K>, b: Reader<L>, s: seq<Event>) {
    && (forall e :: e in s ==> a.mark(e) == b.mark(e) && (Key(a, e).None? <==> Key(b, e).None?))
    && (forall e, f :: e in s && f in s ==> (Key(a, e) == Key(a, f) <==> Key(b, e) == Key(b, f)))
  }

  lemma {:induction false} SamePosition<K, L>(a: Reader<K>, b: Reader<L>, s: seq<Event>, r: seq<Event>, e: Event)
    requires Equivalent(a, b, s) && e in s && Key(a, e).Some?
    requires forall x :: x in r ==> x in s
    ensures Position(a, r, Key(a, e).value) == Position(b, r, Key(b, e).value)
  {
    if r != [] {
      assert r[|r| - 1] in r;
      SamePosition(a, b, s, r[..|r| - 1], e);
    }
  }

  lemma {:induction false} SameCollection<K, L>(a: Reader<K>, b: Reader<L>, s: seq<Event>, w: seq<Event>)
    requires Equivalent(a, b, s) && forall x :: x in w ==> x in s
    ensures Collected(a, w) == Collected(b, w) && forall x :: x in Collected(a, w) ==> x in s
  {
    if w != [] {
      var v, e := w[..|w| - 1], w[|w| - 1];
      assert e in w;
      SameCollection(a, b, s, v);
      if Key(a, e).Some? { SamePosition(a, b, s, Collected(a, v), e); }
    }
  }

  lemma {:induction false} SameEnd<K, L>(a: Reader<K>, b: Reader<L>, s: seq<Event>, w: seq<Event>)
    requires Equivalent(a, b, s) && forall x :: x in w ==> x in s
    ensures EndIndex(a, w) == EndIndex(b, w)
  {
    if w != [] {
      assert w[|w| - 1] in w;
      SameEnd(a, b, s, w[..|w| - 1]);
    }
  }

  lemma SameRefresh<K, L>(a: Reader<K>, b: Reader<L>, s: seq<Event>)
    requires Equivalent(a, b, s)
    ensures Refreshed(a, s) == Refreshed(b, s) && (Ended(a, s) <==> Ended(b, s)) && (Started(a, s) <==> Started(b, s))
  {
    SameEnd(a, b, s, s);
    SameCollection(a, b, s, s[..EndIndex(a, s)]);
    assert forall i :: 0 <= i < |s| ==> s[i] in s;
  }

  /** The printed id identifies the conditions that can occur. */
  ghost predicate Identifies(show: NodeId -> string) {
    forall m: NodeId, n: NodeId :: NonNull(m.id) && NonNull(n.id) && show(m) == show(n) ==> m == n
  }

  /** The three adapters refresh the same conditions and see the same marks. */
  ghost predicate RefreshAlike(s: seq<Event>, nulls: Nulls, show: NodeId -> string) {
    var rust, go, cs := Rust(nulls.rust), Go(show), CSharp(nulls.cs, show);
    && Refreshed(rust, s) == Refreshed(go, s) == Refreshed(cs, s)
    && Ended(rust, s) == Ended(go, s) == Ended(cs, s)
    && Started(rust, s) == Started(go, s) == Started(cs, s)
  }

  /** Rust compares ids, Go and C# compare their canonical text: on portable events with non-null
      identifiers all three collect the same conditions from the same events. */
  lemma AdaptersAgree(s: seq<Event>, nulls: Nulls, show: NodeId -> string)
    requires nulls.Sane() && Identifies(show)
    requires forall e :: e in s ==> Portable(e, nulls) && (e.conditionId.Node? ==> NonNull(e.conditionId.id.id))
    ensures RefreshAlike(s, nulls, show)
  {
    var rust, go, cs := Rust(nulls.rust), Go(show), CSharp(nulls.cs, show);
    forall e | e in s ensures SameReading(e, nulls) { SameReadingIffPortable(e, nulls); }
    assert Equivalent(rust, go, s);
    SameRefresh(rust, go, s);
    assert Equivalent(rust, cs, s);
    SameRefresh(rust, cs, s);
  }

  lemma RefreshedOne<K>(rd: Reader<K>, e: Event)
    ensures Refreshed(rd, [e]) == if Key(rd, e).Some? then [e] else []
    ensures Ended(rd, [e]) <==> rd.mark(e) == End
    ensures Started(rd, [e]) <==> rd.mark(e) == Start
  {
    RefreshedSnoc(rd, [], e);
    assert [] + [e] == [e];
  }

  ghost predicate HasType(s: seq<Event>, types: set<NodeField>) {
    exists i :: 0 <= i < |s| && s[i].eventType in types
  }

  /** An event of one of the first types with none of the second before it. */
  ghost predicate HasFirst(s: seq<Event>, types: set<NodeField>, ends: set<NodeField>) {
    exists i :: 0 <= i < |s| && s[i].eventType in types && forall j :: 0 <= j < i ==> s[j].eventType !in ends
  }

  lemma MarksAre<K>(rd: Reader<K>, s: seq<Event>, starts: set<NodeField>, ends: set<NodeField>)
    requires forall e :: rd.mark(e) == Start <==> e.eventType in starts
    requires forall e :: rd.mark(e) == End <==> e.eventType in ends
    ensures Ended(rd, s) <==> HasType(s, ends)
    ensures Started(rd, s) <==> HasFirst(s, starts, ends)
  {
    var n := EndIndex(rd, s);
    if i :| 0 <= i < |s| && s[i].eventType in starts && forall j :: 0 <= j < i ==> s[j].eventType !in ends {
      assert rd.mark(s[i]) == Start;
    }
  }

  /** A refresh starts with the first event of type 2787 and ends with the first one of type 2788, both of namespace 0.
      C# takes an ExpandedNodeId as well. */
  lemma RefreshMarks(s: seq<Event>, nulls: Nulls, show: NodeId -> string)
    requires nulls.Sane()
    ensures var start, end := NodeId(0, Numeric(2787)), NodeId(0, Numeric(2788));
            && (Ended(Rust(nulls.rust), s) <==> HasType(s, {Node(end)}))
            && (Started(Rust(nulls.rust), s) <==> HasFirst(s, {Node(start)}, {Node(end)}))
            && (Ended(Go(show), s) <==> HasType(s, {Node(end)}))
            && (Started(Go(show), s) <==> HasFirst(s, {Node(start)}, {Node(end)}))
            && (Ended(CSharp(nulls.cs, show), s) <==> HasType(s, {Node(end), Expanded(end)}))
            && (Started(CSharp(nulls.cs, show), s) <==>
                HasFirst(s, {Node(start), Expanded(start)}, {Node(end), Expanded(end)}))
  {
    var start, end := NodeId(0, Numeric(2787)), NodeId(0, Numeric(2788));
    MarksAre(Rust(nulls.rust), s, {Node(start)}, {Node(end)});
    MarksAre(Go(show), s, {Node(start)}, {Node(end)});
    MarksAre(CSharp(nulls.cs, show), s, {Node(start), Expanded(start)}, {Node(end), Expanded(end)});
  }

  /** An event that is not portable is seen: alone in a refresh it makes the adapters report different things. */
  lemma NotPortableShows(e: Event, nulls: Nulls, show: NodeId -> string)
    requires nulls.Sane() && !Portable(e, nulls)
    ensures !RefreshAlike([e], nulls, show)
  {
    SameReadingIffPortable(e, nulls);
    RefreshedOne(Rust(nulls.rust), e);
    RefreshedOne(Go(show), e);
    RefreshedOne(CSharp(nulls.cs, show), e);
  }

  ghost predicate Over(s: seq<Event>, events: iset<Event>) { forall e :: e in s ==> e in events }

  /** The adapters refresh every stream of some events alike exactly when each of these events is portable. */
  lemma AlikeIffPortable(events: iset<Event>, nulls: Nulls, show: NodeId -> string)
    requires nulls.Sane() && Identifies(show)
    requires forall e :: e in events && e.conditionId.Node? ==> NonNull(e.conditionId.id.id)
    ensures (forall s :: Over(s, events) ==> RefreshAlike(s, nulls, show)) <==>
            (forall e :: e in events ==> Portable(e, nulls))
  {
    if e :| e in events && !Portable(e, nulls) {
      NotPortableShows(e, nulls, show);
      assert Over([e], events);
    } else {
      forall s | Over(s, events) ensures RefreshAlike(s, nulls, show) { AdaptersAgree(s, nulls, show); }
    }
  }

  /** An ExpandedNodeId that names a condition is one to C# only. */
  lemma ExpandedIdShows(e: Event, nulls: Nulls, show: NodeId -> string)
    requires nulls.Sane() && e.eventType == Absent && e.conditionId.Expanded? && !nulls.cs(e.conditionId.id)
    ensures Refreshed(CSharp(nulls.cs, show), [e]) == [e]
    ensures Refreshed(Rust(nulls.rust), [e]) == Refreshed(Go(show), [e]) == []
  {
    RefreshedOne(Rust(nulls.rust), e);
    RefreshedOne(Go(show), e);
    RefreshedOne(CSharp(nulls.cs, show), e);
  }

  /** The canonical NodeId text does identify them. */
  lemma CanonicalTextIdentifies(c: Codec)
    requires Lawful(c)
    ensures Identifies(n => FmtNodeId(c, n))
  {
    var show := n => FmtNodeId(c, n);
    forall m: NodeId, n: NodeId | NonNull(m.id) && NonNull(n.id) && show(m) == show(n) ensures m == n {
      FmtNodeIdInjective(c, m, n);
    }
  }

  lemma SeenBeforeAsymmetric<K>(rd: Reader<K>, w: seq<Event>, a: Option<K>, b: Option<K>)
    requires SeenBefore(rd, w, a, b)
    ensures !SeenBefore(rd, w, b, a)
  {
  }

  lemma FoundFrom<K>(rd: Reader<K>, w: seq<Event>, r: seq<Event>, q: seq<Event>, k: nat) returns (m: nat)
    requires LastPerCondition(rd, w, r) && LastPerCondition(rd, w, q) && k < |r| && k <= |q| && r[..k] == q[..k]
    ensures k <= m < |q| && q[m] == r[k]
  {
    CollectedKeys(rd, w, r);
    assert ListsLast(rd, w, r, k);
    var i :| 0 <= i < |w| && LastAt(rd, w, i) && w[i] == r[k];
    assert LastListed(rd, w, q, i);
    m :| 0 <= m < |q| && q[m] == r[k];
  }

  lemma SameNext<K>(rd: Reader<K>, w: seq<Event>, r: seq<Event>, q: seq<Event>, k: nat)
    requires LastPerCondition(rd, w, r) && LastPerCondition(rd, w, q) && k < |r| && k <= |q| && r[..k] == q[..k]
    ensures k < |q| && r[k] == q[k]
  {
    var m := FoundFrom(rd, w, r, q, k);
    var l := FoundFrom(rd, w, q, r, k);
    if m > k && l > k {
      assert InOrder(rd, w, r, k, l) && InOrder(rd, w, q, k, m);
      SeenBeforeAsymmetric(rd, w, Key(rd, r[k]), Key(rd, r[l]));
    }
  }

  /** The order and the contents determine the list. */
  lemma LastPerConditionIsUnique<K>(rd: Reader<K>, w: seq<Event>, r: seq<Event>, q: seq<Event>)
    requires LastPerCondition(rd, w, r) && LastPerCondition(rd, w, q)
    ensures r == q
  {
    forall k: nat ensures SameNextElement(r, q, k) && SameNextElement(q, r, k) {
      if k < |r| && k <= |q| && r[..k] == q[..k] { SameNext(rd, w, r, q, k); }
      if k < |q| && k <= |r| && r[..k] == q[..k] { SameNext(rd, w, q, r, k); }
    }
    SameByNext(r, q, |r|);
    SameByNext(q, r, |q|);
  }

  predicate SameNextElement(r: seq<Event>, q: seq<Event>, k: nat) {
    k < |r| && k <= |q| && r[..k] == q[..k] ==> k < |q| && r[k] == q[k]
  }

  lemma {:induction false} SameByNext(r: seq<Event>, q: seq<Event>, n: nat)
    requires n <= |r| && forall k: nat :: SameNextElement(r, q, k)
    ensures n <= |q| && r[..n] == q[..n]
  {
    if n > 0 {
      SameByNext(r, q, n - 1);
      assert SameNextElement(r, q, n - 1);
    }
  }
}
