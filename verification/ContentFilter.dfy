/** Event where-clauses (section 7.7.1 of OPC UA Part 4): element 0 is the root, and an ElementOperand refers
    to a later element. */
module ContentFilter {
  import opened Prelude
  import opened NodeIds

  datatype Element = OfType(typ: NodeId) | SeverityAtLeast(min: uint16) | And(left: nat, right: nat)

  datatype Event = Event(typ: NodeId, severity: uint16)

  /** Whether a type is another or one of its subtypes, in the type tree of the server. */
  type Subtyping = (NodeId, NodeId) -> bool

  /** ElementOperands only point to later elements. */
  predicate WellFormed(f: seq<Element>) {
    forall i :: 0 <= i < |f| && f[i].And? ==> i < f[i].left < |f| && i < f[i].right < |f|
  }

  /** The value of an element; none when it refers to itself, to an earlier element or past the end. */
  function Value(f: seq<Element>, i: nat, e: Event, sub: Subtyping): Option<bool>
    requires i < |f|
    decreases |f| - i
  {
    match f[i]
    case OfType(t) => Some(sub(e.typ, t))
    case SeverityAtLeast(n) => Some(e.severity >= n)
    case And(a, b) =>
      if !(i < a < |f| && i < b < |f|) then None
      else
        var x, y := Value(f, a, e, sub), Value(f, b, e, sub);
        if x.Some? && y.Some? then Some(x.value && y.value) else None
  }

  /** An empty filter passes everything. */
  function Passes(f: seq<Element>, e: Event, sub: Subtyping): Option<bool> {
    if f == [] then Some(true) else Value(f, 0, e, sub)
  }

  lemma {:induction false} WellFormedHasValue(f: seq<Element>, i: nat, e: Event, sub: Subtyping)
    requires WellFormed(f) && i < |f|
    ensures Value(f, i, e, sub).Some?
    decreases |f| - i
  {
    if f[i].And? {
      WellFormedHasValue(f, f[i].left, e, sub);
      WellFormedHasValue(f, f[i].right, e, sub);
    }
  }

  /** What the two flags ask for. */
  predicate Wanted(ofType: Option<NodeId>, minSeverity: Option<nat>, e: Event, sub: Subtyping) {
    (ofType.Some? ==> sub(e.typ, ofType.value)) && (minSeverity.Some? ==> e.severity >= minSeverity.value)
  }

  /** What an event must be to pass: of the type or a subtype of it, and at least that severe. */
  lemma BothPass(t: NodeId, n: uint16, e: Event, sub: Subtyping)
    ensures Passes([And(1, 2), OfType(t), SeverityAtLeast(n)], e, sub) == Some(sub(e.typ, t) && n <= e.severity)
    ensures Passes([OfType(t)], e, sub) == Some(sub(e.typ, t))
            && Passes([SeverityAtLeast(n)], e, sub) == Some(n <= e.severity)
    ensures Wanted(Some(t), Some(n), e, sub) <==> sub(e.typ, t) && n <= e.severity
  {
    var f := [And(1, 2), OfType(t), SeverityAtLeast(n)];
    assert Value(f, 1, e, sub) == Some(sub(e.typ, t)) && Value(f, 2, e, sub) == Some(e.severity >= n);
  }

  /** Go: the severity is a signed number, negative for none, and is sent in 16 bits. */
  method GoWhere(ofType: Option<NodeId>, minSeverity: int) returns (f: seq<Element>)
    ensures WellFormed(f)
    ensures forall e: Event, sub: Subtyping ::
              Passes(f, e, sub) ==
                Some(Wanted(ofType, if minSeverity >= 0 then Some(minSeverity % 0x1_0000) else None, e, sub))
  {
    f := [];
    if ofType.Some? {
      f := f + [OfType(ofType.value)];
    }
    if minSeverity >= 0 {
      f := f + [SeverityAtLeast(minSeverity % 0x1_0000)];
    }
    if |f| == 2 {
      f := [And(1, 2)] + f;
      assert f == [And(1, 2), OfType(ofType.value), SeverityAtLeast(minSeverity % 0x1_0000)];
      forall e: Event, sub: Subtyping
        ensures Passes(f, e, sub) == Some(Wanted(ofType, Some(minSeverity % 0x1_0000), e, sub))
      {
        BothPass(ofType.value, minSeverity % 0x1_0000, e, sub);
      }
    }
  }

  /** C#: the severity is 16 bits already. */
  method CsWhere(ofType: Option<NodeId>, minSeverity: Option<uint16>) returns (f: seq<Element>)
    ensures WellFormed(f)
    ensures forall e: Event, sub: Subtyping :: Passes(f, e, sub) == Some(Wanted(ofType, minSeverity, e, sub))
  {
    f := [];
    if ofType.Some? {
      f := f + [OfType(ofType.value)];
    }
    if minSeverity.Some? {
      f := f + [SeverityAtLeast(minSeverity.value)];
    }
    if |f| == 2 {
      f := [And(1, 2)] + f;
      assert f == [And(1, 2), OfType(ofType.value), SeverityAtLeast(minSeverity.value)];
      forall e: Event, sub: Subtyping ensures Passes(f, e, sub) == Some(Wanted(ofType, minSeverity, e, sub)) {
        BothPass(ofType.value, minSeverity.value, e, sub);
      }
    }
  }

  /** Go means what was asked for, for every event, exactly when the severity fits in 16 bits. */
  lemma GoSeverityExact(ofType: Option<NodeId>, minSeverity: nat)
    ensures minSeverity < 0x1_0000 <==>
            forall e: Event, sub: Subtyping ::
              Wanted(ofType, Some(minSeverity % 0x1_0000), e, sub) == Wanted(ofType, Some(minSeverity), e, sub)
  {
    if minSeverity >= 0x1_0000 {
      var all: Subtyping := (a: NodeId, b: NodeId) => true;
      var e := Event(NodeId(0, Numeric(2041)), minSeverity % 0x1_0000);
      assert Wanted(ofType, Some(minSeverity % 0x1_0000), e, all) && !Wanted(ofType, Some(minSeverity), e, all);
    }
  }

  /** Rust: the And comes last and refers back. */
  method RustWhere(ofType: Option<NodeId>, minSeverity: Option<uint16>) returns (f: seq<Element>)
    ensures WellFormed(f) <==> !(ofType.Some? && minSeverity.Some?)
    ensures !(ofType.Some? && minSeverity.Some?) ==>
              forall e: Event, sub: Subtyping :: Passes(f, e, sub) == Some(Wanted(ofType, minSeverity, e, sub))
    ensures ofType.Some? && minSeverity.Some? ==>
              forall e: Event, sub: Subtyping :: Passes(f, e, sub) == Some(Wanted(ofType, None, e, sub))
  {
    f := [];
    if ofType.Some? {
      f := f + [OfType(ofType.value)];
    }
    if minSeverity.Some? {
      f := f + [SeverityAtLeast(minSeverity.value)];
    }
    if |f| == 2 {
      f := f + [And(0, 1)];
      assert f[2] == And(0, 1);
    }
  }

  /** So with both flags the severity does not count: it makes no difference only when it asks for nothing. */
  lemma RustSeverityIgnored(ofType: NodeId, minSeverity: uint16)
    ensures minSeverity == 0 <==>
            forall e: Event, sub: Subtyping ::
              Wanted(Some(ofType), None, e, sub) == Wanted(Some(ofType), Some(minSeverity), e, sub)
  {
    if minSeverity > 0 {
      var all: Subtyping := (a: NodeId, b: NodeId) => true;
      var e := Event(ofType, 0);
      assert Wanted(Some(ofType), None, e, all) && !Wanted(Some(ofType), Some(minSeverity), e, all);
    }
  }
}
