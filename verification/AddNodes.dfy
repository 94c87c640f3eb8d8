/** AddNodes batches on the address space of the Rust server. */
module AddNodes {
  import opened Prelude
  import opened NodeIds
  import opened Text

  datatype Status =
    Good | BadNodeIdRejected | BadNodeIdExists | BadParentNodeIdInvalid | BadNodeClassInvalid | BadAttributes

  /** One item. Whether the attributes make a node is up to the stack. */
  datatype Item = Item(requested: NodeId, parent: NodeId, addable: bool, attributesOk: bool, referenceType: NodeId,
                       typeDefinition: NodeId)

  datatype Reference = Reference(source: NodeId, target: NodeId, referenceType: NodeId)

  datatype Outcome = Outcome(id: NodeId, status: Status)

  const NULL_ID := NodeId(0, Numeric(0))
  const HAS_TYPE_DEFINITION := NodeId(0, Numeric(40))
  const COUNTER_LIMIT := 0x1_0000_0000

  /** The nodes, the references and the counter of generated ids, which wraps. */
  datatype Space = Space(nodes: set<NodeId>, references: set<Reference>, counter: uint32)

  function Generated(ns: uint16, n: nat): NodeId { NodeId(ns, Str(Some("Added." + Decimal(n)))) }

  function Candidate(s: Space, ns: uint16, item: Item): NodeId {
    if item.requested == NULL_ID then Generated(ns, s.counter) else item.requested
  }

  /** The first check that fails decides. */
  function Check(s: Space, ns: uint16, item: Item): Status {
    var id := Candidate(s, ns, item);
    if id.ns != ns then BadNodeIdRejected
    else if id in s.nodes then BadNodeIdExists
    else if item.parent !in s.nodes then BadParentNodeIdInvalid
    else if !item.addable then BadNodeClassInvalid
    else if !item.attributesOk then BadAttributes
    else Good
  }

  function Counted(s: Space, item: Item): uint32 {
    if item.requested == NULL_ID then (s.counter + 1) % COUNTER_LIMIT else s.counter
  }

  function Added(s: Space, ns: uint16, item: Item): Space {
    var id := Candidate(s, ns, item);
    if Check(s, ns, item) != Good then s.(counter := Counted(s, item))
    else Space(s.nodes + {id},
               s.references + {Reference(item.parent, id, item.referenceType)}
               + (if item.typeDefinition == NULL_ID then {}
                  else {Reference(id, item.typeDefinition, HAS_TYPE_DEFINITION)}),
               Counted(s, item))
  }

  function Answer(s: Space, ns: uint16, item: Item): Outcome {
    var status := Check(s, ns, item);
    Outcome(if status == Good then Candidate(s, ns, item) else NULL_ID, status)
  }

  /** The space after a run of items, in whatever batches they came. */
  function After(s: Space, ns: uint16, items: seq<Item>): Space {
    if items == [] then s else Added(After(s, ns, items[..|items| - 1]), ns, items[|items| - 1])
  }

  function Answers(s: Space, ns: uint16, items: seq<Item>): (r: seq<Outcome>)
    ensures |r| == |items|
  {
    if items == [] then []
    else
      var t := items[..|items| - 1];
      Answers(s, ns, t) + [Answer(After(s, ns, t), ns, items[|items| - 1])]
  }

  /** The server's address space, changed in place. */
  class Server {
    const ns: uint16
    var nodes: set<NodeId>
    var references: set<Reference>
    var counter: uint32

    ghost function Now(): Space reads this { Space(nodes, references, counter) }

    constructor (ns: uint16, nodes: set<NodeId>, references: set<Reference>)
      ensures this.ns == ns && Now() == Space(nodes, references, 1)
    {
      this.ns, this.nodes, this.references, counter := ns, nodes, references, 1;
    }

    method Add(item: Item) returns (r: Outcome)
      modifies this
      ensures Now() == old(Added(Now(), ns, item)) && r == old(Answer(Now(), ns, item))
    {
      var id := item.requested;
      if item.requested == NULL_ID {
        var n := counter;
        counter := (counter + 1) % COUNTER_LIMIT;
        id := NodeId(ns, Str(Some("Added." + Decimal(n))));
      }
      if id.ns != ns { return Outcome(NULL_ID, BadNodeIdRejected); }
      if id in nodes { return Outcome(NULL_ID, BadNodeIdExists); }
      if item.parent !in nodes { return Outcome(NULL_ID, BadParentNodeIdInvalid); }
      if !item.addable { return Outcome(NULL_ID, BadNodeClassInvalid); }
      if !item.attributesOk { return Outcome(NULL_ID, BadAttributes); }
      nodes := nodes + {id};
      references := references + {Reference(item.parent, id, item.referenceType)};
      if item.typeDefinition != NULL_ID {
        references := references + {Reference(id, item.typeDefinition, HAS_TYPE_DEFINITION)};
      }
      return Outcome(id, Good);
    }

    method AddNodes(items: seq<Item>) returns (results: seq<Outcome>)
      modifies this
      ensures Now() == old(After(Now(), ns, items)) && results == old(Answers(Now(), ns, items))
    {
      results := [];
      ghost var s := Now();
      for i := 0 to |items|
        invariant Now() == After(s, ns, items[..i]) && results == Answers(s, ns, items[..i])
      {
        assert items[..i + 1][..i] == items[..i];
        var r := Add(items[i]);
        results := results + [r];
      }
      assert items[..|items|] == items;
    }
  }

  // ---- what holds of every run

  /** Batches compose. */
  lemma {:induction false} BatchesCompose(s: Space, ns: uint16, a: seq<Item>, b: seq<Item>)
    ensures After(s, ns, a + b) == After(After(s, ns, a), ns, b)
    ensures Answers(s, ns, a + b) == Answers(s, ns, a) + Answers(After(s, ns, a), ns, b)
  {
    if b == [] {
      assert a + b == a;
    } else {
      var t := b[..|b| - 1];
      BatchesCompose(s, ns, a, t);
      assert (a + b)[..|a + b| - 1] == a + t && (a + b)[|a + b| - 1] == b[|b| - 1];
      var last := Answer(After(s, ns, a + t), ns, b[|b| - 1]);
      Associate(Answers(s, ns, a), Answers(After(s, ns, a), ns, t), [last]);
    }
  }

  /** The ids that were given out are new to the space, in its namespace and different from each other,
      and the space has grown by exactly them. */
  lemma {:induction false} IdsAreFresh(s: Space, ns: uint16, items: seq<Item>)
    ensures var r := Answers(s, ns, items);
            && (forall i :: 0 <= i < |r| && r[i].status == Good ==> r[i].id !in s.nodes && r[i].id.ns == ns)
            && (forall i, j :: 0 <= i < j < |r| && r[i].status == Good && r[j].status == Good ==> r[i].id != r[j].id)
            && (forall n :: n in After(s, ns, items).nodes <==> n in s.nodes || Given(r, n))
  {
    if items != [] {
      var m := |items| - 1;
      var t := items[..m];
      IdsAreFresh(s, ns, t);
      var r, q := Answers(s, ns, items), Answers(s, ns, t);
      assert forall i :: 0 <= i < m ==> r[i] == q[i];
      forall n ensures n in After(s, ns, items).nodes <==> n in s.nodes || Given(r, n) {
        GivenSnoc(q, r[m], n);
        assert r == q + [r[m]];
      }
      forall i | 0 <= i < m && r[i].status == Good ensures r[i].id in After(s, ns, t).nodes {
        assert Given(q, q[i].id);
      }
    }
  }

  /** A run gave this id to a node. */
  ghost predicate Given(r: seq<Outcome>, n: NodeId) { exists i :: 0 <= i < |r| && r[i] == Outcome(n, Good) }

  lemma GivenSnoc(q: seq<Outcome>, o: Outcome, n: NodeId)
    ensures Given(q + [o], n) <==> Given(q, n) || o == Outcome(n, Good)
  {
    assert (q + [o])[|q|] == o;
    if Given(q, n) {
      var i :| 0 <= i < |q| && q[i] == Outcome(n, Good);
      assert (q + [o])[i] == q[i];
    }
  }

  /** An item that is refused changes nothing but the counter. */
  lemma RefusedChangesNothing(s: Space, ns: uint16, item: Item)
    ensures Answer(s, ns, item).status != Good ==>
              var t := Added(s, ns, item);
              t.nodes == s.nodes && t.references == s.references && Answer(s, ns, item).id == NULL_ID
    ensures Answer(s, ns, item).status == Good ==>
              var t := Added(s, ns, item);
              && s.references <= t.references
              && Reference(item.parent, Answer(s, ns, item).id, item.referenceType) in t.references
  {
  }

  /** The id that an item asks for, or the next generated one. */
  lemma AcceptedIff(s: Space, ns: uint16, item: Item)
    ensures var id := if item.requested ==
            NodeId(0, Numeric(0)) then NodeId(ns, Str(Some("Added." + Decimal(s.counter))))
                      else item.requested;
            var r := Answer(s, ns, item);
            && (r.status == Good <==>
                id.ns == ns && id !in s.nodes && item.parent in s.nodes && item.addable && item.attributesOk)
            && (r.status == Good ==> r.id == id && Added(s, ns, item).nodes == s.nodes + {id})
            && (r.status == BadNodeIdRejected <==> id.ns != ns)
            && (r.status == BadNodeIdExists <==> id.ns == ns && id in s.nodes)
            && (r.status == BadParentNodeIdInvalid <==> id.ns == ns && id !in s.nodes && item.parent !in s.nodes)
            && (r.status == Good && item.typeDefinition != NodeId(0, Numeric(0)) ==>
                Reference(id, item.typeDefinition, NodeId(0, Numeric(40))) in Added(s, ns, item).references)
  {
  }

  /** How many items ask for a generated id. */
  function Asking(items: seq<Item>): nat {
    if items == [] then 0
    else Asking(items[..|items| - 1]) + (if items[|items| - 1].requested == NodeId(0, Numeric(0)) then 1 else 0)
  }

  /** The counter counts them, accepted or not, and wraps at 32 bits. */
  lemma {:induction false} CounterIs(s: Space, ns: uint16, items: seq<Item>)
    ensures After(s, ns, items).counter == (s.counter + Asking(items)) % 0x1_0000_0000
  {
    if items != [] {
      var t := items[..|items| - 1];
      CounterIs(s, ns, t);
      CountOn(s.counter + Asking(t));
    }
  }

  lemma CountOn(n: nat)
    ensures (n % 0x1_0000_0000 + 1) % 0x1_0000_0000 == (n + 1) % 0x1_0000_0000
  {
  }

  lemma {:induction false} AskingBetween(items: seq<Item>, i: nat, j: nat)
    requires i <= j <= |items|
    ensures Asking(items[..i]) <= Asking(items[..j]) <= Asking(items[..i]) + j - i
    ensures i < j && items[i].requested == NodeId(0, Numeric(0)) ==> Asking(items[..i]) < Asking(items[..j])
  {
    if i < j {
      AskingBetween(items, i, j - 1);
      assert items[..j][..j - 1] == items[..j - 1];
    }
  }

  /** Of fewer than 2^32 items in a row no two are offered the same generated id. */
  lemma GeneratedDiffer(s: Space, ns: uint16, items: seq<Item>, i: nat, j: nat)
    requires i < j < |items| && j - i < 0x1_0000_0000
    requires items[i].requested == items[j].requested == NodeId(0, Numeric(0))
    ensures Candidate(After(s, ns, items[..i]), ns, items[i]) != Candidate(After(s, ns, items[..j]), ns, items[j])
  {
    CounterIs(s, ns, items[..i]);
    CounterIs(s, ns, items[..j]);
    AskingBetween(items, i, j);
    var c, d := After(s, ns, items[..i]).counter, After(s, ns, items[..j]).counter;
    assert c != d;
    DecimalValue(c);
    DecimalValue(d);
    assert ("Added." + Decimal(c))[6..] == Decimal(c) && ("Added." + Decimal(d))[6..] == Decimal(d);
  }

  /** A way from a node up the references to a node of the initial space. */
  ghost predicate Way(initial: set<NodeId>, references: set<Reference>, path: seq<NodeId>) {
    && path != [] && path[|path| - 1] in initial
    && forall i :: 0 <= i < |path| - 1 ==> Linked(references, path[i + 1], path[i])
  }

  ghost predicate Linked(references: set<Reference>, parent: NodeId, child: NodeId) {
    exists t :: Reference(parent, child, t) in references
  }

  lemma WayGrows(initial: set<NodeId>, a: set<Reference>, b: set<Reference>, path: seq<NodeId>)
    requires a <= b && Way(initial, a, path)
    ensures Way(initial, b, path)
  {
    forall i | 0 <= i < |path| - 1 ensures Linked(b, path[i + 1], path[i]) {
      assert Linked(a, path[i + 1], path[i]);
      var t :| Reference(path[i + 1], path[i], t) in a;
      assert Reference(path[i + 1], path[i], t) in b;
    }
  }

  /** Every node of the space after a run reaches a node of the initial space by finitely many parents. */
  lemma {:induction false} ReachesInitial(s: Space, ns: uint16, items: seq<Item>, n: NodeId) returns (path: seq<NodeId>)
    requires n in After(s, ns, items).nodes
    ensures Way(s.nodes, After(s, ns, items).references, path) && path[0] == n && |path| <= |items| + 1
  {
    if n in s.nodes {
      path := [n];
    } else {
      var m := |items| - 1;
      var t := items[..m];
      var before, after := After(s, ns, t), After(s, ns, items);
      RefusedChangesNothing(before, ns, items[m]);
      if n in before.nodes {
        path := ReachesInitial(s, ns, t, n);
        WayGrows(s.nodes, before.references, after.references, path);
      } else {
        var up := ReachesInitial(s, ns, t, items[m].parent);
        WayGrows(s.nodes, before.references, after.references, up);
        path := [n] + up;
        assert Linked(after.references, items[m].parent, n);
        forall i | 0 <= i < |path| - 1 ensures Linked(after.references, path[i + 1], path[i]) {
          if i > 0 {
            assert Linked(after.references, up[i], up[i - 1]);
          }
        }
      }
    }
  }
}
