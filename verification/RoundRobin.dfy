/** The order in which the Go adapter hands out the events of several notification lists: it takes one
    event from the list at the head of the channel and sends the rest of the list to the back. */
module RoundRobin {
  import opened Prelude

  /** A queue of lists that are not empty. */
  predicate Proper<T>(q: seq<seq<T>>) { forall i :: 0 <= i < |q| ==> q[i] != [] }

  /** What is sent back of a list: nothing when it had one event left. */
  function Rest<T>(l: seq<T>): (r: seq<seq<T>>)
    requires l != []
    ensures Proper(r)
  {
    if |l| == 1 then [] else [l[1..]]
  }

  function Rotate<T>(q: seq<seq<T>>): (r: seq<seq<T>>)
    requires Proper(q) && q != []
    ensures Proper(r)
  {
    q[1..] + Rest(q[0])
  }

  function Total<T>(q: seq<seq<T>>): nat {
    if q == [] then 0 else |q[0]| + Total(q[1..])
  }

  lemma {:induction false} TotalSnoc<T>(q: seq<seq<T>>, l: seq<T>)
    ensures Total(q + [l]) == Total(q) + |l|
  {
    if q == [] {
      assert q + [l] == [l];
      assert [l][1..] == [];
    } else {
      assert (q + [l])[1..] == q[1..] + [l];
      TotalSnoc(q[1..], l);
    }
  }

  lemma RotateTotal<T>(q: seq<seq<T>>)
    requires Proper(q) && q != []
    ensures Total(Rotate(q)) == Total(q) - 1
  {
    TotalSnoc(q[1..], q[0][1..]);
    assert q[1..] + [] == q[1..];
  }

  /** The events in the order they are handed out when nothing new arrives. */
  function Order<T>(q: seq<seq<T>>): seq<T>
    requires Proper(q)
    decreases Total(q)
  {
    if q == [] then []
    else
      RotateTotal(q);
      [q[0][0]] + Order(Rotate(q))
  }

  // ---- nothing is lost, and each list keeps its order

  /** The elements of `out` at the positions that belong to list `i`. */
  function Select<T>(out: seq<T>, owner: seq<int>, i: int): seq<T>
    requires |out| == |owner|
  {
    if out == [] then [] else (if owner[0] == i then [out[0]] else []) + Select(out[1..], owner[1..], i)
  }

  /** Positions in the rotated queue as positions in the queue: the re-queued rest is list 0. */
  function Unrotate(owner: seq<int>, n: int): seq<int> {
    seq(|owner|, k requires 0 <= k < |owner| => if owner[k] == n - 1 then 0 else owner[k] + 1)
  }

  /** Which list each event handed out comes from. */
  function Owners<T>(q: seq<seq<T>>): (o: seq<int>)
    requires Proper(q)
    ensures |o| == |Order(q)|
    ensures forall k :: 0 <= k < |o| ==> 0 <= o[k] < |q|
    decreases Total(q)
  {
    if q == [] then []
    else
      RotateTotal(q);
      [0] + Unrotate(Owners(Rotate(q)), |q|)
  }

  lemma {:induction false} SelectUnrotate<T>(out: seq<T>, owner: seq<int>, n: int, i: int)
    requires |out| == |owner| && 0 <= i < n
    requires forall k :: 0 <= k < |owner| ==> 0 <= owner[k] < n
    ensures Select(out, Unrotate(owner, n), i) == Select(out, owner, if i == 0 then n - 1 else i - 1)
  {
    if out != [] {
      assert Unrotate(owner, n)[1..] == Unrotate(owner[1..], n);
      SelectUnrotate(out[1..], owner[1..], n, i);
    }
  }

  lemma {:induction false} SelectNone<T>(out: seq<T>, owner: seq<int>, i: int)
    requires |out| == |owner| && i !in owner
    ensures Select(out, owner, i) == []
  {
    if out != [] {
      SelectNone(out[1..], owner[1..], i);
    }
  }

  /** An event of list 0 in front of the others. */
  lemma SelectCons<T>(x: T, out: seq<T>, owner: seq<int>, i: int)
    requires |out| == |owner|
    ensures Select([x] + out, [0] + owner, i) == if i == 0 then [x] + Select(out, owner, i) else Select(out, owner, i)
  {
    assert ([x] + out)[1..] == out && ([0] + owner)[1..] == owner;
  }

  lemma SelectTurn<T>(q: seq<seq<T>>, i: nat)
    requires Proper(q) && i < |q|
    ensures var r := Rotate(q);
            Select(Order(q), Owners(q), i) ==
            if i == 0 then [q[0][0]] + Select(Order(r), Owners(r), |q| - 1) else Select(Order(r), Owners(r), i - 1)
  {
    RotateTotal(q);
    var out, own := Order(Rotate(q)), Owners(Rotate(q));
    SelectCons(q[0][0], out, Unrotate(own, |q|), i);
    SelectUnrotate(out, own, |q|, i);
  }

  /** The output is a shuffle: the events of each list come out in the order of the list. */
  lemma {:induction false} ListOrderKept<T>(q: seq<seq<T>>, i: nat)
    requires Proper(q) && i < |q|
    ensures Select(Order(q), Owners(q), i) == q[i]
    decreases Total(q)
  {
    RotateTotal(q);
    SelectTurn(q, i);
    var r := Rotate(q);
    if i > 0 {
      ListOrderKept(r, i - 1);
    } else if |q[0]| > 1 {
      ListOrderKept(r, |q| - 1);
    } else {
      SelectNone(Order(r), Owners(r), |q| - 1);
    }
  }

  function Load<T>(q: seq<seq<T>>): multiset<T> {
    if q == [] then multiset{} else multiset(q[0]) + Load(q[1..])
  }

  lemma {:induction false} LoadSnoc<T>(q: seq<seq<T>>, l: seq<T>)
    ensures Load(q + [l]) == Load(q) + multiset(l)
  {
    if q == [] {
      assert q + [l] == [l];
      assert [l][1..] == [];
    } else {
      assert (q + [l])[1..] == q[1..] + [l];
      LoadSnoc(q[1..], l);
    }
  }

  lemma RotateLoad<T>(q: seq<seq<T>>)
    requires Proper(q) && q != []
    ensures multiset{q[0][0]} + Load(Rotate(q)) == Load(q)
  {
    RestLoad(q[1..], q[0]);
  }

  lemma RestLoad<T>(t: seq<seq<T>>, l: seq<T>)
    requires l != []
    ensures multiset{l[0]} + Load(t + Rest(l)) == multiset(l) + Load(t)
  {
    assert l == [l[0]] + l[1..];
    if |l| == 1 {
      assert t + [] == t;
    } else {
      LoadSnoc(t, l[1..]);
    }
  }

  /** Every event is handed out exactly once. */
  lemma {:induction false} OrderConserves<T>(q: seq<seq<T>>)
    requires Proper(q)
    ensures multiset(Order(q)) == Load(q)
    decreases Total(q)
  {
    if q != [] {
      RotateTotal(q);
      RotateLoad(q);
      OrderConserves(Rotate(q));
    }
  }

  // ---- the exact order

  lemma {:induction false} OneListInOrder<T>(l: seq<T>)
    requires l != []
    ensures Order([l]) == l
  {
    var r := Rotate([l]);
    RotateTotal([l]);
    if |l| == 1 {
      assert r == [];
      assert l == [l[0]];
    } else {
      assert r == [l[1..]];
      OneListInOrder(l[1..]);
      assert l == [l[0]] + l[1..];
    }
  }

  function Heads<T>(q: seq<seq<T>>): seq<T>
    requires Proper(q)
  {
    if q == [] then [] else [q[0][0]] + Heads(q[1..])
  }

  function Tails<T>(q: seq<seq<T>>): (r: seq<seq<T>>)
    requires Proper(q)
    ensures Proper(r)
  {
    if q == [] then []
    else Rest(q[0]) + Tails(q[1..])
  }

  /** The list `l` has its turn. */
  lemma FrontTurn<T>(l: seq<T>, t: seq<seq<T>>, b: seq<seq<T>>)
    requires l != [] && Proper(t) && Proper(b)
    ensures var q := [l] + t + b; Proper(q) && q[0] == l && Rotate(q) == t + (b + Rest(l))
  {
    var q := [l] + t + b;
    assert q[1..] == t + b;
    Associate(t, b, Rest(l));
  }

  lemma TailsCons<T>(l: seq<T>, t: seq<seq<T>>)
    requires l != [] && Proper(t)
    ensures Proper([l] + t) && Tails([l] + t) == Rest(l) + Tails(t) && Heads([l] + t) == [l[0]] + Heads(t)
  {
    assert ([l] + t)[1..] == t;
  }

  /** After the lists `a` at the front of the queue have had their turn, their rests stand at the back. */
  lemma {:induction false} TurnOf<T>(a: seq<seq<T>>, b: seq<seq<T>>)
    requires Proper(a) && Proper(b)
    ensures Proper(a + b) && Proper(b + Tails(a)) && Order(a + b) == Heads(a) + Order(b + Tails(a))
    decreases |a|
  {
    if a == [] {
      assert a + b == b && b + Tails(a) == b;
    } else {
      var l, t := a[0], a[1..];
      assert a == [l] + t;
      FrontTurn(l, t, b);
      TailsCons(l, t);
      TurnOf(t, b + Rest(l));
      Associate(b, Rest(l), Tails(t));
      RotateTotal(a + b);
      Associate([l[0]], Heads(t), Order(b + Tails(a)));
    }
  }

  /** Events come out in rounds: first the head of every list, in queue order, then those of the rests. */
  lemma OrderIsByRounds<T>(q: seq<seq<T>>)
    requires Proper(q)
    ensures Order(q) == Heads(q) + Order(Tails(q))
  {
    TurnOf(q, []);
    assert q + [] == q && [] + Tails(q) == Tails(q);
  }

  // ---- runs in which lists arrive

  /** A list arrives at the back of the queue, or an event is handed out. */
  datatype Op<T> = Arrive(list: seq<T>) | Hand

  /** What is left of the list that arrived as number `id`. */
  datatype Tagged<T> = Tagged(id: nat, rest: seq<T>)

  /** The lists that arrived, the queue, and the events handed out with the number of their list. */
  datatype State<T> = State(arrived: seq<seq<T>>, queue: seq<Tagged<T>>, handed: seq<(nat, T)>)

  function After<T>(s: State<T>, op: Op<T>): State<T> {
    match op
    case Arrive(l) =>
      State(s.arrived + [l], if l == [] then s.queue else s.queue + [Tagged(|s.arrived|, l)], s.handed)
    case Hand =>
      if s.queue == [] || s.queue[0].rest == [] then s
      else
        var h, t := s.queue[0], s.queue[1..];
        State(s.arrived, if |h.rest| == 1 then t else t + [Tagged(h.id, h.rest[1..])], s.handed + [(h.id, h.rest[0])])
  }

  function Ran<T>(ops: seq<Op<T>>): State<T> {
    if ops == [] then State([], [], []) else After(Ran(ops[..|ops| - 1]), ops[|ops| - 1])
  }

  lemma RanSnoc<T>(ops: seq<Op<T>>, op: Op<T>)
    ensures Ran(ops + [op]) == After(Ran(ops), op)
  {
    assert (ops + [op])[..|ops|] == ops;
  }

  /** The events handed out from list `id`. */
  function Handed<T>(h: seq<(nat, T)>, id: nat): seq<T> {
    if h == [] then []
    else Handed(h[..|h| - 1], id) + if h[|h| - 1].0 == id then [h[|h| - 1].1] else []
  }

  /** What is in the queue of list `id`. */
  function Rested<T>(q: seq<Tagged<T>>, id: nat): seq<T> {
    if q == [] then [] else (if q[0].id == id then q[0].rest else []) + Rested(q[1..], id)
  }

  lemma HandedSnoc<T>(h: seq<(nat, T)>, x: (nat, T), id: nat)
    ensures Handed(h + [x], id) == if x.0 == id then Handed(h, id) + [x.1] else Handed(h, id)
  {
    assert (h + [x])[..|h|] == h;
  }

  lemma {:induction false} RestedSnoc<T>(q: seq<Tagged<T>>, t: Tagged<T>, id: nat)
    ensures Rested(q + [t], id) == if t.id == id then Rested(q, id) + t.rest else Rested(q, id)
  {
    if q == [] {
      assert q + [t] == [t] && [t][1..] == [];
    } else {
      assert (q + [t])[1..] == q[1..] + [t];
      RestedSnoc(q[1..], t, id);
      Associate(if q[0].id == id then q[0].rest else [], Rested(q[1..], id), t.rest);
    }
  }

  predicate Absent<T>(q: seq<Tagged<T>>, id: nat) { forall i :: 0 <= i < |q| ==> q[i].id != id }

  lemma {:induction false} RestedAbsent<T>(q: seq<Tagged<T>>, id: nat)
    requires Absent(q, id)
    ensures Rested(q, id) == []
  {
    if q != [] { RestedAbsent(q[1..], id); }
  }

  /** Every list is in the queue at most once, and not as an empty rest. */
  ghost predicate Tidy<T>(q: seq<Tagged<T>>, n: nat) {
    && (forall i :: 0 <= i < |q| ==> q[i].id < n && q[i].rest != [])
    && (forall i, j :: 0 <= i < j < |q| ==> q[i].id != q[j].id)
  }

  /** What was handed out of a list and what is queued of it make up the list. */
  predicate Whole<T(==)>(s: State<T>, id: nat) {
    Handed(s.handed, id) + Rested(s.queue, id) == if id < |s.arrived| then s.arrived[id] else []
  }

  lemma TidyStays<T>(s: State<T>, op: Op<T>)
    requires Tidy(s.queue, |s.arrived|)
    ensures Tidy(After(s, op).queue, |After(s, op).arrived|)
  {
  }

  lemma ArriveKeeps<T>(s: State<T>, l: seq<T>, id: nat)
    requires Tidy(s.queue, |s.arrived|) && Whole(s, id)
    ensures Whole(After(s, Arrive(l)), id)
  {
    if l != [] {
      RestedSnoc(s.queue, Tagged(|s.arrived|, l), id);
    }
    if id == |s.arrived| {
      RestedAbsent(s.queue, id);
      assert Handed(s.handed, id) == [];
    }
  }

  /** Handing out the first of `l` moves it from what is queued to what is handed out. */
  lemma MoveOne<T>(handed: seq<T>, l: seq<T>)
    requires l != []
    ensures handed + l == (handed + [l[0]]) + l[1..]
  {
  }

  /** The head of the queue is the only rest of its list. */
  lemma HandOwn<T>(h: Tagged<T>, t: seq<Tagged<T>>)
    requires h.rest != [] && Absent(t, h.id)
    ensures Rested([h] + t, h.id) == h.rest
    ensures Rested(if |h.rest| == 1 then t else t + [Tagged(h.id, h.rest[1..])], h.id) == h.rest[1..]
  {
    assert ([h] + t)[1..] == t;
    RestedAbsent(t, h.id);
    RestedSnoc(t, Tagged(h.id, h.rest[1..]), h.id);
  }

  lemma HandOther<T>(h: Tagged<T>, t: seq<Tagged<T>>, id: nat)
    requires h.rest != [] && h.id != id
    ensures Rested([h] + t, id) == Rested(t, id)
    ensures Rested(if |h.rest| == 1 then t else t + [Tagged(h.id, h.rest[1..])], id) == Rested(t, id)
  {
    assert ([h] + t)[1..] == t;
    RestedSnoc(t, Tagged(h.id, h.rest[1..]), id);
  }

  lemma HandKeeps<T>(s: State<T>, id: nat)
    requires Tidy(s.queue, |s.arrived|) && Whole(s, id)
    ensures Whole(After(s, Hand), id)
  {
    if s.queue != [] {
      var h, t := s.queue[0], s.queue[1..];
      assert [h] + t == s.queue;
      HandedSnoc(s.handed, (h.id, h.rest[0]), id);
      if h.id == id {
        HandOwn(h, t);
        MoveOne(Handed(s.handed, id), h.rest);
      } else {
        HandOther(h, t, id);
      }
    }
  }

  /** In every run each list is handed out in its order, whatever arrives in between: its events handed out so
      far, followed by its rest in the queue, are the list. */
  lemma {:induction false} EveryListInOrder<T>(ops: seq<Op<T>>, id: nat)
    ensures Tidy(Ran(ops).queue, |Ran(ops).arrived|) && Whole(Ran(ops), id)
  {
    if ops != [] {
      var t, op := ops[..|ops| - 1], ops[|ops| - 1];
      EveryListInOrder(t, id);
      TidyStays(Ran(t), op);
      match op
      case Arrive(l) => ArriveKeeps(Ran(t), l, id);
      case Hand => HandKeeps(Ran(t), id);
    }
  }

  /** Every event handed out comes from a list that has arrived. */
  lemma {:induction false} HandedFromArrived<T>(ops: seq<Op<T>>, k: nat)
    requires k < |Ran(ops).handed|
    ensures Ran(ops).handed[k].0 < |Ran(ops).arrived|
  {
    var t, op := ops[..|ops| - 1], ops[|ops| - 1];
    if k < |Ran(t).handed| {
      HandedFromArrived(t, k);
    } else {
      EveryListInOrder(t, 0);
    }
  }

  function Values<T>(h: seq<(nat, T)>): (r: seq<T>)
    ensures |r| == |h|
  {
    seq(|h|, i requires 0 <= i < |h| => h[i].1)
  }

  function Ids<T>(h: seq<(nat, T)>): (r: seq<int>)
    ensures |r| == |h|
  {
    seq(|h|, i requires 0 <= i < |h| => h[i].0)
  }

  function Rests<T>(q: seq<Tagged<T>>): (r: seq<seq<T>>)
    ensures |r| == |q|
  {
    seq(|q|, i requires 0 <= i < |q| => q[i].rest)
  }

  lemma {:induction false} SelectSnoc<T>(out: seq<T>, owner: seq<int>, x: T, o: int, i: int)
    requires |out| == |owner|
    ensures Select(out + [x], owner + [o], i) == if o == i then Select(out, owner, i) + [x] else Select(out, owner, i)
  {
    if out == [] {
      assert out + [x] == [x] && owner + [o] == [o] && [x][1..] == [] && [o][1..] == [];
    } else {
      assert (out + [x])[1..] == out[1..] + [x] && (owner + [o])[1..] == owner[1..] + [o];
      SelectSnoc(out[1..], owner[1..], x, o, i);
    }
  }

  lemma ValuesSnoc<T>(h: seq<(nat, T)>, x: (nat, T))
    ensures Values(h + [x]) == Values(h) + [x.1] && Ids(h + [x]) == Ids(h) + [x.0]
  {
  }

  lemma RestsSnoc<T>(q: seq<Tagged<T>>, t: Tagged<T>)
    ensures Rests(q + [t]) == Rests(q) + [t.rest]
  {
  }

  /** Handing out is one rotation of the rests. */
  lemma HandRotates<T>(s: State<T>)
    requires s.queue != [] && Proper(Rests(s.queue))
    ensures var t, l := After(s, Hand), s.queue[0].rest;
            && l == Rests(s.queue)[0] && l != []
            && Rests(t.queue) == Rotate(Rests(s.queue)) && Values(t.handed) == Values(s.handed) + [l[0]]
  {
    var h, t := s.queue[0], s.queue[1..];
    assert Rests(s.queue)[0] == h.rest && Rests(s.queue)[1..] == Rests(t);
    ValuesSnoc(s.handed, (h.id, h.rest[0]));
    RestsSnoc(t, Tagged(h.id, h.rest[1..]));
    assert Rests(t) + [] == Rests(t);
  }

  lemma {:induction false} HandedIsSelected<T>(h: seq<(nat, T)>, id: nat)
    ensures Handed(h, id) == Select(Values(h), Ids(h), id)
  {
    if h != [] {
      var t, x := h[..|h| - 1], h[|h| - 1];
      assert t + [x] == h;
      HandedIsSelected(t, id);
      HandedSnoc(t, x, id);
      ValuesSnoc(t, x);
      SelectSnoc(Values(t), Ids(t), x.1, x.0, id);
    }
  }
}
