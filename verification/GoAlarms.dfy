/** The Go adapter: notifications in a channel that the reader also writes back into. */
module GoAlarms {
  import opened Prelude
  import opened NodeIds
  import opened Alarms
  import opened AlarmActions
  import RR = RoundRobin

  /** How many notifications the channel holds. */
  const CAPACITY: nat := 4096

  /** What arrives on the channel: an error, a notification that is not an event list, or events. */
  datatype Notification = Failure | Other | Events(list: seq<Event>)

  /** The event lists in a channel that hold anything. */
  function Lists(q: seq<Notification>): (r: seq<seq<Event>>)
    ensures RR.Proper(r)
  {
    if q == [] then [] else Lists(q[..|q| - 1]) + ListOf(q[|q| - 1])
  }

  function ListOf(n: Notification): (r: seq<seq<Event>>)
    ensures RR.Proper(r)
  {
    if n.Events? && n.list != [] then [n.list] else []
  }

  lemma {:induction false} ListsAppend(q: seq<Notification>, t: seq<Notification>)
    ensures Lists(q + t) == Lists(q) + Lists(t)
  {
    if t == [] {
      assert q + t == q;
    } else {
      var u, n := t[..|t| - 1], t[|t| - 1];
      ListsAppend(q, u);
      assert (q + t)[..|q + t| - 1] == q + u && (q + t)[|q + t| - 1] == n;
      Associate(Lists(q), Lists(u), ListOf(n));
    }
  }

  lemma ListsCons(q: seq<Notification>)
    requires q != []
    ensures Lists(q) == if ListOf(q[0]) == [] then Lists(q[1..]) else [q[0].list] + Lists(q[1..])
  {
    var h, t := [q[0]], q[1..];
    ListsAppend(h, t);
    assert q == h + t;
    ListsOne(q[0]);
  }

  lemma ListsOne(n: Notification)
    ensures Lists([n]) == ListOf(n)
  {
    assert [n][..0] == [];
  }

  /** The channel after the first event is handed out: the rest of its list is at the back. */
  function Requeued(q: seq<Notification>): seq<Notification>
    requires q != [] && ListOf(q[0]) != []
  {
    if |q[0].list| > 1 then q[1..] + [Events(q[0].list[1..])] else q[1..]
  }

  /** Handing out an event is one rotation of the lists. */
  lemma NextRotates(q: seq<Notification>)
    requires q != [] && ListOf(q[0]) != []
    ensures Lists(q) != [] && Lists(q)[0][0] == q[0].list[0] && Lists(Requeued(q)) == RR.Rotate(Lists(q))
  {
    var list, t := q[0].list, q[1..];
    ListsCons(q);
    RotateCons(list, Lists(t));
    if |list| > 1 {
      ListsSnoc(t, Events(list[1..]));
    }
  }

  lemma RotateCons(list: seq<Event>, t: seq<seq<Event>>)
    requires list != [] && RR.Proper(t)
    ensures var q := [list] + t; RR.Proper(q) && RR.Rotate(q) == if |list| > 1 then t + [list[1..]] else t
  {
    assert ([list] + t)[1..] == t;
  }

  lemma ListsSnoc(t: seq<Notification>, n: Notification)
    ensures Lists(t + [n]) == Lists(t) + ListOf(n)
  {
    assert (t + [n])[..|t|] == t;
  }

  /** A successful call of `next` during which nothing arrives. */
  predicate Hands(before: seq<seq<Event>>, e: Event, after: seq<seq<Event>>)
    requires RR.Proper(before)
  {
    before != [] && e == before[0][0] && after == RR.Rotate(before)
  }

  /** Successful calls of `next` between which nothing arrives hand out the events in round-robin order. */
  lemma {:induction false} RunIsOrder(states: seq<seq<seq<Event>>>, handed: seq<Event>)
    requires |states| == |handed| + 1 && forall i :: 0 <= i < |states| ==> RR.Proper(states[i])
    requires forall i :: 0 <= i < |handed| ==> Hands(states[i], handed[i], states[i + 1])
    ensures RR.Order(states[0]) == handed + RR.Order(states[|handed|])
  {
    if handed != [] {
      forall i | 0 <= i < |handed| - 1 ensures Hands(states[1..][i], handed[1..][i], states[1..][i + 1]) {
        assert Hands(states[i + 1], handed[i + 1], states[i + 1 + 1]);
      }
      RunIsOrder(states[1..], handed[1..]);
      assert Hands(states[0], handed[0], states[0 + 1]);
      assert handed == [handed[0]] + handed[1..];
      Associate([handed[0]], handed[1..], RR.Order(states[|handed|]));
    }
  }

  /** The events in a channel, and how much there is to read. */
  ghost function Load(q: seq<Notification>): multiset<Event> {
    if q == [] then multiset{} else multiset(EventsOf(q[0])) + Load(q[1..])
  }

  function Work(q: seq<Notification>): nat {
    if q == [] then 0 else 1 + |EventsOf(q[0])| + Work(q[1..])
  }

  function EventsOf(n: Notification): seq<Event> { if n.Events? then n.list else [] }

  lemma {:induction false} LoadSnoc(q: seq<Notification>, n: Notification)
    ensures Load(q + [n]) == Load(q) + multiset(EventsOf(n)) && Work(q + [n]) == Work(q) + 1 + |EventsOf(n)|
  {
    if q == [] {
      assert q + [n] == [n];
    } else {
      assert (q + [n])[1..] == q[1..] + [n];
      LoadSnoc(q[1..], n);
    }
  }

  lemma DeliverLoad(q: seq<Notification>, in': seq<Notification>)
    requires in' != []
    ensures Load(q + [in'[0]]) + Load(in'[1..]) == Load(q) + Load(in')
    ensures Work(q + [in'[0]]) + Work(in'[1..]) == Work(q) + Work(in')
  {
    LoadSnoc(q, in'[0]);
  }

  lemma HandOutLoad(q: seq<Notification>)
    requires q != [] && ListOf(q[0]) != []
    ensures Load(q) == multiset{q[0].list[0]} + Load(Requeued(q)) && Work(Requeued(q)) < Work(q)
  {
    var l := q[0].list;
    assert l == [l[0]] + l[1..];
    LoadSnoc(q[1..], Events(l[1..]));
  }

  /** All events: those handed out, those on the channel and those still to arrive. */
  ghost function Account(handed: seq<Event>, q: seq<Notification>, more: seq<Notification>): multiset<Event> {
    multiset(handed) + (Load(q) + Load(more))
  }

  /** `later` is what is left of the notifications to come, and `Came` those that have come. */
  predicate Left(in0: seq<Notification>, later: seq<Notification>) {
    |later| <= |in0| && later == in0[|in0| - |later|..]
  }

  function Came(in0: seq<Notification>, later: seq<Notification>): seq<Notification>
    requires Left(in0, later)
  {
    in0[..|in0| - |later|]
  }

  /** What holds of one call of `next`: it takes the first event of the first list on the channel, whatever
      arrives during the call; without success it takes none. */
  ghost predicate NextOk(h0: seq<Event>, q0: seq<Notification>, in0: seq<Notification>,
                         h: seq<Event>, q: seq<Notification>, in': seq<Notification>, r: Option<Event>) {
    && Left(in0, in') && Account(h, q, in') == Account(h0, q0, in0)
    && var lists := Lists(q0) + Lists(Came(in0, in'));
    && (r.None? ==> h == h0 && Lists(q) == lists)
    && (r.Some? ==> h == h0 + [r.value] && Hands(lists, r.value, Lists(q)))
    && (r.Some? ==> Work(q) + Work(in') < Work(q0) + Work(in0))
  }

  lemma NextKeeps(h0: seq<Event>, q0: seq<Notification>, in0: seq<Notification>, q: seq<Notification>,
                  in': seq<Notification>)
    requires q != [] && ListOf(q[0]) != [] && Waited(q0, in0, q, in')
    ensures NextOk(h0, q0, in0, h0 + [q[0].list[0]], Requeued(q), in', Some(q[0].list[0]))
  {
    NextRotates(q);
    HandOutLoad(q);
    var e := q[0].list[0];
    AccountStep(h0, e, Load(q), Load(Requeued(q)), Load(in'));
  }

  /** Nothing is lost while `next` waits: the channel holds what it held and what has come, but for what carries no
      event. */
  ghost predicate Waited(q0: seq<Notification>, in0: seq<Notification>, q: seq<Notification>, in': seq<Notification>) {
    && Left(in0, in') && Lists(q) == Lists(q0) + Lists(Came(in0, in'))
    && Load(q) + Load(in') == Load(q0) + Load(in0) && Work(q) + Work(in') <= Work(q0) + Work(in0)
  }

  lemma WaitedNone(q: seq<Notification>, in0: seq<Notification>)
    ensures Waited(q, in0, q, in0)
  {
    assert Came(in0, in0) == [];
    assert Lists(q) + [] == Lists(q);
  }

  lemma WaitedArrive(q0: seq<Notification>, in0: seq<Notification>, q: seq<Notification>, in': seq<Notification>)
    requires Waited(q0, in0, q, in') && in' != []
    ensures Waited(q0, in0, q + [in'[0]], in'[1..])
    ensures Work(q + [in'[0]]) + Work(in'[1..]) == Work(q) + Work(in')
  {
    CameSnoc(in0, in');
    ListsSnoc(q, in'[0]);
    DeliverLoad(q, in');
    Associate(Lists(q0), Lists(Came(in0, in')), ListOf(in'[0]));
  }

  lemma WaitedSkip(q0: seq<Notification>, in0: seq<Notification>, q: seq<Notification>, in': seq<Notification>)
    requires Waited(q0, in0, q, in') && q != [] && ListOf(q[0]) == []
    ensures Waited(q0, in0, q[1..], in') && Work(q[1..]) < Work(q)
  {
    ListsCons(q);
  }

  lemma CameSnoc(in0: seq<Notification>, later: seq<Notification>)
    requires Left(in0, later) && later != []
    ensures Left(in0, later[1..])
    ensures Lists(Came(in0, later[1..])) == Lists(Came(in0, later)) + ListOf(later[0])
  {
    var k := |in0| - |later|;
    assert in0[..k + 1] == in0[..k] + [in0[k]];
    ListsSnoc(in0[..k], in0[k]);
  }

  // ---- the run of the channel

  /** The channel as a run: `moves` are the arrivals of lists and the events handed out so far, `source` all the lists
      that have come or will come. */
  ghost predicate Traced(source: seq<seq<Event>>, ops: seq<RR.Op<Event>>, q: seq<Notification>, in': seq<Notification>,
                         handed: seq<Event>) {
    var s := RR.Ran(ops);
    s.arrived + Lists(in') == source && RR.Rests(s.queue) == Lists(q) && RR.Values(s.handed) == handed
  }

  /** A notification arrives. */
  ghost function Arrived(ops: seq<RR.Op<Event>>, n: Notification): seq<RR.Op<Event>> {
    if ListOf(n) == [] then ops else ops + [RR.Arrive(n.list)]
  }

  lemma TracedArrive(source: seq<seq<Event>>, ops: seq<RR.Op<Event>>, q: seq<Notification>, in': seq<Notification>,
                     handed: seq<Event>)
    requires Traced(source, ops, q, in', handed) && in' != []
    ensures Traced(source, Arrived(ops, in'[0]), q + [in'[0]], in'[1..], handed)
  {
    var s, n := RR.Ran(ops), in'[0];
    ListsCons(in');
    ListsSnoc(q, n);
    if ListOf(n) != [] {
      RR.RanSnoc(ops, RR.Arrive(n.list));
      RR.RestsSnoc(s.queue, RR.Tagged(|s.arrived|, n.list));
      Associate(s.arrived, [n.list], Lists(in'[1..]));
    }
  }

  lemma TracedSkip(source: seq<seq<Event>>, ops: seq<RR.Op<Event>>, q: seq<Notification>, in': seq<Notification>,
                   handed: seq<Event>)
    requires Traced(source, ops, q, in', handed) && q != [] && ListOf(q[0]) == []
    ensures Traced(source, ops, q[1..], in', handed)
  {
    ListsCons(q);
  }

  lemma TracedHand(source: seq<seq<Event>>, ops: seq<RR.Op<Event>>, q: seq<Notification>, in': seq<Notification>,
                   handed: seq<Event>)
    requires Traced(source, ops, q, in', handed) && q != [] && ListOf(q[0]) != []
    ensures Traced(source, ops + [RR.Hand], Requeued(q), in', handed + [q[0].list[0]])
  {
    NextRotates(q);
    RR.HandRotates(RR.Ran(ops));
    RR.RanSnoc(ops, RR.Hand);
  }

  function ArriveAll(ls: seq<seq<Event>>): seq<RR.Op<Event>> {
    if ls == [] then [] else ArriveAll(ls[..|ls| - 1]) + [RR.Arrive(ls[|ls| - 1])]
  }

  lemma {:induction false} ArriveAllRan(ls: seq<seq<Event>>)
    requires RR.Proper(ls)
    ensures var s := RR.Ran(ArriveAll(ls)); s.arrived == ls && RR.Rests(s.queue) == ls && s.handed == []
  {
    if ls != [] {
      var t, l := ls[..|ls| - 1], ls[|ls| - 1];
      ArriveAllRan(t);
      var s := RR.Ran(ArriveAll(t));
      RR.RanSnoc(ArriveAll(t), RR.Arrive(l));
      RR.RestsSnoc(s.queue, RR.Tagged(|s.arrived|, l));
      assert t + [l] == ls;
    }
  }

  /** What is on the channel, what is still to come, and what was handed out. */
  datatype Channel = Channel(notify: seq<Notification>, incoming: seq<Notification>, handed: seq<Event>)

  /** A notification arrives, one without events is dropped, or an event is handed out. */
  datatype Move = Delivery | Drop | HandingOut

  function Moved(c: Channel, m: Move): Channel {
    match m
    case Delivery =>
      if c.incoming == [] then c else c.(notify := c.notify + [c.incoming[0]], incoming := c.incoming[1..])
    case Drop =>
      if c.notify == [] || ListOf(c.notify[0]) != [] then c else c.(notify := c.notify[1..])
    case HandingOut =>
      if c.notify == [] || ListOf(c.notify[0]) == [] then c
      else c.(notify := Requeued(c.notify), handed := c.handed + [c.notify[0].list[0]])
  }

  function Reached(start: Channel, moves: seq<Move>): Channel {
    if moves == [] then start else Moved(Reached(start, moves[..|moves| - 1]), moves[|moves| - 1])
  }

  lemma ReachedSnoc(start: Channel, moves: seq<Move>, m: Move)
    ensures Reached(start, moves + [m]) == Moved(Reached(start, moves), m)
  {
    assert (moves + [m])[..|moves|] == moves;
  }

  lemma MoveTraced(source: seq<seq<Event>>, ops: seq<RR.Op<Event>>, c: Channel, m: Move)
    returns (more: seq<RR.Op<Event>>)
    requires Traced(source, ops, c.notify, c.incoming, c.handed)
    ensures var d := Moved(c, m); Traced(source, more, d.notify, d.incoming, d.handed)
  {
    more := ops;
    match m
    case Delivery =>
      if c.incoming != [] {
        TracedArrive(source, ops, c.notify, c.incoming, c.handed);
        more := Arrived(ops, c.incoming[0]);
      }
    case Drop =>
      if c.notify != [] && ListOf(c.notify[0]) == [] { TracedSkip(source, ops, c.notify, c.incoming, c.handed); }
    case HandingOut =>
      if c.notify != [] && ListOf(c.notify[0]) != [] {
        TracedHand(source, ops, c.notify, c.incoming, c.handed);
        more := ops + [RR.Hand];
      }
  }

  /** Whatever happens to the channel is a run of arrivals and events handed out. */
  lemma {:induction false} ReachedTraced(start: Channel, moves: seq<Move>) returns (ops: seq<RR.Op<Event>>)
    requires start.handed == []
    ensures var c := Reached(start, moves);
            Traced(Lists(start.notify) + Lists(start.incoming), ops, c.notify, c.incoming, c.handed)
  {
    if moves == [] {
      ops := ArriveAll(Lists(start.notify));
      ArriveAllRan(Lists(start.notify));
    } else {
      var t := moves[..|moves| - 1];
      ops := ReachedTraced(start, t);
      ops := MoveTraced(Lists(start.notify) + Lists(start.incoming), ops, Reached(start, t), moves[|moves| - 1]);
    }
  }

  /** In every run each list comes out in its order, whatever arrives when: every event handed out belongs to a list,
      in such a way that those of each list are a prefix of it. */
  lemma ListsComeOutInOrder(start: Channel, moves: seq<Move>) returns (owner: seq<int>)
    requires start.handed == []
    ensures var handed, source := Reached(start, moves).handed, Lists(start.notify) + Lists(start.incoming);
            && |owner| == |handed| && (forall k :: 0 <= k < |owner| ==> 0 <= owner[k] < |source|)
            && (forall id :: 0 <= id < |source| ==> RR.Select(handed, owner, id) <= source[id])
  {
    var ops := ReachedTraced(start, moves);
    var s, handed, source := RR.Ran(ops), Reached(start, moves).handed, Lists(start.notify) + Lists(start.incoming);
    owner := RR.Ids(s.handed);
    forall k | 0 <= k < |owner| ensures 0 <= owner[k] < |source| { RR.HandedFromArrived(ops, k); }
    forall id | 0 <= id < |source| ensures RR.Select(handed, owner, id) <= source[id] {
      RR.EveryListInOrder(ops, id);
      RR.HandedIsSelected(s.handed, id);
    }
  }

  /** Events are handed out only while one list is on the channel. */
  predicate OneInFlight(start: Channel, moves: seq<Move>) {
    moves == [] ||
    var t := moves[..|moves| - 1];
    OneInFlight(start, t) && (moves[|moves| - 1] == HandingOut ==> |Lists(Reached(start, t).notify)| <= 1)
  }

  /** All events in the order of their lists: handed out, on the channel, still to come. */
  function InArrivalOrder(c: Channel): seq<Event> { c.handed + Flatten(Lists(c.notify) + Lists(c.incoming)) }

  lemma MoveKeepsArrivalOrder(c: Channel, m: Move)
    requires m == HandingOut ==> |Lists(c.notify)| <= 1
    ensures InArrivalOrder(Moved(c, m)) == InArrivalOrder(c)
  {
    match m
    case Delivery =>
      if c.incoming != [] {
        ListsCons(c.incoming);
        ListsSnoc(c.notify, c.incoming[0]);
        assert Lists(c.incoming) == ListOf(c.incoming[0]) + Lists(c.incoming[1..]);
        Associate(Lists(c.notify), ListOf(c.incoming[0]), Lists(c.incoming[1..]));
      }
    case Drop => if c.notify != [] { ListsCons(c.notify); }
    case HandingOut =>
      if c.notify != [] && ListOf(c.notify[0]) != [] { HandingKeepsArrivalOrder(c); }
  }

  lemma HandingKeepsArrivalOrder(c: Channel)
    requires c.notify != [] && ListOf(c.notify[0]) != [] && |Lists(c.notify)| <= 1
    ensures InArrivalOrder(Moved(c, HandingOut)) == InArrivalOrder(c)
  {
    var l, later := c.notify[0].list, Lists(c.incoming);
    NextRotates(c.notify);
    ListsCons(c.notify);
    assert Lists(c.notify) == [l] && RR.Rotate([l]) == RR.Rest(l);
    FlattenAppend([l], later);
    FlattenAppend(RR.Rest(l), later);
    RestFlat(l);
    FirstMoves(c.handed, l, Flatten(later));
  }

  lemma FirstMoves(handed: seq<Event>, l: seq<Event>, f: seq<Event>)
    requires l != []
    ensures (handed + [l[0]]) + (l[1..] + f) == handed + (l + f)
  {
  }

  lemma RestFlat(l: seq<Event>)
    requires l != []
    ensures Flatten([l]) == l && Flatten(RR.Rest(l)) == l[1..]
  {
    assert [l][1..] == [] && [l[1..]][1..] == [];
  }

  /** With one list in flight the events come out in the order of arrival. */
  lemma {:induction false} OneInFlightInOrder(start: Channel, moves: seq<Move>)
    requires OneInFlight(start, moves)
    ensures InArrivalOrder(Reached(start, moves)) == InArrivalOrder(start)
  {
    if moves != [] {
      var t := moves[..|moves| - 1];
      OneInFlightInOrder(start, t);
      MoveKeepsArrivalOrder(Reached(start, t), moves[|moves| - 1]);
    }
  }

  /** In the end, list after list. */
  lemma OneInFlightInTheEnd(start: Channel, moves: seq<Move>, c: Channel)
    requires OneInFlight(start, moves) && c == Reached(start, moves)
    requires start.handed == [] && Lists(c.notify) == [] && Lists(c.incoming) == []
    ensures c.handed == Flatten(Lists(start.notify) + Lists(start.incoming))
  {
    OneInFlightInOrder(start, moves);
    NoMore(c);
    var all := Flatten(Lists(start.notify) + Lists(start.incoming));
    assert [] + all == all;
  }

  lemma NoMore(c: Channel)
    requires Lists(c.notify) == [] && Lists(c.incoming) == []
    ensures InArrivalOrder(c) == c.handed
  {
    var none: seq<seq<Event>> := [];
    assert none + none == none && Flatten(none) == [];
  }

  lemma AccountStep(h: seq<Event>, e: Event, l: multiset<Event>, k: multiset<Event>, m: multiset<Event>)
    requires l == multiset{e} + k
    ensures multiset(h + [e]) + (k + m) == multiset(h) + (l + m)
  {
  }

  /** Notes the latest event of a condition. */
  function Noted(rd: Reader<string>, m: map<string, Event>, e: Event): map<string, Event> {
    if rd.id(e).Some? then m[rd.id(e).value := e] else m
  }

  /** The last event of each condition handed out so far. */
  function LatestOf(rd: Reader<string>, s: seq<Event>): map<string, Event> {
    if s == [] then map[] else Noted(rd, LatestOf(rd, s[..|s| - 1]), s[|s| - 1])
  }

  lemma LatestOfSnoc(rd: Reader<string>, s: seq<Event>, e: Event)
    ensures LatestOf(rd, s + [e]) == Noted(rd, LatestOf(rd, s), e)
  {
    assert (s + [e])[..|s|] == s;
  }

  lemma {:induction false} LatestIndex(rd: Reader<string>, s: seq<Event>, k: string) returns (i: nat)
    requires k in LatestOf(rd, s)
    ensures LastIndex(s, |s|, Counts(rd, k), i) && LatestOf(rd, s)[k] == s[i]
  {
    var t, n := s[..|s| - 1], |s| - 1;
    if rd.id(s[n]) == Some(k) {
      i := n;
    } else {
      i := LatestIndex(rd, t, k);
      assert forall j :: 0 <= j < n ==> t[j] == s[j];
    }
  }

  lemma {:induction false} LatestHas(rd: Reader<string>, s: seq<Event>, i: nat)
    requires i < |s| && rd.id(s[i]).Some?
    ensures rd.id(s[i]).value in LatestOf(rd, s)
  {
    if i < |s| - 1 {
      LatestHas(rd, s[..|s| - 1], i);
    }
  }

  class AlarmRun {
    const rd: Reader<string>
    /** The channel, and the notifications that are still to arrive on it. */
    var notify: seq<Notification>
    var incoming: seq<Notification>
    var latest: map<string, Event>
    /** The events handed out so far: a history of the run, read only to name positions in the results. */
    var handed: seq<Event>

    /** Where the channel started, and what has happened to it. */
    ghost const start: Channel
    ghost var moves: seq<Move>

    ghost predicate Valid() reads this {
      && latest == LatestOf(rd, handed) && |notify| <= CAPACITY
      && Channel(notify, incoming, handed) == Reached(start, moves)
    }

    ghost function Size(): nat reads this { Work(notify) + Work(incoming) }

    ghost function Held(): multiset<Event> reads this { Load(notify) + Load(incoming) }

    constructor (show: NodeId -> string, notify: seq<Notification>, incoming: seq<Notification>)
      requires |notify| <= CAPACITY
      ensures Valid() && handed == [] && rd == Go(show) && this.notify == notify && this.incoming == incoming
      ensures start == Channel(notify, incoming, [])
    {
      rd := Go(show);
      this.notify, this.incoming, latest, handed := notify, incoming, map[], [];
      start, moves := Channel(notify, incoming, []), [];
    }

    method Deliver()
      requires Valid() && incoming != [] && |notify| < CAPACITY
      modifies `notify, `incoming, `moves
      ensures Valid() && notify == old(notify) + [old(incoming)[0]] && incoming == old(incoming)[1..]
    {
      ReachedSnoc(start, moves, Delivery);
      moves := moves + [Delivery];
      notify, incoming := notify + [incoming[0]], incoming[1..];
    }

    /** Drops a notification without events. */
    method SkipHead()
      requires Valid() && notify != [] && ListOf(notify[0]) == []
      modifies `notify, `moves
      ensures Valid() && notify == old(notify)[1..]
    {
      ReachedSnoc(start, moves, Drop);
      moves := moves + [Drop];
      notify := notify[1..];
    }

    /** Takes the first event of the list at the head; the rest of the list goes to the back, into the place
        that the list has left. */
    method HandOut() returns (e: Event)
      requires Valid() && notify != [] && ListOf(notify[0]) != []
      modifies `notify, `latest, `handed, `moves
      ensures Valid() && handed == old(handed) + [e]
      ensures e == old(notify)[0].list[0] && notify == Requeued(old(notify))
    {
      ReachedSnoc(start, moves, HandingOut);
      moves := moves + [HandingOut];
      var list := notify[0].list;
      e := list[0];
      notify := notify[1..];
      if |list| > 1 {
        notify := notify + [Events(list[1..])];
      }
      LatestOfSnoc(rd, handed, e);
      latest := Noted(rd, latest, e);
      handed := handed + [e];
    }

    /** Drops what carries no event, until an event list, a failure or the end of the time. */
    method Ready() returns (ok: bool)
      requires Valid()
      modifies `notify, `incoming, `moves
      ensures Valid() && (ok ==> notify != [] && ListOf(notify[0]) != [])
      ensures Waited(old(notify), old(incoming), notify, incoming)
    {
      WaitedNone(notify, incoming);
      while true
        invariant Valid() && Waited(old(notify), old(incoming), notify, incoming)
        decreases Size(), |incoming|
      {
        var timeout, arrival: bool := *, *;
        if timeout || (notify == [] && incoming == []) {
          return false;
        }
        if notify == [] || (arrival && incoming != [] && |notify| < CAPACITY) {
          WaitedArrive(old(notify), old(incoming), notify, incoming);
          Deliver();
        } else {
          var msg := notify[0];
          if msg.Failure? {
            WaitedSkip(old(notify), old(incoming), notify, incoming);
            SkipHead();
            return false;
          }
          if msg.Events? && msg.list != [] {
            return true;
          }
          WaitedSkip(old(notify), old(incoming), notify, incoming);
          SkipHead();
        }
      }
    }

    /** The next event; none when the time is up or the channel delivers an error. */
    method Next() returns (r: Option<Event>)
      requires Valid()
      modifies this
      ensures Valid()
      ensures NextOk(old(handed), old(notify), old(incoming), handed, notify, incoming, r)
    {
      var ok := Ready();
      if !ok {
        return None;
      }
      NextKeeps(handed, old(notify), old(incoming), notify, incoming);
      var e := HandOut();
      return Some(e);
    }

    /** The same, as far as the rest of the command looks at it. */
    method Pull() returns (r: Option<Event>)
      requires Valid()
      modifies this
      ensures Valid()
      ensures if r.Some? then handed == old(handed) + [r.value] && Size() < old(Size()) else handed == old(handed)
    {
      r := Next();
    }

    /** The next event of the condition that matches. */
    method WaitFor(k: string, a: Action, comment: string) returns (ok: bool)
      requires Valid()
      modifies this
      ensures Valid() && old(handed) <= handed && (ok ==> handed != [])
      ensures FirstAnswer(handed, About(rd, k), a, comment, |old(handed)|, if ok then Some(|handed| - 1) else None)
    {
      while true
        invariant Valid() && old(handed) <= handed
        invariant NoAnswer(handed, About(rd, k), a, comment, |old(handed)|, |handed|)
        decreases Size()
      {
        ghost var h := handed;
        var e := Pull();
        if e.None? {
          return false;
        }
        NoAnswerGrows(h, handed, About(rd, k), a, comment, |old(handed)|, |h|);
        if Answers(handed, About(rd, k), a, comment, |handed| - 1) {
          return true;
        }
      }
    }

    /** Calls an action with the EventId of the latest event and waits for the follow-up. */
    method Perform(k: string, a: Action, comment: string, good: bool) returns (d: Done)
      requires Valid() && k in latest
      modifies this
      ensures Valid() && old(handed) <= handed && k in latest
      ensures CallOk(handed, a, comment, About(rd, k), Counts(rd, k), d) && d.good == good && d.repeat.None?
      ensures Missed(handed, a, comment, About(rd, k), d) && d.known == d.mark == |old(handed)|
    {
      var sent := latest[k].eventId;
      var mark := |handed|;
      d := Done(sent, mark, mark, good, None, None);
      if good {
        var found := WaitFor(k, a, comment);
        if found {
          d := d.(event := Some(|handed| - 1));
        }
      }
      PerformHolds(rd, old(handed), handed, k, a, comment, d);
    }

    /** The conditions up to the RefreshEnd, when the refresh was accepted. */
    method Refresh(good: bool) returns (conditions: seq<Event>, startSeen: bool, endSeen: bool)
      requires Valid()
      modifies this
      ensures Valid() && old(handed) <= handed
      ensures !good ==> handed == old(handed) && conditions == [] && !startSeen && !endSeen
      ensures good ==> var s := handed[|old(handed)|..];
                       conditions == Refreshed(rd, s) && startSeen == Started(rd, s) && endSeen == Ended(rd, s)
    {
      conditions, startSeen, endSeen := [], false, false;
      if !good {
        return;
      }
      var byID: map<string, nat> := map[];
      ghost var s: seq<Event> := [];
      while true
        invariant Valid() && old(handed) <= handed && s == handed[|old(handed)|..] && !endSeen
        invariant Collects(rd, s, conditions, byID, startSeen)
        decreases Size()
      {
        ghost var h := handed;
        var e := Pull();
        if e.None? {
          return;
        }
        conditions, byID, startSeen, endSeen := Note(rd, conditions, byID, startSeen, e.value, s);
        SliceSnoc(h, |old(handed)|, e.value);
        s := s + [e.value];
        if endSeen {
          return;
        }
      }
    }

    /** One action if it is wanted; `go` when nothing has failed. The Acknowledge is repeated with its
        EventId once its event has arrived; the repeated call may fail. */
    method Act(k: string, i: nat, wanted: seq<bool>, comment: string, answer: Action -> bool, repeat: Option<bool>,
               was: seq<Option<Done>>)
      returns (done: seq<Option<Done>>, go: bool)
      requires Valid() && k in latest && |wanted| == 3 && i < 3
      requires RunState(handed, comment, About(rd, k), Counts(rd, k), wanted, was, i) && (repeat.Some? ==> i == 0)
      requires AnsweredBy(was, answer)
      modifies this
      ensures Valid() && old(handed) <= handed && k in latest
      ensures Acted(handed, comment, About(rd, k), Counts(rd, k), wanted, was, i, done, go, repeat)
      ensures AnsweredBy(done, answer)
    {
      if !wanted[i] {
        ActedSkip(handed, comment, About(rd, k), Counts(rd, k), wanted, was, i, repeat);
        return was, true;
      }
      var d := Perform(k, ACTIONS[i], comment, answer(ACTIONS[i]));
      ActedStep(old(handed), handed, comment, About(rd, k), Counts(rd, k), wanted, was, i, d, repeat);
      if Completed(d) {
        d := d.(repeat := repeat);
      }
      AnsweredStep(was, answer, i, d);
      return was[i := Some(d)], Completed(d);
    }

    /** Acknowledge, Confirm, AddComment, each only after the ones before it were completed. */
    method RunActions(k: string, wanted: seq<bool>, comment: string, answer: Action -> bool, repeat: Option<bool>)
      returns (done: seq<Option<Done>>, success: bool)
      requires Valid() && k in latest && |wanted| == 3
      modifies this
      ensures Valid() && old(handed) <= handed
      ensures Sequenced(wanted, done, success) && CallsOk(handed, comment, About(rd, k), Counts(rd, k), done)
      ensures AllMissed(handed, comment, About(rd, k), done)
      ensures RepeatsCompleted(done[0], repeat) && AnsweredBy(done, answer)
    {
      var d0: seq<Option<Done>> := [None, None, None];
      var d1, ok1 := Act(k, 0, wanted, comment, answer, repeat, d0);
      ghost var h1 := handed;
      if !ok1 {
        ActedEnd(handed, comment, About(rd, k), Counts(rd, k), wanted, d0, 0, d1, false, repeat);
        return d1, false;
      }
      var d2, ok2 := Act(k, 1, wanted, comment, answer, None, d1);
      ghost var h2 := handed;
      PrefixTransitive(old(handed), h1, h2);
      if !ok2 {
        ActedEnd(handed, comment, About(rd, k), Counts(rd, k), wanted, d1, 1, d2, false, None);
        return d2, false;
      }
      done, success := Act(k, 2, wanted, comment, answer, None, d2);
      PrefixTransitive(old(handed), h2, handed);
      ActedEnd(handed, comment, About(rd, k), Counts(rd, k), wanted, d2, 2, done, success, None);
    }

    /** Everything after the monitored item exists. */
    method Run(refreshGood: bool, name: string, wanted: seq<bool>, comment: string, answer: Action -> bool,
               repeat: Option<bool>)
      returns (conditions: seq<Event>, startSeen: bool, endSeen: bool, target: Option<nat>, done: seq<Option<Done>>,
               success: bool)
      requires Valid() && |wanted| == 3
      modifies this
      ensures Valid() && old(handed) <= handed
      ensures !refreshGood ==> handed == old(handed) && conditions == [] && !startSeen && !endSeen
      ensures refreshGood ==> var s := handed[|old(handed)|..];
                              conditions == Refreshed(rd, s) && startSeen == Started(rd, s) && endSeen == Ended(rd, s)
      ensures Outcome(endSeen, conditions, NameOf(name), wanted, target, done, success)
      ensures RepeatsCompleted(done[0], repeat) && RepeatAsDocumented(done[0]) && AnsweredBy(done, answer)
      ensures target.Some? ==> rd.id(conditions[target.value]).Some?
      ensures target.Some? ==> var k := rd.id(conditions[target.value]).value;
                               CallsOk(handed, comment, About(rd, k), Counts(rd, k), done)
                                 && AllMissed(handed, comment, About(rd, k), done)
    {
      done, target, success := [None, None, None], None, false;
      conditions, startSeen, endSeen := Refresh(refreshGood);
      if !endSeen {
        return;
      }
      ghost var h := handed;
      target := SelectTarget(conditions, NameOf(name));
      if target.None? {
        success := wanted == [false, false, false];
        return;
      }
      RefreshedInLatest(rd, handed, |old(handed)|, target.value);
      var k := rd.id(conditions[target.value]).value;
      done, success := RunActions(k, wanted, comment, answer, repeat);
      WindowStays(rd, h, handed, |old(handed)|);
    }
  }

  lemma SliceSnoc(h: seq<Event>, from: nat, e: Event)
    requires from <= |h|
    ensures (h + [e])[from..] == h[from..] + [e]
  {
  }

  /** An empty name asks for the first retained condition. */
  function NameOf(name: string): Option<string> { if name == "" then None else Some(name) }

  lemma PerformHolds(rd: Reader<string>, h0: seq<Event>, h: seq<Event>, k: string, a: Action, comment: string, d: Done)
    requires h0 <= h && k in LatestOf(rd, h0)
    requires d.sent == LatestOf(rd, h0)[k].eventId && d.known == d.mark == |h0| && d.repeat.None?
    requires d.event.Some? ==> d.good && FirstAnswer(h, About(rd, k), a, comment, |h0|, d.event)
    ensures CallOk(h, a, comment, About(rd, k), Counts(rd, k), d) && k in LatestOf(rd, h)
  {
    var i := LatestIndex(rd, h0, k);
    LatestHas(rd, h, i);
    CallHolds(h0, h, a, comment, About(rd, k), Counts(rd, k), i, d);
  }

  /** The index of each listed condition. */
  ghost predicate Indexed(rd: Reader<string>, byID: map<string, nat>, conditions: seq<Event>) {
    && (forall k :: k in byID ==> byID[k] < |conditions| && Key(rd, conditions[byID[k]]) == Some(k))
    && (forall i :: 0 <= i < |conditions| ==> Key(rd, conditions[i]).Some?)
    && (forall i :: 0 <= i < |conditions| ==> var k := Key(rd, conditions[i]).value; k in byID && byID[k] == i)
  }

  lemma IndexedPut(rd: Reader<string>, byID: map<string, nat>, conditions: seq<Event>, e: Event)
    requires Indexed(rd, byID, conditions) && Key(rd, e).Some?
    ensures var k := Key(rd, e).value;
            if k in byID then
              Put(rd, conditions, e) == conditions[byID[k] := e] && Indexed(rd, byID, Put(rd, conditions, e))
            else
              Put(rd, conditions, e) == conditions + [e] && Indexed(rd, byID[k := |conditions|], Put(rd, conditions, e))
  {
    var k := Key(rd, e).value;
    PutAt(rd, conditions, e, if k in byID then Some(byID[k]) else None);
  }

  /** The state of the refresh after the events `s`, before a RefreshEnd. */
  ghost predicate Collects(rd: Reader<string>, s: seq<Event>, conditions: seq<Event>, byID: map<string, nat>,
                           startSeen: bool) {
    !Ended(rd, s) && conditions == Refreshed(rd, s) && startSeen == Started(rd, s) && Indexed(rd, byID, conditions)
  }

  lemma CollectsStep(rd: Reader<string>, s: seq<Event>, conditions: seq<Event>, byID: map<string, nat>, startSeen: bool,
                     e: Event)
    requires Collects(rd, s, conditions, byID, startSeen)
    ensures rd.mark(e) == End ==>
              var t := s + [e]; Ended(rd, t) && Refreshed(rd, t) == conditions && Started(rd, t) == startSeen
    ensures rd.mark(e) == Start ==> Collects(rd, s + [e], conditions, byID, true)
    ensures rd.mark(e) == Plain && rd.id(e).None? ==> Collects(rd, s + [e], conditions, byID, startSeen)
    ensures rd.mark(e) == Plain && rd.id(e).Some? ==>
              var k := rd.id(e).value;
              if k in byID then
                byID[k] < |conditions| && Collects(rd, s + [e], conditions[byID[k] := e], byID, startSeen)
              else Collects(rd, s + [e], conditions + [e], byID[k := |conditions|], startSeen)
  {
    RefreshedSnoc(rd, s, e);
    if Key(rd, e).Some? {
      IndexedPut(rd, byID, conditions, e);
    }
  }

  /** What one event does to the refresh. */
  method Note(rd: Reader<string>, was: seq<Event>, ids: map<string, nat>, started: bool, e: Event, ghost s: seq<Event>)
    returns (conditions: seq<Event>, byID: map<string, nat>, startSeen: bool, endSeen: bool)
    requires Collects(rd, s, was, ids, started)
    ensures endSeen == Ended(rd, s + [e]) && conditions == Refreshed(rd, s + [e]) && startSeen == Started(rd, s + [e])
    ensures !endSeen ==> Indexed(rd, byID, conditions)
  {
    CollectsStep(rd, s, was, ids, started, e);
    conditions, byID, startSeen, endSeen := was, ids, started, false;
    var entry := rd.id(e);
    match rd.mark(e)
    case Start => startSeen := true;
    case End => endSeen := true;
    case Plain =>
      if entry.Some? {
        if entry.value in byID {
          conditions := conditions[byID[entry.value] := e];
        } else {
          byID := byID[entry.value := |conditions|];
          conditions := conditions + [e];
        }
      }
  }

  /** Every refreshed condition has a latest event. */
  lemma RefreshedInLatest(rd: Reader<string>, h: seq<Event>, from: nat, i: nat)
    requires from <= |h| && i < |Refreshed(rd, h[from..])|
    ensures rd.id(Refreshed(rd, h[from..])[i]).Some?
    ensures rd.id(Refreshed(rd, h[from..])[i]).value in LatestOf(rd, h)
  {
    var s := h[from..];
    var w := s[..EndIndex(rd, s)];
    CollectedIsLastPerCondition(rd, w);
    assert ListsLast(rd, w, Collected(rd, w), i);
    var j :| 0 <= j < |w| && LastAt(rd, w, j) && w[j] == Collected(rd, w)[i];
    assert h[from + j] == w[j];
    LatestHas(rd, h, from + j);
  }
}
