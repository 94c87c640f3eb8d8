/** The Rust adapter: an event log with a list of indices, fed from a channel of messages. */
module RustAlarms {
  import opened Prelude
  import opened NodeIds
  import opened Alarms
  import opened AlarmActions

  /** The events of one NotificationMessage with their client handles. */
  type Message = seq<(nat, Event)>

  /** The events of the alarm item in a message. */
  function Own(m: Message): seq<Event> {
    if m == [] then [] else Own(m[..|m| - 1]) + (if m[|m| - 1].0 == 1 then [m[|m| - 1].1] else [])
  }

  lemma OwnSnoc(m: Message, i: nat)
    requires i < |m|
    ensures Own(m[..i + 1]) == if m[i].0 == 1 then Own(m[..i]) + [m[i].1] else Own(m[..i])
  {
    assert m[..i + 1][..i] == m[..i];
  }

  /** The condition events among `s`. */
  function Conditions(rd: Reader<NodeId>, s: seq<Event>): seq<Event> {
    if s == [] then []
    else Conditions(rd, s[..|s| - 1]) + (if Key(rd, s[|s| - 1]).Some? then [s[|s| - 1]] else [])
  }

  predicate InRange(log: seq<Event>, ix: seq<nat>) {
    forall k :: 0 <= k < |ix| ==> ix[k] < |log|
  }

  /** The events that the indices stand for. */
  function Listed(log: seq<Event>, ix: seq<nat>): (r: seq<Event>)
    requires InRange(log, ix)
    ensures |r| == |ix| && forall k :: 0 <= k < |ix| ==> r[k] == log[ix[k]]
  {
    seq(|ix|, k requires 0 <= k < |ix| => log[ix[k]])
  }

  /** The fields of the store. */
  datatype Store = Store(events: seq<Event>, phase: nat, startSeen: bool, endSeen: bool, conditions: seq<nat>)

  /** The events since the refresh was asked for. */
  function Since(phase: nat, all: seq<Event>, from: nat): seq<Event>
    requires from <= |all|
  {
    if phase == 0 then [] else all[from..]
  }

  /** The store after all the events `all`, with the refresh asked for after the first `from` of them. */
  ghost predicate Represents(rd: Reader<NodeId>, s: Store, all: seq<Event>, from: nat) {
    && from <= |all| && s.phase <= 2
    && s.events == Conditions(rd, all)
    && InRange(s.events, s.conditions)
    && var seen := Since(s.phase, all, from);
    && (s.phase == 2 <==> Ended(rd, seen))
    && s.endSeen == Ended(rd, seen) && s.startSeen == Started(rd, seen)
    && Listed(s.events, s.conditions) == Refreshed(rd, seen)
  }

  lemma SinceSnoc(phase: nat, all: seq<Event>, from: nat, e: Event)
    requires from <= |all|
    ensures Since(phase, all + [e], from) == if phase == 0 then [] else Since(phase, all, from) + [e]
  {
  }

  lemma ConditionsSnoc(rd: Reader<NodeId>, all: seq<Event>, e: Event)
    ensures Conditions(rd, all + [e]) == if Key(rd, e).Some? then Conditions(rd, all) + [e] else Conditions(rd, all)
  {
    assert (all + [e])[..|all|] == all;
  }

  /** Events that are about no condition: only the marks change. */
  lemma MarkKeeps(rd: Reader<NodeId>, s: Store, t: Store, all: seq<Event>, from: nat, e: Event)
    requires Represents(rd, s, all, from) && Key(rd, e).None?
    requires t == s.(startSeen := s.startSeen || (s.phase == 1 && rd.mark(e) == Start),
                     endSeen := s.endSeen || (s.phase == 1 && rd.mark(e) == End),
                     phase := if s.phase == 1 && rd.mark(e) == End then 2 else s.phase)
    ensures Represents(rd, t, all + [e], from)
  {
    ConditionsSnoc(rd, all, e);
    SinceSnoc(s.phase, all, from, e);
    RefreshedSnoc(rd, Since(s.phase, all, from), e);
  }

  lemma RecordKeeps(rd: Reader<NodeId>, s: Store, t: Store, all: seq<Event>, from: nat, e: Event)
    requires Represents(rd, s, all, from) && Key(rd, e).Some?
    requires t.events == s.events + [e] && InRange(t.events, t.conditions)
    requires t == s.(events := t.events, conditions := t.conditions)
    requires Listed(t.events, t.conditions)
          == if s.phase == 1 then Put(rd, Listed(s.events, s.conditions), e) else Listed(s.events, s.conditions)
    ensures Represents(rd, t, all + [e], from)
  {
    ConditionsSnoc(rd, all, e);
    SinceSnoc(s.phase, all, from, e);
    RefreshedSnoc(rd, Since(s.phase, all, from), e);
  }

  lemma {:induction false} ConditionsKeys(rd: Reader<NodeId>, all: seq<Event>)
    ensures forall i :: 0 <= i < |Conditions(rd, all)| ==> Key(rd, Conditions(rd, all)[i]).Some?
  {
    if all != [] {
      ConditionsKeys(rd, all[..|all| - 1]);
    }
  }

  /** Every logged event is about a condition, and the listed conditions are distinct. */
  lemma ListedDistinct(rd: Reader<NodeId>, s: Store, all: seq<Event>, from: nat)
    requires Represents(rd, s, all, from)
    ensures forall i :: 0 <= i < |s.events| ==> Key(rd, s.events[i]).Some?
    ensures forall j, k :: 0 <= j < k < |s.conditions| ==>
              Key(rd, Listed(s.events, s.conditions)[j]) != Key(rd, Listed(s.events, s.conditions)[k])
  {
    ConditionsKeys(rd, all);
    RefreshedKeys(rd, Since(s.phase, all, from));
  }

  /** Listing the new last event of the log at the place found for it. */
  lemma ListAt(rd: Reader<NodeId>, log: seq<Event>, ix: seq<nat>, e: Event, p: Option<nat>, ix': seq<nat>)
    requires InRange(log, ix) && Key(rd, e).Some?
    requires forall j, k :: 0 <= j < k < |ix| ==> Key(rd, Listed(log, ix)[j]) != Key(rd, Listed(log, ix)[k])
    requires p.Some? ==> p.value < |ix| && Key(rd, log[ix[p.value]]) == Key(rd, e)
    requires p.None? ==> forall k :: 0 <= k < |ix| ==> Key(rd, log[ix[k]]) != Key(rd, e)
    requires ix' == if p.Some? then ix[p.value := |log|] else ix + [|log|]
    ensures InRange(log + [e], ix') && Listed(log + [e], ix') == Put(rd, Listed(log, ix), e)
  {
    PutAt(rd, Listed(log, ix), e, p);
  }

  /** The first place of a condition in the list. */
  function Place(rd: Reader<NodeId>, log: seq<Event>, ix: seq<nat>, cid: NodeId): (p: Option<nat>)
    requires InRange(log, ix)
    ensures p.Some? ==> p.value < |ix| && rd.id(log[ix[p.value]]) == Some(cid)
    ensures forall k :: 0 <= k < (if p.Some? then p.value else |ix|) ==> rd.id(log[ix[k]]) != Some(cid)
  {
    if ix == [] then None
    else if rd.id(log[ix[0]]) == Some(cid) then Some(0)
    else
      match Place(rd, log, ix[1..], cid)
      case None => None
      case Some(k) => Some(k + 1)
  }

  /** The list after a new event of a condition, at the end of the log. */
  function Placed(log: seq<Event>, ix: seq<nat>, p: Option<nat>): seq<nat>
    requires p.Some? ==> p.value < |ix|
  {
    if p.Some? then ix[p.value := |log|] else ix + [|log|]
  }

  /** What an event does to the store. */
  function Added(rd: Reader<NodeId>, s: Store, e: Event): (t: Store)
    requires InRange(s.events, s.conditions)
    ensures InRange(t.events, t.conditions) && s.events <= t.events && (t.phase == 0 <==> s.phase == 0)
  {
    if rd.mark(e) == Start then (if s.phase == 1 then s.(startSeen := true) else s)
    else if rd.mark(e) == End then (if s.phase == 1 then s.(endSeen := true, phase := 2) else s)
    else if rd.id(e).None? then s
    else if s.phase != 1 then s.(events := s.events + [e])
    else s.(events := s.events + [e],
            conditions := Placed(s.events, s.conditions, Place(rd, s.events, s.conditions, rd.id(e).value)))
  }

  lemma AddedKeeps(rd: Reader<NodeId>, s: Store, all: seq<Event>, from: nat, e: Event)
    requires Represents(rd, s, all, from)
    ensures Represents(rd, Added(rd, s, e), all + [e], from)
  {
    var t := Added(rd, s, e);
    if Key(rd, e).None? {
      MarkKeeps(rd, s, t, all, from, e);
    } else {
      if s.phase == 1 {
        ListedDistinct(rd, s, all, from);
        ListAt(rd, s.events, s.conditions, e, Place(rd, s.events, s.conditions, rd.id(e).value), t.conditions);
      }
      RecordKeeps(rd, s, t, all, from, e);
    }
  }

  /** The store after the events `all`, one by one, with the refresh asked for after `from` of them. */
  function Stored(rd: Reader<NodeId>, all: seq<Event>, from: Option<nat>): (s: Store)
    ensures InRange(s.events, s.conditions)
  {
    var s := if all == [] then Store([], 0, false, false, [])
             else Added(rd, Stored(rd, all[..|all| - 1], from), all[|all| - 1]);
    if from == Some(|all|) then s.(phase := 1) else s
  }

  lemma {:induction false} StoredBefore(rd: Reader<NodeId>, all: seq<Event>, from: nat)
    requires |all| < from
    ensures Stored(rd, all, Some(from)) == Stored(rd, all, None)
  {
    if all != [] {
      StoredBefore(rd, all[..|all| - 1], from);
    }
  }

  lemma {:induction false} StoredPhase(rd: Reader<NodeId>, all: seq<Event>, from: Option<nat>)
    ensures Stored(rd, all, from).phase == 0 <==> from.None? || |all| < from.value
  {
    if all != [] {
      StoredPhase(rd, all[..|all| - 1], from);
    }
  }

  /** Asking for the refresh touches nothing but the phase. */
  lemma StoredBegin(rd: Reader<NodeId>, all: seq<Event>)
    ensures Stored(rd, all, Some(|all|)) == Stored(rd, all, None).(phase := 1)
  {
    if all != [] {
      StoredBefore(rd, all[..|all| - 1], |all|);
    }
  }

  lemma StoredSnoc(rd: Reader<NodeId>, all: seq<Event>, e: Event, from: Option<nat>)
    requires from.Some? ==> from.value <= |all|
    ensures Stored(rd, all + [e], from) == Added(rd, Stored(rd, all, from), e)
  {
    assert (all + [e])[..|all|] == all;
  }

  /** What the fields of the store stand for, in every state the program reaches. */
  lemma {:induction false} StoredRepresents(rd: Reader<NodeId>, all: seq<Event>, from: Option<nat>)
    requires from.Some? ==> from.value <= |all|
    ensures Represents(rd, Stored(rd, all, from), all, if from.Some? then from.value else |all|)
    decreases |all|, from.Some?
  {
    if from == Some(|all|) {
      StoredRepresents(rd, all, None);
      StoredAtBegin(rd, all);
    } else if all != [] {
      var t := all[..|all| - 1];
      StoredRepresents(rd, t, from);
      StoredAfter(rd, t, all[|all| - 1], from);
      assert all == t + [all[|all| - 1]];
    }
  }

  lemma StoredAtBegin(rd: Reader<NodeId>, all: seq<Event>)
    requires Represents(rd, Stored(rd, all, None), all, |all|)
    ensures Represents(rd, Stored(rd, all, Some(|all|)), all, |all|)
  {
    StoredBegin(rd, all);
    StoredPhase(rd, all, None);
    assert all[|all|..] == [];
  }

  lemma StoredAfter(rd: Reader<NodeId>, all: seq<Event>, e: Event, from: Option<nat>)
    requires (from.Some? ==> from.value <= |all|)
    requires Represents(rd, Stored(rd, all, from), all, if from.Some? then from.value else |all|)
    ensures Represents(rd, Stored(rd, all + [e], from), all + [e], if from.Some? then from.value else |all + [e]|)
  {
    AddedKeeps(rd, Stored(rd, all, from), all, if from.Some? then from.value else |all|, e);
    StoredSnoc(rd, all, e, from);
    StoredPhase(rd, all + [e], from);
  }

  lemma StoredList(rd: Reader<NodeId>, all: seq<Event>, from: nat)
    requires from <= |all|
    ensures var f, s := Stored(rd, all, Some(from)), all[from..];
            && Listed(f.events, f.conditions) == Refreshed(rd, s)
            && f.startSeen == Started(rd, s) && f.endSeen == Ended(rd, s)
  {
    StoredRepresents(rd, all, Some(from));
    StoredPhase(rd, all, Some(from));
  }

  lemma StoredKey(rd: Reader<NodeId>, all: seq<Event>, from: nat, i: nat)
    requires from <= |all| && i < |Stored(rd, all, Some(from)).conditions|
    ensures var f := Stored(rd, all, Some(from));
            var cid := rd.id(Listed(f.events, f.conditions)[i]);
            cid.Some? && Known(rd, f.events, cid.value)
  {
    var f := Stored(rd, all, Some(from));
    StoredRepresents(rd, all, Some(from));
    ListedDistinct(rd, f, all, from);
    assert Listed(f.events, f.conditions)[i] == f.events[f.conditions[i]];
  }

  /** Some event of the log is about the condition. */
  ghost predicate Known(rd: Reader<NodeId>, log: seq<Event>, cid: NodeId) {
    exists i :: 0 <= i < |log| && rd.id(log[i]) == Some(cid)
  }

  lemma KnownStays(rd: Reader<NodeId>, log: seq<Event>, more: seq<Event>, cid: NodeId)
    requires Known(rd, log, cid) && log <= more
    ensures Known(rd, more, cid)
  {
    var i :| 0 <= i < |log| && rd.id(log[i]) == Some(cid);
    assert more[i] == log[i];
  }

  class AlarmStore {
    /** How the adapter reads NodeId fields. */
    const rd: Reader<NodeId>
    var events: seq<Event>
    var phase: nat
    var startSeen: bool
    var endSeen: bool
    var conditions: seq<nat>
    /** Every event added, and how many of them before the refresh was asked for. */
    ghost var all: seq<Event>
    ghost var from: Option<nat>

    ghost function Fields(): Store reads this { Store(events, phase, startSeen, endSeen, conditions) }

    ghost predicate Valid() reads this {
      (from.Some? ==> from.value <= |all|) && Fields() == Stored(rd, all, from)
    }

    constructor (isNull: NodeId -> bool)
      ensures Valid() && from.None? && all == [] && rd == Rust(isNull)
    {
      rd := Rust(isNull);
      events, phase, startSeen, endSeen, conditions, all, from := [], 0, false, false, [], [], None;
    }

    method BeginRefresh()
      requires Valid() && from.None?
      modifies this
      ensures Valid() && all == old(all) && from == Some(|all|)
    {
      StoredBegin(rd, all);
      phase := 1;
      from := Some(|all|);
    }

    method Add(e: Event)
      requires Valid()
      modifies this
      ensures Valid() && all == old(all) + [e] && from == old(from) && old(events) <= events
    {
      StoredSnoc(rd, all, e, from);
      all := all + [e];
      var kind := rd.mark(e);
      if kind == Start {
        if phase == 1 {
          startSeen := true;
        }
        return;
      }
      if kind == End {
        if phase == 1 {
          endSeen := true;
          phase := 2;
        }
        return;
      }
      if rd.id(e).None? {
        return;
      }
      Record(e);
    }

    /** Logs a condition event and, while refreshing, lists it. */
    method Record(e: Event)
      requires Key(rd, e).Some? && InRange(events, conditions)
      modifies `events, `conditions
      ensures Fields() == old(Added(rd, Fields(), e))
    {
      if phase == 1 {
        var p := FindCondition(rd.id(e).value);
        if p.Some? {
          conditions := conditions[p.value := |events|];
        } else {
          conditions := conditions + [|events|];
        }
      }
      events := events + [e];
    }

    method FindCondition(cid: NodeId) returns (p: Option<nat>)
      requires InRange(events, conditions)
      ensures p == Place(rd, events, conditions, cid)
    {
      for k := 0 to |conditions|
        invariant forall j :: 0 <= j < k ==> rd.id(events[conditions[j]]) != Some(cid)
      {
        if rd.id(events[conditions[k]]) == Some(cid) {
          return Some(k);
        }
      }
      return None;
    }

    method Take(m: Message)
      requires Valid()
      modifies this
      ensures Valid() && all == old(all) + Own(m) && from == old(from) && old(events) <= events
    {
      for i := 0 to |m|
        invariant Valid() && all == old(all) + Own(m[..i]) && from == old(from) && old(events) <= events
      {
        OwnSnoc(m, i);
        if m[i].0 == 1 {
          Associate(old(all), Own(m[..i]), [m[i].1]);
          Add(m[i].1);
        }
      }
      assert m[..|m|] == m;
    }

    /** The last event of a condition in the log. */
    method Latest(cid: NodeId) returns (r: Option<nat>)
      ensures r.Some? ==> LastIndex(events, |events|, Counts(rd, cid), r.value)
      ensures r.None? ==> forall i :: 0 <= i < |events| ==> rd.id(events[i]) != Some(cid)
    {
      var i := |events|;
      while i > 0
        invariant 0 <= i <= |events|
        invariant forall j :: i <= j < |events| ==> rd.id(events[j]) != Some(cid)
      {
        i := i - 1;
        if rd.id(events[i]) == Some(cid) {
          return Some(i);
        }
      }
      return None;
    }

    /** The first follow-up of an action from `mark` on. */
    method FindFollowUp(cid: NodeId, a: Action, comment: string, mark: nat) returns (r: Option<nat>)
      requires mark <= |events|
      ensures FirstAnswer(events, About(rd, cid), a, comment, mark, r)
    {
      for i := mark to |events|
        invariant NoAnswer(events, About(rd, cid), a, comment, mark, i)
      {
        if Answers(events, About(rd, cid), a, comment, i) {
          return Some(i);
        }
      }
      return None;
    }
  }

  /** The notifications: those queued, and those that are still to arrive. */
  class Receiver {
    var queued: seq<Message>
    var incoming: seq<Message>

    ghost function Pending(): seq<Message> reads this { queued + incoming }

    /** The environment may deliver a message at any moment. */
    method Deliver()
      modifies this
      ensures Pending() == old(Pending()) && old(queued) <= queued
    {
      while incoming != []
        invariant Pending() == old(Pending()) && old(queued) <= queued
        decreases |incoming|
      {
        if * { return; }
        queued, incoming := queued + [incoming[0]], incoming[1..];
      }
    }

    /** The next message, if one is there; none is said only of an empty queue. */
    method TryRecv() returns (m: Option<Message>)
      modifies this
      ensures old(Pending()) == if m.Some? then [m.value] + Pending() else Pending()
      ensures if m.Some? then old(queued) <= [m.value] + queued else old(queued) == queued == []
    {
      Deliver();
      if queued == [] {
        return None;
      }
      m := Some(queued[0]);
      queued := queued[1..];
    }

    /** Waits for a message; none when the time is up. */
    method Recv() returns (m: Option<Message>)
      modifies this
      ensures old(Pending()) == if m.Some? then [m.value] + Pending() else Pending()
      ensures if m.Some? then old(queued) <= [m.value] + queued else old(queued) == queued
    {
      if queued == [] {
        if * { return None; }
        if incoming == [] { return None; }
        queued, incoming := [incoming[0]], incoming[1..];
      }
      m := Some(queued[0]);
      queued := queued[1..];
    }
  }

  /** The events of the alarm item in a run of messages. */
  function OwnAll(ms: seq<Message>): seq<Event> {
    if ms == [] then [] else Own(ms[0]) + OwnAll(ms[1..])
  }

  lemma OwnAllCons(all: seq<Event>, m: Message, rest: seq<Message>)
    ensures all + OwnAll([m] + rest) == (all + Own(m)) + OwnAll(rest)
  {
    assert ([m] + rest)[1..] == rest;
  }

  lemma {:induction false} OwnAllPrefix(a: seq<Message>, b: seq<Message>)
    requires a <= b
    ensures OwnAll(a) <= OwnAll(b)
  {
    if a != [] {
      OwnAllPrefix(a[1..], b[1..]);
    }
  }

  /** How many events have been taken in or are queued. */
  ghost function Arrived(rx: Receiver, st: AlarmStore): nat reads rx, st { |st.all| + |OwnAll(rx.queued)| }

  lemma ArrivedStep(all: seq<Event>, before: seq<Message>, m: Message, queued: seq<Message>)
    requires before <= [m] + queued
    ensures |all| + |OwnAll(before)| <= |all + Own(m)| + |OwnAll(queued)|
  {
    OwnAllCons(all, m, queued);
    OwnAllPrefix(before, [m] + queued);
  }

  /** What has arrived comes first of all that is heard; so of two moments the earlier one is a prefix. */
  lemma ArrivedFirst(heard: seq<Event>, all: seq<Event>, queued: seq<Message>, incoming: seq<Message>,
                     later: seq<Event>)
    requires heard == all + OwnAll(queued + incoming) && later <= heard && |all| + |OwnAll(queued)| <= |later|
    ensures all + OwnAll(queued) <= later
  {
    OwnAllPrefix(queued, queued + incoming);
    assert all + OwnAll(queued) <= heard;
  }

  /** An event is the alarm item's exactly if it came under its handle. */
  lemma {:induction false} OwnIs(m: Message, e: Event)
    ensures e in Own(m) <==> (1, e) in m
  {
    if m != [] {
      OwnIs(m[..|m| - 1], e);
      assert m == m[..|m| - 1] + [m[|m| - 1]];
    }
  }

  /** Every event that was taken in or still comes. */
  ghost function Heard(rx: Receiver, st: AlarmStore): seq<Event> reads rx, st { st.all + OwnAll(rx.Pending()) }

  /** Events are only added, in the order in which they come, and none is lost. */
  twostate predicate Grown(rx: Receiver, st: AlarmStore) reads rx, st {
    && st.Valid() && old(st.all) <= st.all && st.from == old(st.from) && old(st.events) <= st.events
    && Heard(rx, st) == old(Heard(rx, st)) && |rx.Pending()| <= |old(rx.Pending())|
  }

  /** Takes in everything that is queued: the queue is empty then. */
  method Drain(rx: Receiver, st: AlarmStore)
    requires st.Valid()
    modifies rx, st
    ensures Grown(rx, st)
    ensures rx.queued == [] && old(st.all) + OwnAll(old(rx.queued)) <= st.all
  {
    while true
      invariant Grown(rx, st) && old(Arrived(rx, st)) <= Arrived(rx, st)
      decreases |rx.Pending()|
    {
      ghost var all, queued := st.all, rx.queued;
      var m := rx.TryRecv();
      if m.None? {
        ArrivedFirst(Heard(rx, st), old(st.all), old(rx.queued), old(rx.incoming), st.all);
        return;
      }
      OwnAllCons(all, m.value, rx.Pending());
      ArrivedStep(all, queued, m.value, rx.queued);
      st.Take(m.value);
    }
  }

  /** Waits for one message and takes it in; false when the time is up. */
  method TakeNext(rx: Receiver, st: AlarmStore) returns (more: bool)
    requires st.Valid()
    modifies rx, st
    ensures Grown(rx, st) && old(Arrived(rx, st)) <= Arrived(rx, st)
    ensures if more then |rx.Pending()| < |old(rx.Pending())| else st.events == old(st.events)
    ensures !more ==> st.endSeen == old(st.endSeen)
  {
    var m := rx.Recv();
    if m.None? { return false; }
    OwnAllCons(st.all, m.value, rx.Pending());
    ArrivedStep(st.all, old(rx.queued), m.value, rx.queued);
    st.Take(m.value);
    return true;
  }

  /** Waits for the RefreshEnd; true when it was seen in time. */
  method WaitForEnd(rx: Receiver, st: AlarmStore) returns (found: bool)
    requires st.Valid()
    modifies rx, st
    ensures Grown(rx, st) && found == st.endSeen
  {
    while true
      invariant Grown(rx, st)
      decreases |rx.Pending()|
    {
      Drain(rx, st);
      if st.endSeen { return true; }
      if * { return false; }
      var more := TakeNext(rx, st);
      if !more { return st.endSeen; }
    }
  }

  /** Waits for a follow-up event from `mark` on, until the time is up, and looks for it once more. */
  method WaitForFollowUp(rx: Receiver, st: AlarmStore, cid: NodeId, a: Action, comment: string, mark: nat)
    returns (r: Option<nat>)
    requires st.Valid() && mark <= |st.events|
    modifies rx, st
    ensures Grown(rx, st) && old(Arrived(rx, st)) <= Arrived(rx, st)
    ensures FirstAnswer(st.events, About(st.rd, cid), a, comment, mark, r)
  {
    while true
      invariant Grown(rx, st) && old(Arrived(rx, st)) <= Arrived(rx, st)
      decreases |rx.Pending()|
    {
      Drain(rx, st);
      r := st.FindFollowUp(cid, a, comment, mark);
      if r.Some? { return; }
      if * { return; }
      var more := TakeNext(rx, st);
      if !more { return; }
    }
  }

  lemma {:induction false} ConditionsPrefix(rd: Reader<NodeId>, a: seq<Event>, b: seq<Event>)
    requires a <= b
    ensures Conditions(rd, a) <= Conditions(rd, b)
  {
    if |a| < |b| {
      var c := b[..|b| - 1];
      ConditionsPrefix(rd, a, c);
      assert b == c + [b[|b| - 1]];
    } else {
      assert a == b;
    }
  }

  /** Takes in what has arrived; the latest event of the condition. */
  method LatestNow(rx: Receiver, st: AlarmStore, cid: NodeId) returns (latest: nat)
    requires st.Valid() && Known(st.rd, st.events, cid)
    modifies rx, st
    ensures Grown(rx, st) && LastIndex(st.events, |st.events|, Counts(st.rd, cid), latest)
    ensures rx.queued == [] && old(st.all) + OwnAll(old(rx.queued)) <= st.all
    ensures Conditions(st.rd, old(st.all) + OwnAll(old(rx.queued))) <= st.events
  {
    Drain(rx, st);
    StoredRepresents(st.rd, st.all, st.from);
    ConditionsPrefix(st.rd, old(st.all) + OwnAll(old(rx.queued)), st.all);
    KnownStays(st.rd, old(st.events), st.events, cid);
    var r := st.Latest(cid);
    return r.value;
  }

  lemma LaterKnows(rd: Reader<NodeId>, heard: seq<Event>, was: seq<Event>, all: seq<Event>, queued: seq<Message>,
                   incoming: seq<Message>)
    requires was <= heard == all + OwnAll(queued + incoming) && |was| <= |all| + |OwnAll(queued)|
    ensures |Conditions(rd, was)| <= |Conditions(rd, all + OwnAll(queued))|
  {
    OwnAllPrefix(queued, queued + incoming);
    assert was <= all + OwnAll(queued);
    ConditionsPrefix(rd, was, all + OwnAll(queued));
  }

  /** Every call knew of at least `n` events. */
  ghost predicate KnownFrom(done: seq<Option<Done>>, n: nat) {
    forall k :: 0 <= k < |done| && done[k].Some? ==> n <= done[k].value.known
  }

  lemma KnownStep(done: seq<Option<Done>>, k: nat, d: Done, n: nat)
    requires k < |done| && KnownFrom(done, n) && n <= d.known
    ensures KnownFrom(done[k := Some(d)], n)
  {
  }

  /** One action of the loop. The Acknowledge is repeated with its EventId even if no event followed. */
  method Perform(rx: Receiver, st: AlarmStore, cid: NodeId, a: Action, comment: string, good: bool, repeatGood: bool)
    returns (d: Done)
    requires st.Valid() && Known(st.rd, st.events, cid)
    modifies rx, st
    ensures Grown(rx, st) && Known(st.rd, st.events, cid)
    ensures CallOk(st.events, a, comment, About(st.rd, cid), Counts(st.rd, cid), d) && d.good == good
    ensures Missed(st.events, a, comment, About(st.rd, cid), d)
    ensures d.repeat == if good && a == Acknowledge then Some(repeatGood) else None
    ensures old(Arrived(rx, st)) <= Arrived(rx, st)
    ensures |Conditions(st.rd, old(st.all) + OwnAll(old(rx.queued)))| <= d.known <= |st.events|
  {
    var latest := LatestNow(rx, st, cid);
    var mark := |st.events|;
    ghost var log := st.events;
    d := Done(st.events[latest].eventId, mark, mark, good, None, None);
    if good {
      var ev := WaitForFollowUp(rx, st, cid, a, comment, mark);
      PrefixTransitive(old(st.events), log, st.events);
      d := d.(event := ev, repeat := if a == Acknowledge then Some(repeatGood) else None);
    }
    KnownStays(st.rd, old(st.events), st.events, cid);
    CallHolds(log, st.events, a, comment, About(st.rd, cid), Counts(st.rd, cid), latest, d);
  }

  method RunActions(rx: Receiver, st: AlarmStore, cid: NodeId, wanted: seq<bool>, comment: string,
                    answer: Action -> bool, repeatGood: bool)
    returns (done: seq<Option<Done>>, success: bool)
    requires |wanted| == 3
    requires st.Valid() && Known(st.rd, st.events, cid)
    modifies rx, st
    ensures Grown(rx, st)
    ensures Sequenced(wanted, done, success)
    ensures CallsOk(st.events, comment, About(st.rd, cid), Counts(st.rd, cid), done)
            && AllMissed(st.events, comment, About(st.rd, cid), done)
    ensures RepeatsGood(done[0], repeatGood) && AnsweredBy(done, answer)
    ensures KnownFrom(done, |Conditions(st.rd, old(st.all) + OwnAll(old(rx.queued)))|)
  {
    done := [None, None, None];
    success := true;
    ghost var was := st.all + OwnAll(rx.queued);
    ghost var heard, n := Heard(rx, st), |Conditions(st.rd, was)|;
    OwnAllPrefix(rx.queued, rx.Pending());
    var k := 0;
    while k < 3 && success
      invariant Progress(wanted, done, success, k)
      invariant Grown(rx, st) && Known(st.rd, st.events, cid)
      invariant CallsOk(st.events, comment, About(st.rd, cid), Counts(st.rd, cid), done)
      invariant AllMissed(st.events, comment, About(st.rd, cid), done)
      invariant RepeatsGood(done[0], repeatGood) && AnsweredBy(done, answer)
      invariant |was| <= Arrived(rx, st) && KnownFrom(done, n)
    {
      if wanted[k] {
        ghost var log := st.events;
        LaterKnows(st.rd, heard, was, st.all, rx.queued, rx.incoming);
        var d := Perform(rx, st, cid, ACTIONS[k], comment, answer(ACTIONS[k]), repeatGood);
        CallsOkStep(log, st.events, comment, About(st.rd, cid), Counts(st.rd, cid), done, k, d);
        MissedStep(st.events, comment, About(st.rd, cid), wanted, done, k, d);
        ProgressStep(wanted, done, k, Some(d));
        AnsweredStep(done, answer, k, d);
        KnownStep(done, k, d, n);
        done := done[k := Some(d)];
        success := Completed(d);
      } else {
        ProgressStep(wanted, done, k, None);
        assert done == done[k := None];
      }
      k := k + 1;
    }
    ProgressEnd(wanted, done, success, k);
  }

  /** Takes in what is queued before the refresh is asked for. */
  method Begin(rx: Receiver, isNull: NodeId -> bool) returns (st: AlarmStore)
    modifies rx
    ensures fresh(st) && st.Valid() && st.rd == Rust(isNull) && st.from == Some(|st.all|)
    ensures Heard(rx, st) == OwnAll(old(rx.Pending()))
    ensures OwnAll(old(rx.queued)) <= st.all[..|st.all|]
  {
    st := new AlarmStore(isNull);
    assert st.all + OwnAll(rx.queued) == OwnAll(rx.queued) && Heard(rx, st) == OwnAll(rx.Pending());
    Drain(rx, st);
    st.BeginRefresh();
    assert st.all[..|st.all|] == st.all;
  }

  /** What lies before the window stays there. */
  lemma WindowKeeps(a: seq<Event>, all: seq<Event>, more: seq<Event>, n: nat)
    requires n <= |all| && a <= all[..n] && all <= more
    ensures a <= more[..n]
  {
  }

  /** Asks for the refresh and waits for its end. */
  method Refresh(rx: Receiver, isNull: NodeId -> bool, good: bool) returns (st: AlarmStore, ended: bool)
    modifies rx
    ensures fresh(st) && st.Valid() && st.rd == Rust(isNull) && st.from.Some?
    ensures Heard(rx, st) == OwnAll(old(rx.Pending()))
    ensures ended ==> good && st.endSeen
    ensures good ==> ended == st.endSeen
    ensures OwnAll(old(rx.queued)) <= st.all[..st.from.value]
  {
    st := Begin(rx, isNull);
    ended := false;
    if good {
      ghost var all := st.all;
      ended := WaitForEnd(rx, st);
      WindowKeeps(OwnAll(old(rx.queued)), all, st.all, |all|);
    }
  }

  /** No event says that a condition has been acknowledged. */
  ghost predicate NoneAcked(s: seq<Event>) { forall e :: e in s ==> e.acked != Some(true) }

  lemma {:induction false} ConditionsAmong(rd: Reader<NodeId>, all: seq<Event>, i: nat)
    requires i < |Conditions(rd, all)|
    ensures Conditions(rd, all)[i] in all
  {
    var t := all[..|all| - 1];
    if i < |Conditions(rd, t)| {
      ConditionsAmong(rd, t, i);
    }
  }

  /** Without an acknowledging event among all that are received, an Acknowledge gets no event. */
  lemma NoAckNoEvent(rd: Reader<NodeId>, all: seq<Event>, from: Option<nat>, heard: seq<Event>, comment: string,
                     cid: NodeId, done: seq<Option<Done>>)
    requires (from.Some? ==> from.value <= |all|) && all <= heard && NoneAcked(heard)
    requires CallsOk(Stored(rd, all, from).events, comment, About(rd, cid), Counts(rd, cid), done)
    ensures done[0].Some? ==> done[0].value.event.None?
  {
    if done[0].Some? && done[0].value.event.Some? {
      var log, i := Stored(rd, all, from).events, done[0].value.event.value;
      StoredRepresents(rd, all, from);
      assert CallOk(log, ACTIONS[0], comment, About(rd, cid), Counts(rd, cid), done[0].value);
      assert Answers(log, About(rd, cid), Acknowledge, comment, i);
      ConditionsAmong(rd, all, i);
    }
  }

  /** The target of the refreshed conditions and the actions on it. */
  method ActOnTarget(rx: Receiver, st: AlarmStore, conditions: seq<Event>, name: Option<string>, wanted: seq<bool>,
                     comment: string, answer: Action -> bool, repeatGood: bool)
    returns (target: Option<nat>, done: seq<Option<Done>>, success: bool)
    requires |wanted| == 3 && st.Valid() && st.from.Some? && InRange(st.events, st.conditions)
    requires conditions == Listed(st.events, st.conditions)
    modifies rx, st
    ensures Grown(rx, st) && Outcome(true, conditions, name, wanted, target, done, success)
    ensures target.Some? ==> var cid := st.rd.id(conditions[target.value]);
                             && cid.Some? && AllMissed(st.events, comment, About(st.rd, cid.value), done)
                             && CallsOk(st.events, comment, About(st.rd, cid.value), Counts(st.rd, cid.value), done)
    ensures RepeatsGood(done[0], repeatGood) && AnsweredBy(done, answer)
    ensures KnownFrom(done, |Conditions(st.rd, old(st.all) + OwnAll(old(rx.queued)))|)
    ensures NoneAcked(old(Heard(rx, st))) && target.Some? && wanted[0] && answer(Acknowledge) ==>
              !RepeatAsDocumented(done[0])
  {
    done := [None, None, None];
    target := SelectTarget(conditions, name);
    if target.None? {
      success := wanted == [false, false, false];
      return;
    }
    StoredKey(st.rd, st.all, st.from.value, target.value);
    var cid := st.rd.id(conditions[target.value]).value;
    done, success := RunActions(rx, st, cid, wanted, comment, answer, repeatGood);
    if NoneAcked(Heard(rx, st)) {
      NoAckNoEvent(st.rd, st.all, st.from, Heard(rx, st), comment, cid, done);
    }
  }

  /** The command after its monitored item exists: the conditions refreshed, the target, the actions on it. */
  method OpAlarms(rx: Receiver, isNull: NodeId -> bool, refreshGood: bool, name: Option<string>, wanted: seq<bool>,
                  comment: string, answer: Action -> bool, repeatGood: bool)
    returns (st: AlarmStore, conditions: seq<Event>, target: Option<nat>, done: seq<Option<Done>>, success: bool)
    requires |wanted| == 3
    modifies rx
    ensures fresh(st) && st.Valid() && st.rd == Rust(isNull) && st.from.Some?
    ensures Heard(rx, st) == OwnAll(old(rx.Pending())) && OwnAll(old(rx.queued)) <= st.all[..st.from.value]
    ensures var s := st.all[st.from.value..];
            conditions == Refreshed(st.rd, s) && st.startSeen == Started(st.rd, s) && st.endSeen == Ended(st.rd, s)
    ensures Outcome(refreshGood && st.endSeen, conditions, name, wanted, target, done, success)
    ensures target.Some? ==> var cid := st.rd.id(conditions[target.value]);
                             && cid.Some? && AllMissed(st.events, comment, About(st.rd, cid.value), done)
                             && CallsOk(st.events, comment, About(st.rd, cid.value), Counts(st.rd, cid.value), done)
    ensures RepeatsGood(done[0], repeatGood) && AnsweredBy(done, answer)
    ensures NoneAcked(OwnAll(old(rx.Pending()))) && target.Some? && wanted[0] && answer(Acknowledge) ==>
              !RepeatAsDocumented(done[0])
    ensures RepeatAsDocumented(done[0]) <==> done[0].Some? && done[0].value.good ==> done[0].value.event.Some?
  {
    var ended;
    st, ended := Refresh(rx, isNull, refreshGood);
    conditions := Listed(st.events, st.conditions);
    StoredList(st.rd, st.all, st.from.value);
    target, done, success := None, [None, None, None], false;
    if ended {
      ghost var all := st.all;
      target, done, success := ActOnTarget(rx, st, conditions, name, wanted, comment, answer, repeatGood);
      StoredList(st.rd, st.all, st.from.value);
      WindowKeeps(OwnAll(old(rx.queued)), all, st.all, st.from.value);
      WindowStays(st.rd, all, st.all, st.from.value);
    }
  }
}
