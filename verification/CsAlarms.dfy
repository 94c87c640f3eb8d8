/** The C# adapter: a log that the publish loop appends to, and a cursor that `Drain` moves over it. */
module CsAlarms {
  import opened Prelude
  import opened NodeIds
  import opened Alarms
  import opened AlarmActions

  /** After the events `p`, the next event belongs to the refresh that was asked for at `from`. */
  predicate InRefresh(rd: Reader<string>, from: Option<nat>, p: seq<Event>) {
    from.Some? && from.value <= |p| && !Ended(rd, p[from.value..])
  }

  /** The last event of each condition. The marks of the refresh do not count, whatever they name. */
  function LatestOf(rd: Reader<string>, from: Option<nat>, p: seq<Event>): map<string, Event> {
    if p == [] then map[]
    else
      var t, e := p[..|p| - 1], p[|p| - 1];
      var m := LatestOf(rd, from, t);
      if rd.id(e).Some? && !(InRefresh(rd, from, t) && rd.mark(e) != Plain) then m[rd.id(e).value := e] else m
  }

  lemma LatestOfSnoc(rd: Reader<string>, from: Option<nat>, p: seq<Event>, e: Event)
    ensures LatestOf(rd, from, p + [e]) ==
            var m := LatestOf(rd, from, p);
            if rd.id(e).Some? && !(InRefresh(rd, from, p) && rd.mark(e) != Plain) then m[rd.id(e).value := e] else m
  {
    assert (p + [e])[..|p|] == p;
  }

  /** The events of the refresh among the processed ones. */
  function Seen(from: Option<nat>, p: seq<Event>): seq<Event> {
    if from.Some? && from.value <= |p| then p[from.value..] else []
  }

  predicate Within(keys: seq<string>, m: map<string, Event>) {
    forall i :: 0 <= i < |keys| ==> keys[i] in m
  }

  function Listed(keys: seq<string>, m: map<string, Event>): (r: seq<Event>)
    requires Within(keys, m)
    ensures |r| == |keys| && forall i :: 0 <= i < |keys| ==> r[i] == m[keys[i]]
  {
    seq(|keys|, i requires 0 <= i < |keys| => m[keys[i]])
  }

  datatype Fields = Fields(startSeen: bool, endSeen: bool, conditions: seq<string>,
                           conditionEvents: map<string, Event>, latest: map<string, Event>)

  /** The list and the dictionary hold the same conditions, once each, every event under its own key. */
  ghost predicate Filed(rd: Reader<string>, keys: seq<string>, m: map<string, Event>) {
    && Within(keys, m)
    && (forall k :: k in m ==> k in keys && Key(rd, m[k]) == Some(k))
    && (forall i, j :: 0 <= i < j < |keys| ==> keys[i] != keys[j])
  }

  /** The variables after the events `p`. */
  ghost predicate Represents(rd: Reader<string>, f: Fields, from: Option<nat>, p: seq<Event>) {
    && f.startSeen == Started(rd, Seen(from, p)) && f.endSeen == Ended(rd, Seen(from, p))
    && Filed(rd, f.conditions, f.conditionEvents)
    && Listed(f.conditions, f.conditionEvents) == Refreshed(rd, Seen(from, p))
    && f.latest == LatestOf(rd, from, p)
    && f.conditionEvents.Keys <= f.latest.Keys
  }

  lemma SeenSnoc(from: Option<nat>, p: seq<Event>, e: Event)
    ensures Seen(from, p + [e]) == if from.Some? && from.value <= |p| then Seen(from, p) + [e] else []
  {
  }

  lemma FiledDistinct(rd: Reader<string>, keys: seq<string>, m: map<string, Event>)
    requires Filed(rd, keys, m)
    ensures var r := Listed(keys, m); forall i, j :: 0 <= i < j < |r| ==> Key(rd, r[i]) != Key(rd, r[j])
  {
    var r := Listed(keys, m);
    forall i, j | 0 <= i < j < |r| ensures Key(rd, r[i]) != Key(rd, r[j]) {
      assert keys[i] != keys[j];
    }
  }

  lemma FileAgain(rd: Reader<string>, keys: seq<string>, m: map<string, Event>, e: Event, i: nat)
    requires Filed(rd, keys, m) && i < |keys| && Key(rd, e) == Some(keys[i])
    ensures Filed(rd, keys, m[keys[i] := e]) && Listed(keys, m[keys[i] := e]) == Listed(keys, m)[i := e]
  {
  }

  lemma FileNew(rd: Reader<string>, keys: seq<string>, m: map<string, Event>, e: Event, k: string)
    requires Filed(rd, keys, m) && k !in m && Key(rd, e) == Some(k)
    ensures Filed(rd, keys + [k], m[k := e]) && Listed(keys + [k], m[k := e]) == Listed(keys, m) + [e]
  {
    var keys', m' := keys + [k], m[k := e];
    assert forall i :: 0 <= i < |keys| ==> keys'[i] == keys[i] && keys[i] in m;
    assert keys'[|keys|] == k;
  }

  /** Filing an event of the refresh. */
  lemma FilePut(rd: Reader<string>, keys: seq<string>, m: map<string, Event>, e: Event)
    requires Filed(rd, keys, m) && Key(rd, e).Some?
    ensures var k := Key(rd, e).value;
            var keys', m' := if k in m then keys else keys + [k], m[k := e];
            Filed(rd, keys', m') && Listed(keys', m') == Put(rd, Listed(keys, m), e)
  {
    var k := Key(rd, e).value;
    FiledDistinct(rd, keys, m);
    if k in m {
      var i :| 0 <= i < |keys| && keys[i] == k;
      FileAgain(rd, keys, m, e, i);
      PutAt(rd, Listed(keys, m), e, Some(i));
    } else {
      FileNew(rd, keys, m, e, k);
      PutAt(rd, Listed(keys, m), e, None);
    }
  }

  /** An event that changes the marks at most. */
  lemma MarkKeeps(rd: Reader<string>, f: Fields, from: Option<nat>, p: seq<Event>, e: Event)
    requires Represents(rd, f, from, p) && InRefresh(rd, from, p) && rd.mark(e) != Plain
    ensures Represents(rd, f.(startSeen := f.startSeen || rd.mark(e) == Start, endSeen := rd.mark(e) == End), from,
                       p + [e])
  {
    LatestOfSnoc(rd, from, p, e);
    SeenSnoc(from, p, e);
    RefreshedSnoc(rd, Seen(from, p), e);
  }

  lemma OtherKeeps(rd: Reader<string>, f: Fields, from: Option<nat>, p: seq<Event>, e: Event)
    requires Represents(rd, f, from, p) && !(InRefresh(rd, from, p) && (rd.mark(e) != Plain || rd.id(e).Some?))
    ensures Represents(rd, f.(latest := if rd.id(e).Some? then f.latest[rd.id(e).value := e] else f.latest), from,
                       p + [e])
  {
    LatestOfSnoc(rd, from, p, e);
    SeenSnoc(from, p, e);
    RefreshedSnoc(rd, Seen(from, p), e);
  }

  lemma ConditionKeeps(rd: Reader<string>, f: Fields, from: Option<nat>, p: seq<Event>, e: Event)
    requires Represents(rd, f, from, p) && InRefresh(rd, from, p) && Key(rd, e).Some?
    ensures var k := rd.id(e).value;
            Represents(rd, f.(latest := f.latest[k := e], conditionEvents := f.conditionEvents[k := e],
                              conditions := if k in f.conditionEvents then f.conditions else f.conditions + [k]),
                       from, p + [e])
  {
    LatestOfSnoc(rd, from, p, e);
    SeenSnoc(from, p, e);
    RefreshedSnoc(rd, Seen(from, p), e);
    FilePut(rd, f.conditions, f.conditionEvents, e);
  }

  /** What an event does to the variables. */
  function Taken(rd: Reader<string>, f: Fields, inRefresh: bool, e: Event): Fields {
    if inRefresh && rd.mark(e) == Start then f.(startSeen := true)
    else if inRefresh && rd.mark(e) == End then f.(endSeen := true)
    else if rd.id(e).None? then f
    else
      var k := rd.id(e).value;
      var g := f.(latest := f.latest[k := e]);
      if !inRefresh then g
      else g.(conditions := if k in f.conditionEvents then f.conditions else f.conditions + [k],
              conditionEvents := f.conditionEvents[k := e])
  }

  lemma TakenKeeps(rd: Reader<string>, f: Fields, from: Option<nat>, p: seq<Event>, e: Event)
    requires Represents(rd, f, from, p)
    ensures Represents(rd, Taken(rd, f, InRefresh(rd, from, p), e), from, p + [e])
  {
    if InRefresh(rd, from, p) && rd.mark(e) != Plain {
      MarkKeeps(rd, f, from, p, e);
      TakenMark(rd, f, e);
    } else if InRefresh(rd, from, p) && rd.id(e).Some? {
      ConditionKeeps(rd, f, from, p, e);
      TakenCondition(rd, f, e);
    } else {
      OtherKeeps(rd, f, from, p, e);
      TakenOther(rd, f, InRefresh(rd, from, p), e);
    }
  }

  lemma TakenMark(rd: Reader<string>, f: Fields, e: Event)
    requires !f.endSeen && rd.mark(e) != Plain
    ensures Taken(rd, f, true, e) == f.(startSeen := f.startSeen || rd.mark(e) == Start, endSeen := rd.mark(e) == End)
  {
  }

  lemma TakenCondition(rd: Reader<string>, f: Fields, e: Event)
    requires Key(rd, e).Some?
    ensures var k := rd.id(e).value;
            Taken(rd, f, true, e) == f.(latest := f.latest[k := e], conditionEvents := f.conditionEvents[k := e],
                                        conditions := if k in f.conditionEvents then f.conditions
                                                      else f.conditions + [k])
  {
  }

  lemma TakenOther(rd: Reader<string>, f: Fields, inRefresh: bool, e: Event)
    requires !(inRefresh && (rd.mark(e) != Plain || rd.id(e).Some?))
    ensures Taken(rd, f, inRefresh, e) ==
            f.(latest := if rd.id(e).Some? then f.latest[rd.id(e).value := e] else f.latest)
  {
  }

  /** The variables after the events `p`, one by one. */
  function Drained(rd: Reader<string>, from: Option<nat>, p: seq<Event>): Fields {
    if p == [] then Fields(false, false, [], map[], map[])
    else
      var f := Drained(rd, from, p[..|p| - 1]);
      Taken(rd, f, from.Some? && from.value <= |p| - 1 && !f.endSeen, p[|p| - 1])
  }

  lemma DrainedSnoc(rd: Reader<string>, from: Option<nat>, p: seq<Event>, e: Event)
    ensures Drained(rd, from, p + [e]) ==
            var f := Drained(rd, from, p); Taken(rd, f, from.Some? && from.value <= |p| && !f.endSeen, e)
  {
    assert (p + [e])[..|p|] == p;
  }

  /** What the variables stand for, in every state the program reaches. */
  lemma {:induction false} DrainedRepresents(rd: Reader<string>, from: Option<nat>, p: seq<Event>)
    ensures Represents(rd, Drained(rd, from, p), from, p)
  {
    if p != [] {
      var t, e := p[..|p| - 1], p[|p| - 1];
      DrainedRepresents(rd, from, t);
      TakenKeeps(rd, Drained(rd, from, t), from, t, e);
      assert p == t + [e];
    }
  }

  lemma DrainedList(rd: Reader<string>, from: nat, p: seq<Event>)
    requires from <= |p|
    ensures var f := Drained(rd, Some(from), p);
            && Within(f.conditions, f.conditionEvents)
            && Listed(f.conditions, f.conditionEvents) == Refreshed(rd, p[from..])
            && f.startSeen == Started(rd, p[from..]) && f.endSeen == Ended(rd, p[from..])
  {
    DrainedRepresents(rd, Some(from), p);
  }

  lemma DrainedLatest(rd: Reader<string>, from: Option<nat>, p: seq<Event>)
    ensures Drained(rd, from, p).latest == LatestOf(rd, from, p)
  {
    DrainedRepresents(rd, from, p);
  }

  lemma DrainedKey(rd: Reader<string>, from: Option<nat>, p: seq<Event>, i: nat)
    requires i < |Drained(rd, from, p).conditions|
    ensures var f := Drained(rd, from, p);
            var k := f.conditions[i];
            k in f.conditionEvents && rd.id(f.conditionEvents[k]) == Some(k) && k in f.latest
  {
    DrainedRepresents(rd, from, p);
  }

  /** Asking for a refresh does not touch what was seen before it. */
  lemma {:induction false} DrainedBefore(rd: Reader<string>, from: nat, p: seq<Event>)
    requires |p| <= from
    ensures Drained(rd, Some(from), p) == Drained(rd, None, p)
  {
    if p != [] {
      DrainedBefore(rd, from, p[..|p| - 1]);
    }
  }

  /** Up to the end of the refresh at `stop`, its marks do not count as events of a condition. */
  function CountsAfter(rd: Reader<string>, k: string, from: nat, stop: nat): (Event, int) -> bool {
    (e: Event, i: int) => rd.id(e) == Some(k) && !(from <= i <= stop && rd.mark(e) != Plain)
  }

  /** Where the refresh asked for at `from` ended. */
  function Stop(rd: Reader<string>, from: nat, p: seq<Event>): nat
    requires from <= |p|
  {
    from + EndIndex(rd, p[from..])
  }

  lemma {:induction false} EndedPrefix(rd: Reader<string>, s: seq<Event>, m: nat)
    requires m <= |s|
    ensures Ended(rd, s[..m]) <==> EndIndex(rd, s) < m
    decreases |s| - m
  {
    if m < |s| {
      EndedPrefix(rd, s, m + 1);
      assert s[..m + 1] == s[..m] + [s[m]];
      RefreshedSnoc(rd, s[..m], s[m]);
    } else {
      assert s[..m] == s;
    }
  }

  /** Which events count is settled once the refresh has ended. */
  lemma CountsIs(rd: Reader<string>, from: nat, p: seq<Event>, i: nat, stop: nat)
    requires i < |p| && from <= |p| && stop == Stop(rd, from, p)
    ensures InRefresh(rd, Some(from), p[..i]) <==> from <= i <= stop
  {
    if from <= i {
      EndedPrefix(rd, p[from..], i - from);
      assert p[from..][..i - from] == p[..i][from..];
    }
  }

  /** The latest event of a condition is the last one that counts. */
  lemma {:induction false} LatestIndex(rd: Reader<string>, from: nat, p: seq<Event>, q: seq<Event>,
                                       k: string)
    returns (i: nat)
    requires q <= p && from <= |p| && k in LatestOf(rd, Some(from), q)
    ensures LastIndex(q, |q|, CountsAfter(rd, k, from, Stop(rd, from, p)), i) && LatestOf(rd, Some(from), q)[k] == q[i]
    decreases |q|
  {
    var t, n := q[..|q| - 1], |q| - 1;
    CountsIs(rd, from, p, n, Stop(rd, from, p));
    assert p[..n] == t && p[n] == q[n];
    if CountsAfter(rd, k, from, Stop(rd, from, p))(q[n], n) {
      i := n;
    } else {
      i := LatestIndex(rd, from, p, t, k);
      assert forall j :: 0 <= j < n ==> t[j] == q[j];
    }
  }

  lemma StopStays(rd: Reader<string>, from: nat, p: seq<Event>, q: seq<Event>)
    requires from <= |p| && p <= q && Stop(rd, from, p) < |p|
    ensures Stop(rd, from, q) == Stop(rd, from, p)
  {
    var s, t := p[from..], q[from..];
    assert forall i :: 0 <= i < |s| ==> t[i] == s[i];
  }

  lemma ActionHolds(rd: Reader<string>, from: nat, p: seq<Event>, log: seq<Event>, k: string, a: Action,
                    comment: string, d: Done)
    requires from <= |p| && p <= log && Stop(rd, from, p) < |p| && k in LatestOf(rd, Some(from), p)
    requires d.sent == LatestOf(rd, Some(from), p)[k].eventId && d.known == |p| <= d.mark <= |log| && d.repeat.None?
    requires d.event.Some? ==> d.good
    requires d.good ==> FirstAnswer(log, About(rd, k), a, comment, d.mark, d.event)
    ensures Missed(log, a, comment, About(rd, k), d)
    ensures Stop(rd, from, log) == Stop(rd, from, p)
    ensures CallOk(log, a, comment, About(rd, k), CountsAfter(rd, k, from, Stop(rd, from, p)), d)
  {
    StopStays(rd, from, p, log);
    var i := LatestIndex(rd, from, p, p, k);
    CallHolds(p, log, a, comment, About(rd, k), CountsAfter(rd, k, from, Stop(rd, from, p)), i, d);
  }

  // ---- waiting for the end of the refresh

  /** One turn of the wait: how much of the log was processed, and how much of it was there when it was scanned. */
  datatype Round = Round(drained: nat, scanned: nat)

  function ScannedTo(from: nat, rounds: seq<Round>): nat {
    if rounds == [] then from else rounds[|rounds| - 1].scanned
  }

  predicate InLog(log: seq<Event>, from: nat, before: nat, r: Round) {
    from <= before <= r.drained <= r.scanned <= |log|
  }

  /** A turn ends the wait when something new is scanned and the RefreshEnd was processed before. */
  predicate EndsWait(rd: Reader<string>, log: seq<Event>, from: nat, before: nat, r: Round)
    requires InLog(log, from, before, r)
  {
    before < r.scanned && Ended(rd, log[from..r.drained])
  }

  /** Turns that did not end the wait. */
  predicate Waiting(rd: Reader<string>, log: seq<Event>, from: nat, rounds: seq<Round>) {
    rounds == [] ||
    var t, r := rounds[..|rounds| - 1], rounds[|rounds| - 1];
    && Waiting(rd, log, from, t) && InLog(log, from, ScannedTo(from, t), r)
    && !EndsWait(rd, log, from, ScannedTo(from, t), r)
  }

  /** A whole wait: it ends early exactly with the first turn that ends it. */
  predicate Wait(rd: Reader<string>, log: seq<Event>, from: nat, rounds: seq<Round>, early: bool) {
    && rounds != []
    && if !early then Waiting(rd, log, from, rounds)
       else
         var t, r := rounds[..|rounds| - 1], rounds[|rounds| - 1];
         && Waiting(rd, log, from, t) && InLog(log, from, ScannedTo(from, t), r)
         && EndsWait(rd, log, from, ScannedTo(from, t), r)
  }

  lemma {:induction false} WaitingGrows(rd: Reader<string>, log: seq<Event>, more: seq<Event>, from: nat,
                                        rounds: seq<Round>)
    requires Waiting(rd, log, from, rounds) && log <= more
    ensures Waiting(rd, more, from, rounds)
  {
    if rounds != [] {
      var t, r := rounds[..|rounds| - 1], rounds[|rounds| - 1];
      WaitingGrows(rd, log, more, from, t);
      assert more[from..r.drained] == log[from..r.drained];
    }
  }

  lemma RoundDone(rd: Reader<string>, log: seq<Event>, more: seq<Event>, from: nat, rounds: seq<Round>, r: Round)
    requires Waiting(rd, log, from, rounds) && log <= more && InLog(more, from, ScannedTo(from, rounds), r)
    ensures Wait(rd, more, from, rounds + [r], EndsWait(rd, more, from, ScannedTo(from, rounds), r))
  {
    WaitingGrows(rd, log, more, from, rounds);
    assert (rounds + [r])[..|rounds|] == rounds;
  }

  lemma {:induction false} ScannedGrows(rd: Reader<string>, log: seq<Event>, from: nat, rounds: seq<Round>, i: nat)
    requires Waiting(rd, log, from, rounds) && i < |rounds|
    ensures rounds[i].scanned <= ScannedTo(from, rounds) <= |log|
  {
    if i < |rounds| - 1 { ScannedGrows(rd, log, from, rounds[..|rounds| - 1], i); }
  }

  /** A RefreshEnd that arrives between the processing and the scan of a turn is passed over: if nothing arrives
      after it, the wait goes on until the time is up. */
  lemma PassedOver(rd: Reader<string>, log: seq<Event>, from: nat, rounds: seq<Round>, early: bool, i: nat)
    requires Wait(rd, log, from, rounds, early) && i < |rounds| && from <= rounds[i].drained <= |log|
    requires rounds[i].scanned == |log| && !Ended(rd, log[from..rounds[i].drained])
    ensures !early
  {
    if early && i < |rounds| - 1 { ScannedGrows(rd, log, from, rounds[..|rounds| - 1], i); }
  }

  class AlarmLog {
    const rd: Reader<string>
    /** The log of the publish loop, and the events that are still to arrive. */
    var events: seq<Event>
    var incoming: seq<Event>
    var processed: nat
    var refreshFrom: Option<nat>
    var startSeen: bool
    var endSeen: bool
    var conditions: seq<string>
    var conditionEvents: map<string, Event>
    var latest: map<string, Event>
    /** The time that is left. */
    var remaining: nat
    /** Everything that the server sends: none is lost and none is made up. */
    ghost const sent: seq<Event>

    ghost function State(): Fields reads this { Fields(startSeen, endSeen, conditions, conditionEvents, latest) }

    ghost predicate Valid() reads this {
      && processed <= |events| && (refreshFrom.Some? ==> refreshFrom.value <= |events|)
      && events + incoming == sent
      && State() == Drained(rd, refreshFrom, events[..processed])
    }

    constructor (isNull: NodeId -> bool, show: NodeId -> string, incoming: seq<Event>, timeout: nat)
      ensures Valid() && rd == CSharp(isNull, show) && events == [] && refreshFrom.None? && this.incoming == incoming
      ensures sent == incoming
    {
      rd, sent := CSharp(isNull, show), incoming;
      events, this.incoming, processed, refreshFrom, startSeen, endSeen := [], incoming, 0, None, false, false;
      conditions, conditionEvents, latest, remaining := [], map[], map[], timeout;
    }

    /** The publish loop may append to the log whenever the lock is free. */
    method Arrive()
      requires Valid()
      modifies `events, `incoming
      ensures Valid() && old(events) <= events
    {
      var n: int := *;
      if 0 <= n <= |incoming| {
        events, incoming := events + incoming[..n], incoming[n..];
        assert events[..processed] == old(events[..processed]);
        assert old(incoming)[..n] + old(incoming)[n..] == old(incoming);
      }
    }

    /** Processes the event at the cursor. */
    method Process()
      requires Valid() && processed < |events|
      modifies this
      ensures Valid() && processed == old(processed) + 1 && old(latest.Keys) <= latest.Keys
      ensures events == old(events) && refreshFrom == old(refreshFrom) && remaining == old(remaining)
      ensures old(endSeen) ==> endSeen
    {
      ghost var p := events[..processed];
      var e := events[processed];
      DrainedSnoc(rd, refreshFrom, p, e);
      var inRefresh := refreshFrom.Some? && processed >= refreshFrom.value && !endSeen;
      TakeIn(e, inRefresh);
      processed := processed + 1;
      assert events[..processed] == p + [e];
    }

    method TakeIn(e: Event, inRefresh: bool)
      modifies `startSeen, `endSeen, `conditions, `conditionEvents, `latest
      ensures State() == old(Taken(rd, State(), inRefresh, e)) && old(latest.Keys) <= latest.Keys
    {
      var mark, cond := rd.mark(e), rd.id(e);
      if inRefresh && mark == Start {
        startSeen := true;
        return;
      }
      if inRefresh && mark == End {
        endSeen := true;
        return;
      }
      if cond.None? {
        return;
      }
      var key := cond.value;
      latest := latest[key := e];
      if inRefresh {
        if key !in conditionEvents {
          conditions := conditions + [key];
        }
        conditionEvents := conditionEvents[key := e];
      }
    }

    method Drain()
      requires Valid()
      modifies this
      ensures Valid() && processed == |events| && old(latest.Keys) <= latest.Keys
      ensures events == old(events) && refreshFrom == old(refreshFrom) && remaining == old(remaining)
      ensures old(endSeen) ==> endSeen
    {
      while processed < |events|
        invariant Valid() && old(latest.Keys) <= latest.Keys
        invariant events == old(events) && refreshFrom == old(refreshFrom) && remaining == old(remaining)
        invariant old(endSeen) ==> endSeen
      {
        Process();
      }
    }

    /** Asks for the refresh and waits for its end. */
    method Refresh(good: bool)
      requires Valid() && refreshFrom.None?
      modifies this
      ensures Valid() && old(events) <= events && processed == |events|
      ensures refreshFrom == Some(|old(events)|)
      ensures good && !endSeen ==> remaining == 0
    {
      refreshFrom := Some(|events|);
      DrainedBefore(rd, |events|, events[..processed]);
      Arrive();
      if good {
        var early;
        ghost var rounds;
        early, rounds := WaitForEnd();
      }
      Drain();
    }

    /** Processes what has arrived; more may arrive before the log is scanned. */
    method LookOnce() returns (ghost r: Round)
      requires Valid() && refreshFrom.Some?
      modifies this
      ensures Valid() && old(events) <= events && refreshFrom == old(refreshFrom) && remaining == old(remaining)
      ensures r == Round(|old(events)|, |events|)
      ensures endSeen == Ended(rd, events[refreshFrom.value..r.drained])
    {
      Drain();
      ghost var log := events;
      assert log[..processed] == log;
      DrainedList(rd, refreshFrom.value, log);
      Arrive();
      SliceStays(log, events, refreshFrom.value);
      r := Round(|log|, |events|);
    }

    /** Waits until an event is scanned while the RefreshEnd has been seen, or the time is up. */
    method WaitForEnd() returns (early: bool, ghost rounds: seq<Round>)
      requires Valid() && refreshFrom.Some?
      modifies this
      ensures Valid() && old(events) <= events && refreshFrom == old(refreshFrom)
      ensures if early then endSeen else remaining == 0
      ensures Wait(rd, events, refreshFrom.value, rounds, early)
    {
      var scanned := refreshFrom.value;
      rounds := [];
      while true
        invariant Valid() && old(events) <= events && refreshFrom == old(refreshFrom)
        invariant scanned == ScannedTo(refreshFrom.value, rounds) <= |events|
        invariant Waiting(rd, events, refreshFrom.value, rounds)
        decreases remaining
      {
        ghost var log := events;
        ghost var r := LookOnce();
        PrefixTransitive(old(events), log, events);
        RoundDone(rd, log, events, refreshFrom.value, rounds, r);
        rounds := rounds + [r];
        if scanned < |events| && endSeen {
          return true, rounds;
        }
        scanned := |events|;
        if remaining == 0 {
          return false, rounds;
        }
        remaining := remaining - 1;
        log := events;
        Arrive();
        PrefixTransitive(old(events), log, events);
        WaitingGrows(rd, log, events, refreshFrom.value, rounds);
      }
    }

    /** Waits for the first follow-up event from `mark` on. */
    method WaitForFollowUp(k: string, a: Action, comment: string, mark: nat) returns (r: Option<nat>)
      requires Valid() && mark <= |events|
      modifies this
      ensures Valid() && old(events) <= events && refreshFrom == old(refreshFrom) && old(latest.Keys) <= latest.Keys
      ensures FirstAnswer(events, About(rd, k), a, comment, mark, r)
    {
      var scanned := mark;
      while true
        invariant Valid() && old(events) <= events && refreshFrom == old(refreshFrom) && old(latest.Keys) <= latest.Keys
        invariant mark <= scanned <= |events| && NoAnswer(events, About(rd, k), a, comment, mark, scanned)
        decreases remaining
      {
        ghost var e0 := events;
        Drain();
        Arrive();
        NoAnswerGrows(e0, events, About(rd, k), a, comment, mark, scanned);
        r := Rest(k, a, comment, mark, scanned);
        if r.Some? || remaining == 0 {
          return;
        }
        scanned := |events|;
        remaining := remaining - 1;
        ghost var e1 := events;
        Arrive();
        NoAnswerGrows(e1, events, About(rd, k), a, comment, mark, scanned);
      }
    }

    /** Scans what is new in the log. */
    method Rest(k: string, a: Action, comment: string, mark: nat, scanned: nat) returns (r: Option<nat>)
      requires mark <= scanned <= |events| && NoAnswer(events, About(rd, k), a, comment, mark, scanned)
      ensures FirstAnswer(events, About(rd, k), a, comment, mark, r)
    {
      for i := scanned to |events|
        invariant NoAnswer(events, About(rd, k), a, comment, mark, i)
      {
        if Answers(events, About(rd, k), a, comment, i) {
          return Some(i);
        }
      }
      return None;
    }

    /** The refresh is over; `about` are the events of the condition `k`, `counts` those that give its EventId. */
    ghost predicate Targets(k: string, about: Event -> bool, counts: (Event, int) -> bool) reads this {
      && refreshFrom.Some? && refreshFrom.value <= |events| && k in latest && about == About(rd, k)
      && var stop := Stop(rd, refreshFrom.value, events);
      stop < |events| && counts == CountsAfter(rd, k, refreshFrom.value, stop)
    }

    /** One condition method with the latest EventId of the target. */
    method Perform(k: string, a: Action, comment: string, good: bool, ghost about: Event -> bool,
                   ghost counts: (Event, int) -> bool)
      returns (d: Done)
      requires Valid() && Targets(k, about, counts)
      modifies this
      ensures Valid() && old(events) <= events && Targets(k, about, counts) && refreshFrom == old(refreshFrom)
      ensures CallOk(events, a, comment, about, counts, d) && d.good == good && d.repeat.None?
      ensures Missed(events, a, comment, about, d) && |old(events)| <= d.known
    {
      var sent := LatestEventId(k);
      ghost var p := events;
      var known := processed;
      Arrive();
      var mark := |events|;
      ghost var e1 := events;
      Arrive();
      ghost var e2 := events;
      PrefixTransitive(p, e1, e2);
      d := Done(sent, known, mark, good, None, None);
      if good {
        var ev := WaitForFollowUp(k, a, comment, mark);
        PrefixTransitive(p, e2, events);
        d := d.(event := ev);
      }
      ActionHolds(rd, refreshFrom.value, p, events, k, a, comment, d);
    }

    /** The EventId of the last event of a condition among all that have arrived. */
    method LatestEventId(k: string) returns (sent: Option<seq<byte>>)
      requires Valid() && k in latest
      modifies this
      ensures Valid() && processed == |events| && events == old(events) && refreshFrom == old(refreshFrom)
      ensures k in latest && k in LatestOf(rd, refreshFrom, events)
              && sent == LatestOf(rd, refreshFrom, events)[k].eventId
    {
      Drain();
      assert events[..processed] == events;
      DrainedLatest(rd, refreshFrom, events);
      return latest[k].eventId;
    }

    /** One action if it is wanted; `go` when nothing has failed. The Acknowledge is repeated with its
        EventId once its event has arrived. */
    method Act(k: string, i: nat, wanted: seq<bool>, comment: string, answer: Action -> bool, repeat: Option<bool>,
               was: seq<Option<Done>>, ghost about: Event -> bool, ghost counts: (Event, int) -> bool)
      returns (done: seq<Option<Done>>, go: bool)
      requires Valid() && Targets(k, about, counts) && |wanted| == 3 && i < 3
      requires RunState(events, comment, about, counts, wanted, was, i) && (repeat.Some? ==> i == 0)
      requires AnsweredBy(was, answer)
      modifies this
      ensures Valid() && old(events) <= events && Targets(k, about, counts) && refreshFrom == old(refreshFrom)
      ensures Acted(events, comment, about, counts, wanted, was, i, done, go, repeat)
      ensures AnsweredBy(done, answer)
    {
      if !wanted[i] {
        ActedSkip(events, comment, about, counts, wanted, was, i, repeat);
        return was, true;
      }
      var d := Perform(k, ACTIONS[i], comment, answer(ACTIONS[i]), about, counts);
      ActedStep(old(events), events, comment, about, counts, wanted, was, i, d, repeat);
      if Completed(d) {
        d := d.(repeat := repeat);
      }
      AnsweredStep(was, answer, i, d);
      return was[i := Some(d)], Completed(d);
    }

    /** Acknowledge, Confirm, AddComment, each only after the ones before it were completed. */
    method RunActions(k: string, wanted: seq<bool>, comment: string, answer: Action -> bool, repeat: bool,
                      ghost about: Event -> bool, ghost counts: (Event, int) -> bool)
      returns (done: seq<Option<Done>>, success: bool)
      requires Valid() && Targets(k, about, counts) && |wanted| == 3
      modifies this
      ensures Valid() && old(events) <= events && Targets(k, about, counts) && refreshFrom == old(refreshFrom)
      ensures Sequenced(wanted, done, success) && CallsOk(events, comment, about, counts, done)
      ensures AllMissed(events, comment, about, done) && RepeatsCompleted(done[0], Some(repeat))
      ensures AnsweredBy(done, answer)
    {
      var d0: seq<Option<Done>> := [None, None, None];
      var d1, ok1 := Act(k, 0, wanted, comment, answer, Some(repeat), d0, about, counts);
      if !ok1 {
        ActedEnd(events, comment, about, counts, wanted, d0, 0, d1, false, Some(repeat));
        return d1, false;
      }
      ghost var e1 := events;
      done, success := RunLater(k, wanted, comment, answer, d1, about, counts);
      PrefixTransitive(old(events), e1, events);
    }

    /** Confirm and AddComment. */
    method RunLater(k: string, wanted: seq<bool>, comment: string, answer: Action -> bool, d1: seq<Option<Done>>,
                    ghost about: Event -> bool, ghost counts: (Event, int) -> bool)
      returns (done: seq<Option<Done>>, success: bool)
      requires Valid() && Targets(k, about, counts) && |wanted| == 3
      requires RunState(events, comment, about, counts, wanted, d1, 1) && AnsweredBy(d1, answer)
      modifies this
      ensures Valid() && old(events) <= events && Targets(k, about, counts) && refreshFrom == old(refreshFrom)
      ensures Sequenced(wanted, done, success) && CallsOk(events, comment, about, counts, done)
      ensures AllMissed(events, comment, about, done) && done[0] == d1[0] && AnsweredBy(done, answer)
    {
      var d2, ok2 := Act(k, 1, wanted, comment, answer, None, d1, about, counts);
      if !ok2 {
        ActedEnd(events, comment, about, counts, wanted, d1, 1, d2, false, None);
        return d2, false;
      }
      ghost var e2 := events;
      done, success := Act(k, 2, wanted, comment, answer, None, d2, about, counts);
      PrefixTransitive(old(events), e2, events);
      ActedEnd(events, comment, about, counts, wanted, d2, 2, done, success, None);
    }

    /** The calls on the condition `k`: what holds of them in the log. */
    ghost predicate Called(k: string, comment: string, done: seq<Option<Done>>) reads this {
      && refreshFrom.Some? && refreshFrom.value <= |events| && AllMissed(events, comment, About(rd, k), done)
      && var stop := Stop(rd, refreshFrom.value, events);
      CallsOk(events, comment, About(rd, k), CountsAfter(rd, k, refreshFrom.value, stop), done)
    }

    /** The target of the refreshed conditions and the actions on it. */
    method ActOnTarget(listed: seq<Event>, name: Option<string>, wanted: seq<bool>, comment: string,
                       answer: Action -> bool, repeat: bool)
      returns (target: Option<nat>, done: seq<Option<Done>>, success: bool)
      requires Valid() && refreshFrom.Some? && processed == |events| && endSeen && |wanted| == 3
      requires Within(conditions, conditionEvents) && listed == Listed(conditions, conditionEvents)
      modifies this
      ensures Valid() && old(events) <= events && refreshFrom == old(refreshFrom)
      ensures Outcome(true, listed, name, wanted, target, done, success) && RepeatsCompleted(done[0], Some(repeat))
      ensures AnsweredBy(done, answer)
      ensures target.Some? ==> var k := rd.id(listed[target.value]); k.Some? && Called(k.value, comment, done)
    {
      done := [None, None, None];
      target := SelectTarget(listed, name);
      if target.None? {
        success := wanted == [false, false, false];
        return;
      }
      assert events[..processed] == events;
      DrainedList(rd, refreshFrom.value, events);
      DrainedKey(rd, refreshFrom, events, target.value);
      var k := conditions[target.value];
      ghost var stop := Stop(rd, refreshFrom.value, events);
      done, success := RunActions(k, wanted, comment, answer, repeat, About(rd, k),
                                  CountsAfter(rd, k, refreshFrom.value, stop));
    }

    /** The command after its monitored item exists. */
    method Run(refreshGood: bool, name: Option<string>, wanted: seq<bool>, comment: string, answer: Action -> bool,
               repeat: bool)
      returns (listed: seq<Event>, started: bool, ended: bool, target: Option<nat>, done: seq<Option<Done>>,
               success: bool,
               ghost n: nat)
      requires Valid() && refreshFrom.None? && |wanted| == 3
      modifies this
      ensures Valid() && old(events) <= events && refreshFrom == Some(|old(events)|) && |old(events)| <= n <= |events|
      ensures var s := events[refreshFrom.value..n];
              listed == Refreshed(rd, s) && started == Started(rd, s) && ended == Ended(rd, s)
      ensures refreshGood && !ended ==> remaining == 0
      ensures Outcome(refreshGood && ended, listed, name, wanted, target, done, success)
      ensures RepeatsCompleted(done[0], Some(repeat)) && RepeatAsDocumented(done[0]) && AnsweredBy(done, answer)
      ensures target.Some? ==> var k := rd.id(listed[target.value]); k.Some? && Called(k.value, comment, done)
    {
      Refresh(refreshGood);
      n := |events|;
      ghost var log := events;
      assert log[..processed] == log && log[refreshFrom.value..n] == log[refreshFrom.value..];
      DrainedList(rd, refreshFrom.value, log);
      target, done, success := None, [None, None, None], false;
      listed, started, ended := Listed(conditions, conditionEvents), startSeen, endSeen;
      if refreshGood && endSeen {
        target, done, success := ActOnTarget(listed, name, wanted, comment, answer, repeat);
        SliceStays(log, events, refreshFrom.value);
      }
    }
  }
}
