/** Acknowledge, Confirm and AddComment on a refreshed condition: what the three adapters promise. */
module AlarmActions {
  import opened Prelude
  import opened Alarms

  datatype Action = Acknowledge | Confirm | AddComment

  const ACTIONS: seq<Action> := [Acknowledge, Confirm, AddComment]

  /** The event that an action is answered by. */
  predicate Follows(a: Action, comment: string, e: Event) {
    match a
    case Acknowledge => e.acked == Some(true)
    case Confirm => e.confirmed == Some(true)
    case AddComment => e.comment == Some(comment)
  }

  /** The events of a condition and, as a property of positions in the log, those that can supply its EventId. */
  function About<K(==)>(rd: Reader<K>, k: K): Event -> bool { (e: Event) => rd.id(e) == Some(k) }

  function Counts<K(==)>(rd: Reader<K>, k: K): (Event, int) -> bool { (e: Event, i: int) => rd.id(e) == Some(k) }

  /** The `j`-th event of the log is about the condition and answers the action. */
  predicate Answers(log: seq<Event>, about: Event -> bool, a: Action, comment: string, j: int) {
    0 <= j < |log| && about(log[j]) && Follows(a, comment, log[j])
  }

  ghost predicate NoAnswer(log: seq<Event>, about: Event -> bool, a: Action, comment: string, from: nat, to: int) {
    forall j :: from <= j < to ==> !Answers(log, about, a, comment, j)
  }

  /** The first answer from `mark` on. */
  ghost predicate FirstAnswer(log: seq<Event>, about: Event -> bool, a: Action, comment: string, mark: nat,
                              r: Option<nat>) {
    if r.None? then NoAnswer(log, about, a, comment, mark, |log|)
    else mark <= r.value && Answers(log, about, a, comment, r.value) && NoAnswer(log, about, a, comment, mark, r.value)
  }

  lemma NoAnswerGrows(log: seq<Event>, more: seq<Event>, about: Event -> bool, a: Action, comment: string, from: nat,
                      to: nat)
    requires log <= more && to <= |log| && NoAnswer(log, about, a, comment, from, to)
    ensures NoAnswer(more, about, a, comment, from, to)
  {
    forall j | from <= j < to ensures !Answers(more, about, a, comment, j) {
      assert !Answers(log, about, a, comment, j) && more[j] == log[j];
    }
  }

  /** One call: the EventId sent, how much of the log was known when it was read and when the call
      was made, the status, the index of the follow-up event, the status of the repeated call. */
  datatype Done = Done(sent: Option<seq<byte>>, known: nat, mark: nat, good: bool, event: Option<nat>,
                       repeat: Option<bool>)

  predicate Completed(d: Done) { d.good && d.event.Some? }

  /** The documented rule: a repeated call is reported only of a Good Acknowledge whose event has arrived. */
  predicate RepeatAsDocumented(ack: Option<Done>) { ack.Some? && ack.value.repeat.Some? ==> Completed(ack.value) }

  /** The repeated call is made once the event has arrived. */
  predicate RepeatsCompleted(ack: Option<Done>, repeat: Option<bool>) {
    ack.Some? ==> ack.value.repeat == if Completed(ack.value) then repeat else None
  }

  /** The repeated call is made after every Good call. */
  predicate RepeatsGood(ack: Option<Done>, repeatGood: bool) {
    ack.Some? ==> ack.value.repeat == if ack.value.good then Some(repeatGood) else None
  }

  /** The last index of `log[..n]` whose event counts. */
  ghost predicate LastIndex(log: seq<Event>, n: nat, counts: (Event, int) -> bool, i: int) {
    0 <= i < n <= |log| && counts(log[i], i) && forall j :: i < j < n ==> !counts(log[j], j)
  }

  lemma LastIndexGrows(log: seq<Event>, more: seq<Event>, n: nat, counts: (Event, int) -> bool, i: int)
    requires LastIndex(log, n, counts, i) && log <= more
    ensures LastIndex(more, n, counts, i) && more[i] == log[i]
  {
    assert forall j :: 0 <= j < |log| ==> more[j] == log[j];
  }

  /** What holds of a call, for good, whatever arrives later. `counts` says which positions of the
      log are events of the target that can supply the EventId, `about` which events are about it. */
  ghost predicate CallOk(log: seq<Event>, a: Action, comment: string, about: Event -> bool,
                         counts: (Event, int) -> bool, d: Done)
  {
    && d.known <= d.mark <= |log| && (d.repeat.Some? ==> a == Acknowledge)
    && (exists i :: LastIndex(log, d.known, counts, i) && d.sent == log[i].eventId)
    && (d.event.Some? ==> d.good && FirstAnswer(log, about, a, comment, d.mark, d.event))
  }

  lemma CallOkGrows(log: seq<Event>, more: seq<Event>, a: Action, comment: string, about: Event -> bool,
                    counts: (Event, int) -> bool, d: Done)
    requires CallOk(log, a, comment, about, counts, d)
    ensures CallOk(log + more, a, comment, about, counts, d)
  {
    var i :| LastIndex(log, d.known, counts, i) && d.sent == log[i].eventId;
    LastIndexGrows(log, log + more, d.known, counts, i);
    if d.event.Some? {
      NoAnswerGrows(log, log + more, about, a, comment, d.mark, d.event.value);
    }
  }

  /** A call whose EventId was read when the log was `log0`, whose last counting event is at `i`. */
  lemma CallHolds(log0: seq<Event>, log: seq<Event>, a: Action, comment: string, about: Event -> bool,
                  counts: (Event, int) -> bool, i: int, d: Done)
    requires LastIndex(log0, |log0|, counts, i) && log0 <= log && (d.repeat.Some? ==> a == Acknowledge)
    requires d.sent == log0[i].eventId && d.known == |log0| <= d.mark <= |log|
    requires d.event.Some? ==> d.good && FirstAnswer(log, about, a, comment, d.mark, d.event)
    ensures CallOk(log, a, comment, about, counts, d)
  {
    LastIndexGrows(log0, log, |log0|, counts, i);
  }

  /** Action `k` is called exactly when it is wanted and every earlier one called was completed. */
  ghost predicate Sequenced(wanted: seq<bool>, done: seq<Option<Done>>, success: bool)
    requires |wanted| == 3
  {
    && |done| == 3
    && (forall k :: 0 <= k < 3 ==> (done[k].Some? <==>
          wanted[k] && forall j :: 0 <= j < k && done[j].Some? ==> Completed(done[j].value)))
    && (success <==> forall k :: 0 <= k < 3 && done[k].Some? ==> Completed(done[k].value))
  }

  /** A successful run carried out everything it was asked to; after a failed call none follows. */
  lemma SuccessIsComplete(wanted: seq<bool>, done: seq<Option<Done>>, success: bool)
    requires |wanted| == 3 && Sequenced(wanted, done, success)
    ensures success ==> forall k :: 0 <= k < 3 && wanted[k] ==> done[k].Some? && Completed(done[k].value)
    ensures forall j, k :: 0 <= j < k < 3 && done[j].Some? && !Completed(done[j].value) ==> done[k].None?
    ensures !success ==> exists k :: 0 <= k < 3 && done[k].Some? && !Completed(done[k].value)
  {
  }

  /** The state of a run before action `k`. */
  ghost predicate Progress(wanted: seq<bool>, done: seq<Option<Done>>, success: bool, k: int)
    requires |wanted| == 3
  {
    && |done| == 3 && 0 <= k <= 3
    && (forall j :: k <= j < 3 ==> done[j].None?)
    && (forall j :: 0 <= j < k ==> (done[j].Some? <==> wanted[j]))
    && (forall j :: 0 <= j < k - 1 && done[j].Some? ==> Completed(done[j].value))
    && (success <==> k > 0 && done[k - 1].Some? ==> Completed(done[k - 1].value))
  }

  lemma ProgressStep(wanted: seq<bool>, done: seq<Option<Done>>, k: nat, d: Option<Done>)
    requires |wanted| == 3 && k < 3 && Progress(wanted, done, true, k)
    requires d.Some? <==> wanted[k]
    ensures Progress(wanted, done[k := d], d.Some? ==> Completed(d.value), k + 1)
  {
  }

  lemma ProgressEnd(wanted: seq<bool>, done: seq<Option<Done>>, success: bool, k: nat)
    requires |wanted| == 3 && Progress(wanted, done, success, k) && (success ==> k == 3)
    ensures Sequenced(wanted, done, success)
  {
  }

  /** The calls of a run, each with what holds of it in the log. */
  ghost predicate CallsOk(log: seq<Event>, comment: string, about: Event -> bool, counts: (Event, int) -> bool,
                          done: seq<Option<Done>>)
  {
    && |done| == 3
    && forall k :: 0 <= k < 3 && done[k].Some? ==> CallOk(log, ACTIONS[k], comment, about, counts, done[k].value)
  }

  lemma CallsOkStep(log: seq<Event>, more: seq<Event>, comment: string, about: Event -> bool,
                    counts: (Event, int) -> bool, done: seq<Option<Done>>, k: nat, d: Done)
    requires CallsOk(log, comment, about, counts, done) && log <= more && k < 3
    requires CallOk(more, ACTIONS[k], comment, about, counts, d)
    ensures CallsOk(more, comment, about, counts, done[k := Some(d)])
  {
    assert more == log + more[|log|..];
    forall j | 0 <= j < 3 && done[j].Some? ensures CallOk(more, ACTIONS[j], comment, about, counts, done[j].value) {
      CallOkGrows(log, more[|log|..], ACTIONS[j], comment, about, counts, done[j].value);
    }
  }

  /** A Good call without an event: none had come when the time was up. */
  ghost predicate Missed(log: seq<Event>, a: Action, comment: string, about: Event -> bool, d: Done) {
    d.good && d.event.None? ==> NoAnswer(log, about, a, comment, d.mark, |log|)
  }

  ghost predicate AllMissed(log: seq<Event>, comment: string, about: Event -> bool, done: seq<Option<Done>>) {
    |done| == 3 && forall k :: 0 <= k < 3 && done[k].Some? ==> Missed(log, ACTIONS[k], comment, about, done[k].value)
  }

  /** An event of the condition at position `j` that says so. */
  predicate Acked(log: seq<Event>, about: Event -> bool, j: nat) {
    j < |log| && about(log[j]) && log[j].acked == Some(true)
  }

  predicate Confirmed(log: seq<Event>, about: Event -> bool, j: nat) {
    j < |log| && about(log[j]) && log[j].confirmed == Some(true)
  }

  predicate Commented(log: seq<Event>, about: Event -> bool, comment: string, j: nat) {
    j < |log| && about(log[j]) && log[j].comment == Some(comment)
  }

  /** The calls by their order: an Acknowledge is answered by the first event that is acknowledged, a Confirm by the
      first one that is confirmed, an AddComment by the first one with the comment; a Good call without an event had
      no such one. */
  lemma CallsMean(log: seq<Event>, comment: string, about: Event -> bool, counts: (Event, int) -> bool,
                  done: seq<Option<Done>>, j: nat)
    requires CallsOk(log, comment, about, counts, done) && AllMissed(log, comment, about, done)
    ensures done[0].Some? && done[0].value.event == Some(j) ==> Acked(log, about, j)
    ensures done[1].Some? && done[1].value.event == Some(j) ==> Confirmed(log, about, j)
    ensures done[2].Some? && done[2].value.event == Some(j) ==> Commented(log, about, comment, j)
    ensures done[0].Some? && done[0].value.good && done[0].value.mark <= j && Acked(log, about, j) ==>
              done[0].value.event.Some? && done[0].value.event.value <= j
    ensures done[1].Some? && done[1].value.good && done[1].value.mark <= j && Confirmed(log, about, j) ==>
              done[1].value.event.Some? && done[1].value.event.value <= j
    ensures done[2].Some? && done[2].value.good && done[2].value.mark <= j && Commented(log, about, comment, j) ==>
              done[2].value.event.Some? && done[2].value.event.value <= j
  {
    assert Acked(log, about, j) <==> Answers(log, about, ACTIONS[0], comment, j);
    assert Confirmed(log, about, j) <==> Answers(log, about, ACTIONS[1], comment, j);
    assert Commented(log, about, comment, j) <==> Answers(log, about, ACTIONS[2], comment, j);
  }

  lemma MissedStep(log: seq<Event>, comment: string, about: Event -> bool, wanted: seq<bool>, done: seq<Option<Done>>,
                   k: nat, d: Done)
    requires |wanted| == 3 && k < 3 && Progress(wanted, done, true, k) && Missed(log, ACTIONS[k], comment, about, d)
    ensures AllMissed(log, comment, about, done[k := Some(d)])
  {
  }

  /** Before action `k`, with everything called so far completed. */
  ghost predicate RunState(log: seq<Event>, comment: string, about: Event -> bool, counts: (Event, int) -> bool,
                           wanted: seq<bool>, done: seq<Option<Done>>, k: nat)
    requires |wanted| == 3
  {
    Progress(wanted, done, true, k) && CallsOk(log, comment, about, counts, done)
  }

  lemma RunStep(log: seq<Event>, more: seq<Event>, comment: string, about: Event -> bool, counts: (Event, int) -> bool,
                wanted: seq<bool>, done: seq<Option<Done>>, k: nat, d: Done)
    requires |wanted| == 3 && k < 3 && wanted[k] && RunState(log, comment, about, counts, wanted, done, k)
    requires log <= more && CallOk(more, ACTIONS[k], comment, about, counts, d)
    ensures CallsOk(more, comment, about, counts, done[k := Some(d)])
    ensures Completed(d) ==> RunState(more, comment, about, counts, wanted, done[k := Some(d)], k + 1)
    ensures !Completed(d) ==> Sequenced(wanted, done[k := Some(d)], false)
  {
    CallsOkStep(log, more, comment, about, counts, done, k, d);
    ProgressStep(wanted, done, k, Some(d));
    if !Completed(d) {
      ProgressEnd(wanted, done[k := Some(d)], false, k + 1);
    }
  }

  lemma RunSkip(log: seq<Event>, comment: string, about: Event -> bool, counts: (Event, int) -> bool,
                wanted: seq<bool>, done: seq<Option<Done>>, k: nat)
    requires |wanted| == 3 && k < 3 && !wanted[k] && RunState(log, comment, about, counts, wanted, done, k)
    ensures RunState(log, comment, about, counts, wanted, done, k + 1)
  {
    ProgressStep(wanted, done, k, None);
    assert done[k := None] == done;
  }

  lemma RunEnd(log: seq<Event>, comment: string, about: Event -> bool, counts: (Event, int) -> bool,
               wanted: seq<bool>, done: seq<Option<Done>>)
    requires |wanted| == 3 && RunState(log, comment, about, counts, wanted, done, 3)
    ensures Sequenced(wanted, done, true)
  {
    ProgressEnd(wanted, done, true, 3);
  }

  /** Action `i` was handled: what is reported of it, and whether the run goes on. */
  ghost predicate Acted(log: seq<Event>, comment: string, about: Event -> bool, counts: (Event, int) -> bool,
                        wanted: seq<bool>, was: seq<Option<Done>>, i: nat, done: seq<Option<Done>>, go: bool,
                        repeat: Option<bool>)
    requires |wanted| == 3
  {
    && i < 3 && |was| == 3 && |done| == 3 && done == was[i := done[i]]
    && CallsOk(log, comment, about, counts, done) && AllMissed(log, comment, about, done)
    && (if go then RunState(log, comment, about, counts, wanted, done, i + 1) else Sequenced(wanted, done, false))
    && RepeatsCompleted(done[i], repeat)
  }

  lemma ActedStep(log: seq<Event>, more: seq<Event>, comment: string, about: Event -> bool,
                  counts: (Event, int) -> bool, wanted: seq<bool>, was: seq<Option<Done>>, i: nat, d: Done,
                  repeat: Option<bool>)
    requires |wanted| == 3 && i < 3 && wanted[i] && RunState(log, comment, about, counts, wanted, was, i)
    requires log <= more && CallOk(more, ACTIONS[i], comment, about, counts, d) && d.repeat.None?
    requires Missed(more, ACTIONS[i], comment, about, d) && (repeat.Some? ==> i == 0)
    ensures var d' := if Completed(d) then d.(repeat := repeat) else d;
            Acted(more, comment, about, counts, wanted, was, i, was[i := Some(d')], Completed(d), repeat)
  {
    var d' := if Completed(d) then d.(repeat := repeat) else d;
    MissedStep(more, comment, about, wanted, was, i, d');
    RunStep(log, more, comment, about, counts, wanted, was, i, d');
  }

  lemma ActedSkip(log: seq<Event>, comment: string, about: Event -> bool, counts: (Event, int) -> bool,
                  wanted: seq<bool>, was: seq<Option<Done>>, i: nat, repeat: Option<bool>)
    requires |wanted| == 3 && i < 3 && !wanted[i] && RunState(log, comment, about, counts, wanted, was, i)
    ensures Acted(log, comment, about, counts, wanted, was, i, was, true, repeat)
  {
    RunSkip(log, comment, about, counts, wanted, was, i);
    MissedNone(log, comment, about, wanted, was, i);
  }

  lemma MissedNone(log: seq<Event>, comment: string, about: Event -> bool, wanted: seq<bool>, done: seq<Option<Done>>,
                   k: nat)
    requires |wanted| == 3 && Progress(wanted, done, true, k)
    ensures AllMissed(log, comment, about, done)
  {
  }

  /** The end of the three actions: `done` and `go` as the last action handled left them. */
  lemma ActedEnd(log: seq<Event>, comment: string, about: Event -> bool, counts: (Event, int) -> bool,
                 wanted: seq<bool>, was: seq<Option<Done>>, i: nat, done: seq<Option<Done>>, go: bool,
                 repeat: Option<bool>)
    requires |wanted| == 3 && Acted(log, comment, about, counts, wanted, was, i, done, go, repeat) && (go ==> i == 2)
    ensures Sequenced(wanted, done, go) && CallsOk(log, comment, about, counts, done)
            && AllMissed(log, comment, about, done)
    ensures i > 0 ==> done[0] == was[0]
  {
    if go {
      RunEnd(log, comment, about, counts, wanted, done);
    }
  }

  lemma PrefixTransitive(a: seq<Event>, b: seq<Event>, c: seq<Event>)
    requires a <= b <= c
    ensures a <= c
  {
  }

  lemma SliceStays(a: seq<Event>, b: seq<Event>, from: nat)
    requires a <= b && from <= |a|
    ensures b[from..|a|] == a[from..]
  {
  }

  /** Each call reports the answer of the server. */
  ghost predicate AnsweredBy(done: seq<Option<Done>>, answer: Action -> bool) {
    |done| == 3 && forall k :: 0 <= k < 3 && done[k].Some? ==> done[k].value.good == answer(ACTIONS[k])
  }

  lemma AnsweredStep(was: seq<Option<Done>>, answer: Action -> bool, i: nat, d: Done)
    requires i < 3 && AnsweredBy(was, answer) && d.good == answer(ACTIONS[i])
    ensures AnsweredBy(was[i := Some(d)], answer)
  {
  }

  /** The target: the first refreshed condition with the name, or the first retained one. */
  predicate IsTarget(name: Option<string>, e: Event) {
    if name.Some? then e.conditionName == name else e.retain == Some(true)
  }

  ghost predicate Selected(conditions: seq<Event>, name: Option<string>, t: Option<nat>) {
    && (t.Some? ==> t.value < |conditions| && IsTarget(name, conditions[t.value]))
    && forall i :: 0 <= i < (if t.Some? then t.value else |conditions|) ==> !IsTarget(name, conditions[i])
  }

  /** The first condition of the name, or without one the first that is retained. */
  lemma SelectedIs(conditions: seq<Event>, name: string, t: Option<nat>)
    ensures Selected(conditions, Some(name), t) <==>
            && (t.Some? ==> t.value < |conditions| && conditions[t.value].conditionName == Some(name))
            && forall i :: 0 <= i < (if t.Some? then t.value else |conditions|) ==>
                 i < |conditions| ==> conditions[i].conditionName != Some(name)
    ensures Selected(conditions, None, t) <==>
            && (t.Some? ==> t.value < |conditions| && conditions[t.value].retain == Some(true))
            && forall i :: 0 <= i < (if t.Some? then t.value else |conditions|) ==>
                 i < |conditions| ==> conditions[i].retain != Some(true)
  {
    assert forall e :: IsTarget(Some(name), e) <==> e.conditionName == Some(name);
    assert forall e :: IsTarget(None, e) <==> e.retain == Some(true);
  }

  method SelectTarget(conditions: seq<Event>, name: Option<string>) returns (t: Option<nat>)
    ensures Selected(conditions, name, t)
  {
    for i := 0 to |conditions|
      invariant forall j :: 0 <= j < i ==> !IsTarget(name, conditions[j])
    {
      if IsTarget(name, conditions[i]) {
        return Some(i);
      }
    }
    return None;
  }

  /** What a run reports: a target only if the refresh was complete (`ready`), calls only on a target, and
      success without a target only if nothing was wanted. */
  ghost predicate Outcome(ready: bool, conditions: seq<Event>, name: Option<string>, wanted: seq<bool>,
                          target: Option<nat>, done: seq<Option<Done>>, success: bool)
    requires |wanted| == 3
  {
    && |done| == 3
    && (if ready then Selected(conditions, name, target) else target.None? && !success)
    && (if target.Some? then Sequenced(wanted, done, success)
        else done == [None, None, None] && (ready ==> (success <==> wanted == [false, false, false])))
  }
}
