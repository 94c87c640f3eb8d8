/** The C# publish loop: N workers that share a list of acknowledgements under a lock. A run is any
    interleaving of their atomic turns with any answers of the server. */
module PublishLoop {
  datatype Ack = Ack(subscriptionId: nat, sequenceNumber: nat)

  /** What a Publish request comes back with. */
  datatype Answer = NoMessage | KeepAlive(ack: Ack) | Data(ack: Ack) | Fault | Cancelled

  /** Where a worker stands: at the top of its loop, waiting for the answer of a request that carries
      acknowledgements, holding a delivery it has not queued yet, or done. */
  datatype Worker = Ready | Publishing(acks: seq<Ack>) | Delivering(ack: Ack) | Stopped

  datatype State = State(acks: seq<Ack>, workers: seq<Worker>,
                         delivered: seq<Ack>, sent: seq<Ack>, dropped: seq<Ack>)

  /** How often `a` occurs. */
  function Count(s: seq<Ack>, a: Ack): nat {
    if s == [] then 0 else Count(s[..|s| - 1], a) + (if s[|s| - 1] == a then 1 else 0)
  }

  lemma {:induction false} CountAppend(s: seq<Ack>, t: seq<Ack>, a: Ack)
    ensures Count(s + t, a) == Count(s, a) + Count(t, a)
  {
    if t == [] {
      assert s + t == s;
    } else {
      CountAppend(s, t[..|t| - 1], a);
      assert (s + t)[..|s + t| - 1] == s + t[..|t| - 1];
    }
  }

  lemma {:induction false} CountIn(s: seq<Ack>, a: Ack)
    ensures Count(s, a) > 0 <==> a in s
  {
    if s != [] {
      CountIn(s[..|s| - 1], a);
      assert s == s[..|s| - 1] + [s[|s| - 1]];
    }
  }

  function Held(w: Worker): seq<Ack> {
    match w
    case Publishing(acks) => acks
    case Delivering(ack) => [ack]
    case _ => []
  }

  function InFlight(ws: seq<Worker>, a: Ack): nat {
    if ws == [] then 0 else Count(Held(ws[0]), a) + InFlight(ws[1..], a)
  }

  /** Where one acknowledgement is: queued, with a worker, sent, or lost with a failed request. */
  function Places(s: State, a: Ack): nat {
    Count(s.acks, a) + InFlight(s.workers, a) + Count(s.sent, a) + Count(s.dropped, a)
  }

  /** Every delivery with data is in exactly one place. */
  ghost predicate Conserved(s: State) {
    forall a :: Places(s, a) == Count(s.delivered, a)
  }

  /** One turn of worker `i`. */
  function Turn(s: State, i: nat, cancelled: bool, answer: Answer): State
    requires i < |s.workers|
  {
    match s.workers[i]
    case Ready =>
      if cancelled then s.(workers := s.workers[i := Stopped])
      else s.(acks := [], workers := s.workers[i := Publishing(s.acks)])
    case Publishing(acks) =>
      (match answer
       case Cancelled => s.(workers := s.workers[i := Stopped], dropped := s.dropped + acks)
       case Fault => s.(workers := s.workers[i := if cancelled then Stopped else Ready], dropped := s.dropped + acks)
       case Data(ack) => s.(workers := s.workers[i := Delivering(ack)], delivered := s.delivered + [ack],
                            sent := s.sent + acks)
       case _ => s.(workers := s.workers[i := Ready], sent := s.sent + acks))
    case Delivering(ack) => s.(acks := s.acks + [ack], workers := s.workers[i := Ready])
    case Stopped => s
  }

  lemma {:induction false} InFlightUpdate(ws: seq<Worker>, i: nat, w: Worker, a: Ack)
    requires i < |ws|
    ensures InFlight(ws[i := w], a) + Count(Held(ws[i]), a) == InFlight(ws, a) + Count(Held(w), a)
  {
    var vs := ws[i := w];
    if i == 0 {
      assert vs[1..] == ws[1..];
    } else {
      assert vs[1..] == ws[1..][i - 1 := w];
      InFlightUpdate(ws[1..], i - 1, w, a);
    }
  }

  lemma ReceiveKeeps(s: State, i: nat, w: Worker, lost: bool, a: Ack)
    requires i < |s.workers| && s.workers[i].Publishing? && !w.Publishing?
    requires Places(s, a) == Count(s.delivered, a)
    ensures var acks := s.workers[i].acks;
            var t := s.(workers := s.workers[i := w], delivered := s.delivered + Held(w),
                        sent := if lost then s.sent else s.sent + acks,
                        dropped := if lost then s.dropped + acks else s.dropped);
            Places(t, a) == Count(t.delivered, a)
  {
    var acks := s.workers[i].acks;
    InFlightUpdate(s.workers, i, w, a);
    CountAppend(s.sent, acks, a);
    CountAppend(s.dropped, acks, a);
    CountAppend(s.delivered, Held(w), a);
  }

  lemma AnswerKeeps(s: State, i: nat, cancelled: bool, answer: Answer, a: Ack)
    requires i < |s.workers| && s.workers[i].Publishing? && Places(s, a) == Count(s.delivered, a)
    ensures var t := Turn(s, i, cancelled, answer); Places(t, a) == Count(t.delivered, a)
  {
    match answer
    case Data(ack) => ReceiveKeeps(s, i, Delivering(ack), false, a);
    case Cancelled => NoDataKeeps(s, i, Stopped, true, a);
    case Fault => NoDataKeeps(s, i, if cancelled then Stopped else Ready, true, a);
    case _ => NoDataKeeps(s, i, Ready, false, a);
  }

  lemma NoDataKeeps(s: State, i: nat, w: Worker, lost: bool, a: Ack)
    requires i < |s.workers| && s.workers[i].Publishing? && Held(w) == [] && !w.Publishing?
    requires Places(s, a) == Count(s.delivered, a)
    ensures var acks := s.workers[i].acks;
            var t := s.(workers := s.workers[i := w], sent := if lost then s.sent else s.sent + acks,
                        dropped := if lost then s.dropped + acks else s.dropped);
            Places(t, a) == Count(t.delivered, a)
  {
    assert s.delivered + [] == s.delivered;
    ReceiveKeeps(s, i, w, lost, a);
  }

  lemma TurnKeeps(s: State, i: nat, cancelled: bool, answer: Answer, a: Ack)
    requires i < |s.workers| && Places(s, a) == Count(s.delivered, a)
    ensures var t := Turn(s, i, cancelled, answer); Places(t, a) == Count(t.delivered, a)
  {
    match s.workers[i]
    case Ready =>
      InFlightUpdate(s.workers, i, if cancelled then Stopped else Publishing(s.acks), a);
    case Publishing(acks) =>
      AnswerKeeps(s, i, cancelled, answer, a);
    case Delivering(ack) =>
      InFlightUpdate(s.workers, i, Ready, a);
      CountAppend(s.acks, [ack], a);
    case Stopped =>
  }

  lemma TurnConserves(s: State, i: nat, cancelled: bool, answer: Answer)
    requires i < |s.workers| && Conserved(s)
    ensures Conserved(Turn(s, i, cancelled, answer))
  {
    forall a ensures var t := Turn(s, i, cancelled, answer); Places(t, a) == Count(t.delivered, a) {
      TurnKeeps(s, i, cancelled, answer, a);
    }
  }

  /** Histories only grow, and every worker stays a worker. */
  predicate Grows(s: State, t: State) {
    s.delivered <= t.delivered && s.sent <= t.sent && s.dropped <= t.dropped && |s.workers| == |t.workers|
  }

  /** One turn of a schedule. */
  datatype Choice = Choice(worker: nat, cancelled: bool, answer: Answer)

  /** Every state of a run. */
  function Ran(n: nat, schedule: seq<Choice>): (s: State)
    ensures |s.workers| == n
  {
    if schedule == [] then State([], seq(n, i => Ready), [], [], [])
    else
      var s, c := Ran(n, schedule[..|schedule| - 1]), schedule[|schedule| - 1];
      if c.worker < n then Turn(s, c.worker, c.cancelled, c.answer) else s
  }

  lemma {:induction false} NoneInFlight(n: nat, a: Ack)
    ensures InFlight(seq(n, i => Ready), a) == 0
  {
    if n > 0 {
      NoneInFlight(n - 1, a);
      assert seq(n, i => Ready)[1..] == seq(n - 1, i => Ready);
    }
  }

  lemma {:induction false} RunConserves(n: nat, schedule: seq<Choice>)
    ensures Conserved(Ran(n, schedule))
  {
    if schedule == [] {
      forall a ensures Places(Ran(n, []), a) == 0 { NoneInFlight(n, a); }
    } else {
      var s, c := schedule[..|schedule| - 1], schedule[|schedule| - 1];
      RunConserves(n, s);
      if c.worker < n {
        TurnConserves(Ran(n, s), c.worker, c.cancelled, c.answer);
      }
    }
  }

  lemma {:induction false} RunGrows(n: nat, schedule: seq<Choice>, k: nat)
    requires k <= |schedule|
    ensures Grows(Ran(n, schedule[..k]), Ran(n, schedule))
    decreases |schedule|
  {
    if k < |schedule| {
      var s := schedule[..|schedule| - 1];
      RunGrows(n, s, k);
      assert schedule[..k] == s[..k];
    } else {
      assert schedule[..k] == schedule;
    }
  }

  /** The data deliveries of a run, straight from the schedule: the answers given to waiting requests. */
  predicate Delivers(n: nat, schedule: seq<Choice>, k: nat)
    requires k < |schedule|
  {
    var c := schedule[k];
    c.worker < n && c.answer.Data? && Ran(n, schedule[..k]).workers[c.worker].Publishing?
  }

  /** A delivery in the history is an answer with data in the schedule. */
  lemma {:induction false} DeliveredIsData(n: nat, schedule: seq<Choice>, j: nat)
    requires j < |Ran(n, schedule).delivered|
    ensures exists k :: 0 <= k < |schedule| && Delivers(n, schedule, k) &&
                        schedule[k].answer == Data(Ran(n, schedule).delivered[j])
  {
    if schedule != [] {
      var m := |schedule| - 1;
      var s := schedule[..m];
      if j < |Ran(n, s).delivered| {
        RunGrows(n, schedule, m);
        DeliveredIsData(n, s, j);
        var k :| 0 <= k < |s| && Delivers(n, s, k) && s[k].answer == Data(Ran(n, s).delivered[j]);
        assert schedule[..k] == s[..k];
        assert Delivers(n, schedule, k);
      } else {
        assert Delivers(n, schedule, m);
      }
    }
  }

  /** The numbers of the answers with data, in the order of the schedule. */
  function Deliveries(n: nat, schedule: seq<Choice>): seq<Ack> {
    if schedule == [] then []
    else
      var m := |schedule| - 1;
      Deliveries(n, schedule[..m]) + if Delivers(n, schedule, m) then [schedule[m].answer.ack] else []
  }

  /** No delivery is lost or made up: the history is the answers with data, each once and in order. */
  lemma {:induction false} DeliveredExactly(n: nat, schedule: seq<Choice>)
    ensures Ran(n, schedule).delivered == Deliveries(n, schedule)
  {
    if schedule != [] {
      DeliveredExactly(n, schedule[..|schedule| - 1]);
    }
  }

  lemma DeliveredIn(n: nat, schedule: seq<Choice>)
    requires schedule != [] && Delivers(n, schedule, |schedule| - 1)
    ensures schedule[|schedule| - 1].answer.ack in Ran(n, schedule).delivered
  {
    var m := |schedule| - 1;
    DeliveredExactly(n, schedule);
    assert Deliveries(n, schedule) == Deliveries(n, schedule[..m]) + [schedule[m].answer.ack];
  }

  /** An answer with data has its place from then on: queued, with a worker, sent or lost with a request. */
  lemma DeliveryIsKept(n: nat, schedule: seq<Choice>, k: nat)
    requires k < |schedule| && Delivers(n, schedule, k)
    ensures Places(Ran(n, schedule), schedule[k].answer.ack) > 0
  {
    var a, s := schedule[k].answer.ack, schedule[..k + 1];
    assert s[..k] == schedule[..k];
    assert Delivers(n, s, k);
    DeliveredIn(n, s);
    RunGrows(n, schedule, k + 1);
    CountIn(Ran(n, schedule).delivered, a);
    RunConserves(n, schedule);
    assert Places(Ran(n, schedule), a) == Count(Ran(n, schedule).delivered, a);
  }

  /** What the requests carried that were answered, or that failed, in the order of the schedule. */
  function Requests(n: nat, schedule: seq<Choice>, failed: bool): seq<Ack> {
    if schedule == [] then []
    else
      var m := |schedule| - 1;
      var c, s := schedule[m], Ran(n, schedule[..m]);
      Requests(n, schedule[..m], failed) +
      if c.worker < n && s.workers[c.worker].Publishing? && failed == (c.answer == Fault || c.answer == Cancelled)
      then s.workers[c.worker].acks else []
  }

  lemma {:induction false} SentExactly(n: nat, schedule: seq<Choice>)
    ensures Ran(n, schedule).sent == Requests(n, schedule, false)
    ensures Ran(n, schedule).dropped == Requests(n, schedule, true)
  {
    if schedule != [] {
      SentExactly(n, schedule[..|schedule| - 1]);
    }
  }

  /** A round of one worker, from the top of its loop: the whole queue goes with its request, and is sent when
      the request is answered and lost when it fails; an answer with data leaves its own number queued. */
  lemma Round(s: State, i: nat, cancelled: bool, answer: Answer, skip: Choice)
    requires i < |s.workers| && s.workers[i] == Ready
    ensures var q := Turn(Turn(s, i, false, skip.answer), i, cancelled, answer);
            var r := Turn(q, i, skip.cancelled, skip.answer);
            match answer
            case Data(a) => r == State([a], s.workers, s.delivered + [a], s.sent + s.acks, s.dropped)
            case Cancelled =>
              q == State([], s.workers[i := Stopped], s.delivered, s.sent, s.dropped + s.acks)
            case Fault => q == State([], s.workers[i := if cancelled then Stopped else Ready], s.delivered, s.sent,
                                     s.dropped + s.acks)
            case _ => q == State([], s.workers, s.delivered, s.sent + s.acks, s.dropped)
    ensures Turn(s, i, true, skip.answer) == s.(workers := s.workers[i := Stopped])
  {
    var ws := s.workers[i := Publishing(s.acks)];
    assert ws[i := Ready] == s.workers;
    assert ws[i := Stopped] == s.workers[i := Stopped];
    if answer.Data? {
      assert ws[i := Delivering(answer.ack)][i := Ready] == s.workers;
    }
  }

  /** A turn of one worker leaves the others where they stand, and a stopped worker does nothing. */
  lemma OthersStay(s: State, i: nat, j: nat, cancelled: bool, answer: Answer)
    requires i < |s.workers| && j < |s.workers|
    ensures i != j ==> Turn(s, i, cancelled, answer).workers[j] == s.workers[j]
    ensures s.workers[i] == Stopped ==> Turn(s, i, cancelled, answer) == s
  {
  }

  lemma {:induction false} CountDistinct(s: seq<Ack>, a: Ack)
    requires forall i, j :: 0 <= i < j < |s| ==> s[i] != s[j]
    ensures Count(s, a) <= 1
  {
    if s != [] {
      var t := s[..|s| - 1];
      CountDistinct(t, a);
      CountIn(t, a);
    }
  }

  /** At every moment of every run, what has left the client was delivered with data before, at least
      as often; when the server numbers its deliveries apart, nothing leaves twice. */
  lemma NeverTwiceNorEarly(n: nat, schedule: seq<Choice>, a: Ack)
    ensures var s := Ran(n, schedule);
            && Count(s.sent, a) + Count(s.dropped, a) + InFlight(s.workers, a) <= Count(s.delivered, a)
            && ((forall i, j :: 0 <= i < j < |s.delivered| ==> s.delivered[i] != s.delivered[j]) ==> Places(s, a) <= 1)
  {
    var s := Ran(n, schedule);
    RunConserves(n, schedule);
    assert Places(s, a) == Count(s.delivered, a);
    if forall i, j :: 0 <= i < j < |s.delivered| ==> s.delivered[i] != s.delivered[j] {
      CountDistinct(s.delivered, a);
    }
  }

  /** A number that only ever came with keep-alives is not acknowledged. */
  lemma KeepAlivesAreNot(n: nat, schedule: seq<Choice>, a: Ack)
    requires forall k :: 0 <= k < |schedule| ==> schedule[k].answer != Data(a)
    ensures Places(Ran(n, schedule), a) == 0
  {
    var s := Ran(n, schedule);
    CountIn(s.delivered, a);
    if a in s.delivered {
      var j :| 0 <= j < |s.delivered| && s.delivered[j] == a;
      DeliveredIsData(n, schedule, j);
    }
    RunConserves(n, schedule);
    assert Places(s, a) == Count(s.delivered, a);
  }

  /** The loop with its shared list. */
  class Loop {
    var acks: seq<Ack>
    var workers: seq<Worker>
    var delivered: seq<Ack>
    var sent: seq<Ack>
    var dropped: seq<Ack>

    ghost function Now(): State reads this { State(acks, workers, delivered, sent, dropped) }

    constructor (outstanding: nat)
      ensures Now() == Ran(outstanding, [])
    {
      acks, workers, delivered, sent, dropped := [], seq(outstanding, i => Ready), [], [], [];
    }

    /** Under the lock: all queued acknowledgements go with the next request. */
    method Take(i: nat)
      requires i < |workers| && workers[i].Ready?
      modifies `acks, `workers
      ensures acks == [] && workers == old(workers)[i := Publishing(old(acks))]
    {
      var taken := acks;
      acks := [];
      workers := workers[i := Publishing(taken)];
    }

    method Receive(i: nat, cancelled: bool, answer: Answer)
      requires i < |workers| && workers[i].Publishing?
      modifies `workers, `delivered, `sent, `dropped
      ensures Now() == old(Turn(Now(), i, cancelled, answer))
    {
      var carried := workers[i].acks;
      if answer.Cancelled? {
        dropped := dropped + carried;
        workers := workers[i := Stopped];
        return;
      }
      if answer.Fault? {
        dropped := dropped + carried;
        workers := workers[i := if cancelled then Stopped else Ready];
        return;
      }
      sent := sent + carried;
      if answer.Data? {
        delivered := delivered + [answer.ack];
        workers := workers[i := Delivering(answer.ack)];
      } else {
        workers := workers[i := Ready];
      }
    }

    /** Under the lock: the delivery is queued for acknowledgement. */
    method Queue(i: nat)
      requires i < |workers| && workers[i].Delivering?
      modifies `acks, `workers
      ensures acks == old(acks) + [old(workers)[i].ack] && workers == old(workers)[i := Ready]
    {
      acks := acks + [workers[i].ack];
      workers := workers[i := Ready];
    }

    /** Any interleaving of the workers' turns. */
    method Run(n: nat, schedule: seq<Choice>)
      requires Now() == Ran(n, [])
      modifies this
      ensures Now() == Ran(n, schedule) && Conserved(Now())
    {
      for t := 0 to |schedule|
        invariant Now() == Ran(n, schedule[..t])
      {
        var c := schedule[t];
        assert schedule[..t + 1][..t] == schedule[..t];
        if c.worker < |workers| {
          match workers[c.worker]
          case Ready =>
            if c.cancelled {
              workers := workers[c.worker := Stopped];
            } else {
              Take(c.worker);
            }
          case Publishing(_) => Receive(c.worker, c.cancelled, c.answer);
          case Delivering(_) => Queue(c.worker);
          case Stopped =>
        }
      }
      assert schedule[..|schedule|] == schedule;
      RunConserves(n, schedule);
    }
  }
}
