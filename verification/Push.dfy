/** Push certificate management (section 7.10 of OPC UA Part 12) as the Go and C# adapters drive it: steps
    that stop at the first one that fails. */
module Push {
  import opened Prelude

  datatype Step =
    | ReadTrustList | AddCertificate | RemoveCertificate | GetCertificates | CreateSelfSigned | DeleteCertificate
    | UpdateCertificate | CreateSigningRequest | GetRejectedList | ResetToDefaults
    | ApplyChanges | CancelChanges | ReadDiagnostics | ReadTrustListAgain

  /** The flags as given. */
  datatype Flags = Flags(add: bool, remove: Option<string>, getCertificates: bool, selfSigned: bool, delete: bool,
                         update: bool, csr: bool, reset: bool, apply: bool, cancel: bool, diagnostics: bool)

  /** What a run does. */
  datatype Options = Options(add: bool, remove: bool, getCertificates: bool, selfSigned: bool, delete: bool,
                             update: bool, csr: bool, reset: bool, apply: bool, cancel: bool, diagnostics: bool)

  /** A step and whether its status was Good. */
  datatype Done = Done(step: Step, good: bool)

  /** The server: what it answers to a step, after everything that was done before. */
  type Server = (seq<Done>, Step) -> bool

  // ---- the options

  /** Go: apply and cancel exclude each other; what is created or deleted is not installed without apply. */
  method GoOptions(f: Flags) returns (r: Result<Options, ()>)
    ensures r.Err? <==> f.apply && f.cancel
    ensures r.Ok? ==> r.value == OptionsOf(f, f.remove.Some? && f.remove.value != "")
  {
    if f.apply && f.cancel {
      return Err(());
    }
    var cancel := f.cancel;
    if (f.selfSigned || f.delete) && !f.apply {
      cancel := true;
    }
    return Ok(Options(f.add, f.remove.Some? && f.remove.value != "", f.getCertificates, f.selfSigned, f.delete,
                      f.update, f.csr, f.reset, f.apply, cancel, f.diagnostics));
  }

  /** C#: apply wins over cancel. */
  method CsOptions(f: Flags) returns (o: Options)
    ensures o == OptionsOf(f, f.remove.Some?)
  {
    var cancel := !f.apply && (f.cancel || f.selfSigned || f.delete);
    return Options(f.add, f.remove.Some?, f.getCertificates, f.selfSigned, f.delete, f.update, f.csr, f.reset, f.apply,
                   cancel, f.diagnostics);
  }

  /** Cancel is asked for, or implied by creating or deleting, and never together with apply. */
  function OptionsOf(f: Flags, remove: bool): (o: Options)
    ensures !(o.apply && o.cancel)
    ensures (o.selfSigned || o.delete) && !o.apply ==> o.cancel
  {
    Options(f.add, remove, f.getCertificates, f.selfSigned, f.delete, f.update, f.csr, f.reset, f.apply,
            !f.apply && (f.cancel || f.selfSigned || f.delete), f.diagnostics)
  }

  // ---- what a run is

  /** The steps up to the end of the transaction, in their order. */
  const ORDER: seq<Step> := [ReadTrustList, AddCertificate, RemoveCertificate, GetCertificates, CreateSelfSigned,
                             DeleteCertificate, UpdateCertificate, CreateSigningRequest, GetRejectedList,
                             ResetToDefaults, ApplyChanges, CancelChanges]

  /** Where in `ORDER` a run begins. */
  const FIRST: nat := 0

  predicate Wants(o: Options, s: Step) {
    match s
    case AddCertificate => o.add
    case RemoveCertificate => o.remove
    case GetCertificates => o.getCertificates
    case CreateSelfSigned => o.selfSigned
    case DeleteCertificate => o.delete
    case UpdateCertificate => o.update
    case CreateSigningRequest => o.csr
    case ResetToDefaults => o.reset
    case ApplyChanges => o.apply
    case CancelChanges => o.cancel
    case _ => true
  }

  predicate AllGood(t: seq<Done>) { t == [] || (t[|t| - 1].good && AllGood(t[..|t| - 1])) }

  predicate Has(t: seq<Done>, s: Step) { t != [] && (t[|t| - 1].step == s || Has(t[..|t| - 1], s)) }

  /** Carries out the wanted steps from the `k`-th on, until one fails. */
  function Carried(server: Server, o: Options, t: seq<Done>, k: nat): seq<Done>
    requires k <= |ORDER|
    decreases |ORDER| - k
  {
    if k == |ORDER| then t
    else if !Wants(o, ORDER[k]) then Carried(server, o, t, k + 1)
    else
      var good := server(t, ORDER[k]);
      var u := t + [Done(ORDER[k], good)];
      if good then Carried(server, o, u, k + 1) else u
  }

  /** Diagnostics also explain a failed ApplyChanges; the trust list is read again only if all went well. */
  function Finished(server: Server, o: Options, t: seq<Done>): seq<Done> {
    var d := Done(ReadDiagnostics, server(t, ReadDiagnostics));
    var u := if o.diagnostics && (AllGood(t) || Has(t, ApplyChanges)) then t + [d] else t;
    if AllGood(u) then u + [Done(ReadTrustListAgain, server(u, ReadTrustListAgain))] else u
  }

  function Run(server: Server, o: Options): seq<Done> { Finished(server, o, Carried(server, o, [], FIRST)) }

  // ---- the two machines

  /** The steps done so far. The run has come to step number `pos`, or has stopped. */
  class Session {
    const server: Server
    const o: Options
    var trace: seq<Done>
    ghost var pos: nat
    /** What a complete run of the steps comes to. */
    ghost const goal: seq<Done>

    ghost predicate Open() reads this {
      && pos <= |ORDER| && AllGood(trace) && goal == Carried(server, o, trace, pos)
      && (Has(trace, ApplyChanges) <==> o.apply && pos > 10)
    }

    /** A step has failed: the change steps are over. */
    ghost predicate Stopped(applying: bool) reads this {
      !AllGood(trace) && goal == trace && (Has(trace, ApplyChanges) <==> applying)
    }

    constructor (server: Server, o: Options)
      ensures Open() && pos == 0 && this.server == server && this.o == o && goal == Carried(server, o, [], FIRST)
              && trace == []
    {
      this.server, this.o, trace, pos, goal := server, o, [], 0, Carried(server, o, [], FIRST);
    }

    /** Carries out the next step and says whether the command goes on. */
    method Do(s: Step) returns (ok: bool)
      requires Open() && pos < |ORDER| && ORDER[pos] == s && Wants(o, s)
      modifies `trace, `pos
      ensures pos == old(pos) + 1
      ensures if ok then Open() else Stopped(o.apply && pos > 10)
    {
      ok := server(trace, s);
      ghost var was := trace;
      trace, pos := trace + [Done(s, ok)], pos + 1;
      HasSnoc(was, Done(s, ok), ApplyChanges);
      GoodSnoc(was, Done(s, ok));
    }

    /** Leaves out a step that is not wanted. */
    ghost method Skip()
      requires Open() && pos < |ORDER| && !Wants(o, ORDER[pos])
      modifies `pos
      ensures Open() && pos == old(pos) + 1
    {
      pos := pos + 1;
    }

    /** Go: the steps on the trust list and on what is there. */
    method GoTrustSteps() returns (go: bool)
      requires Open() && pos == 1
      modifies `trace, `pos
      ensures if go then Open() && pos == 4 else Stopped(false)
    {
      if o.add {
        var ok := Do(AddCertificate);
        if !ok { return false; }
      } else {
        Skip();
      }
      if o.remove {
        var ok := Do(RemoveCertificate);
        if !ok { return false; }
      } else {
        Skip();
      }
      if o.getCertificates {
        var ok := Do(GetCertificates);
        if !ok { return false; }
      } else {
        Skip();
      }
      return true;
    }

    /** Go: the steps that change certificates. */
    method GoCertificateSteps() returns (go: bool)
      requires Open() && pos == 4
      modifies `trace, `pos
      ensures if go then Open() && pos == 7 else Stopped(false)
    {
      if o.selfSigned {
        var ok := Do(CreateSelfSigned);
        if !ok { return false; }
      } else {
        Skip();
      }
      if o.delete {
        var ok := Do(DeleteCertificate);
        if !ok { return false; }
      } else {
        Skip();
      }
      if o.update {
        var ok := Do(UpdateCertificate);
        if !ok { return false; }
      } else {
        Skip();
      }
      return true;
    }

    /** Go: the steps from AddCertificate to ResetToServerDefaults. */
    method GoChanges() returns (go: bool)
      requires Open() && pos == 1
      modifies `trace, `pos
      ensures if go then Open() && pos == 10 else Stopped(false)
    {
      go := GoTrustSteps();
      if !go { return false; }
      go := GoCertificateSteps();
      if !go { return false; }
      if o.csr {
        var ok := Do(CreateSigningRequest);
        if !ok { return false; }
      } else {
        Skip();
      }
      go := Do(GetRejectedList);
      if !go { return false; }
      if !o.reset {
        Skip();
        return true;
      }
      go := Do(ResetToDefaults);
    }

    /** Go: reads the diagnostics and the trust list again, as far as the run got. */
    method GoFinish(was: bool, applied: bool) returns (success: bool)
      requires was == AllGood(trace) && applied == Has(trace, ApplyChanges)
      modifies `trace, `pos
      ensures trace == Finished(server, o, old(trace)) && success == AllGood(trace)
    {
      var ok := was;
      if o.diagnostics && (ok || applied) {
        var good := server(trace, ReadDiagnostics);
        GoodSnoc(trace, Done(ReadDiagnostics, good));
        trace := trace + [Done(ReadDiagnostics, good)];
        if !good && ok {
          ok := false;
        }
      }
      if ok {
        var good := server(trace, ReadTrustListAgain);
        GoodSnoc(trace, Done(ReadTrustListAgain, good));
        trace := trace + [Done(ReadTrustListAgain, good)];
        ok := good;
      }
      return ok;
    }

    /** Go: the whole command. */
    method GoRun() returns (success: bool)
      requires Open() && pos == 0
      modifies `trace, `pos
      ensures trace == Finished(server, o, goal) && success == AllGood(trace)
    {
      var ok := Do(ReadTrustList);
      if !ok { return false; }
      ok := GoChanges();
      if !ok { return false; }
      var applied := false;
      if o.apply {
        ok := Do(ApplyChanges);
        applied := true;
      } else {
        Skip();
      }
      if ok && o.cancel {
        ok := Do(CancelChanges);
      } else if ok {
        Skip();
      }
      success := GoFinish(ok, applied);
    }

    /** C#: the same steps behind one flag. */
    method CsTrustSteps() returns (ok: bool)
      requires Open() && pos == 1
      modifies `trace, `pos
      ensures if ok then Open() && pos == 4 else Stopped(false)
    {
      ok := true;
      if ok && o.add {
        ok := Do(AddCertificate);
      } else if ok {
        Skip();
      }
      if ok && o.remove {
        ok := Do(RemoveCertificate);
      } else if ok {
        Skip();
      }
      if ok && o.getCertificates {
        ok := Do(GetCertificates);
      } else if ok {
        Skip();
      }
    }

    method CsCertificateSteps(was: bool) returns (ok: bool)
      requires if was then Open() && pos == 4 else Stopped(false)
      modifies `trace, `pos
      ensures if ok then Open() && pos == 7 else Stopped(false)
    {
      ok := was;
      if ok && o.selfSigned {
        ok := Do(CreateSelfSigned);
      } else if ok {
        Skip();
      }
      if ok && o.delete {
        ok := Do(DeleteCertificate);
      } else if ok {
        Skip();
      }
      if ok && o.update {
        ok := Do(UpdateCertificate);
      } else if ok {
        Skip();
      }
    }

    method CsChanges() returns (ok: bool)
      requires Open() && pos == 1
      modifies `trace, `pos
      ensures if ok then Open() && pos == 10 else Stopped(false)
    {
      ok := CsTrustSteps();
      ok := CsCertificateSteps(ok);
      if ok && o.csr {
        ok := Do(CreateSigningRequest);
      } else if ok {
        Skip();
      }
      if ok {
        ok := Do(GetRejectedList);
      }
      if ok && o.reset {
        ok := Do(ResetToDefaults);
      } else if ok {
        Skip();
      }
    }

    method CsRun() returns (success: bool)
      requires Open() && pos == 0
      modifies `trace, `pos
      ensures trace == Finished(server, o, goal) && success == AllGood(trace)
    {
      var ok := Do(ReadTrustList);
      if !ok { return false; }
      ok := CsChanges();
      var applied := false;
      if ok && o.apply {
        ok := Do(ApplyChanges);
        applied := true;
      } else if ok {
        Skip();
      }
      if ok && o.cancel {
        ok := Do(CancelChanges);
      } else if ok {
        Skip();
      }
      success := GoFinish(ok, applied);
    }
  }

  lemma GoodSnoc(t: seq<Done>, d: Done)
    ensures AllGood(t + [d]) <==> AllGood(t) && d.good
  {
    assert (t + [d])[..|t|] == t;
  }

  lemma HasSnoc(t: seq<Done>, d: Done, s: Step)
    ensures Has(t + [d], s) <==> Has(t, s) || d.step == s
  {
    assert (t + [d])[..|t|] == t;
  }

  lemma {:induction false} AllGoodIs(t: seq<Done>)
    ensures AllGood(t) <==> forall i :: 0 <= i < |t| ==> t[i].good
  {
    if t != [] { AllGoodIs(t[..|t| - 1]); }
  }

  lemma {:induction false} HasIs(t: seq<Done>, s: Step)
    ensures Has(t, s) <==> exists i :: 0 <= i < |t| && t[i].step == s
  {
    if t != [] { HasIs(t[..|t| - 1], s); }
  }

  // ---- what holds of every run

  function Position(s: Step): nat {
    match s
    case ReadTrustList => 0 case AddCertificate => 1 case RemoveCertificate => 2 case GetCertificates => 3
    case CreateSelfSigned => 4 case DeleteCertificate => 5 case UpdateCertificate => 6 case CreateSigningRequest => 7
    case GetRejectedList => 8 case ResetToDefaults => 9 case ApplyChanges => 10 case CancelChanges => 11
    case ReadDiagnostics => 12 case ReadTrustListAgain => 13
  }

  lemma OrderPosition(k: nat)
    requires k < |ORDER|
    ensures Position(ORDER[k]) == k
  {
  }

  /** Wanted steps in their order, at the positions from `k` on; only the last can have failed. */
  ghost predicate InOrder(o: Options, t: seq<Done>, from: nat, k: nat) {
    && from <= |t|
    && (forall i :: from <= i < |t| ==> k <= Position(t[i].step) < |ORDER| && Wants(o, t[i].step))
    && (forall i, j :: from <= i < j < |t| ==> Position(t[i].step) < Position(t[j].step))
    && (forall i :: from <= i < |t| - 1 ==> t[i].good)
  }

  lemma {:induction false} CarriedInOrder(server: Server, o: Options, t: seq<Done>, k: nat)
    requires k <= |ORDER|
    ensures t <= Carried(server, o, t, k) && InOrder(o, Carried(server, o, t, k), |t|, k)
    decreases |ORDER| - k
  {
    if k < |ORDER| {
      OrderPosition(k);
      if !Wants(o, ORDER[k]) {
        CarriedInOrder(server, o, t, k + 1);
      } else {
        var good := server(t, ORDER[k]);
        var u := t + [Done(ORDER[k], good)];
        if good {
          CarriedInOrder(server, o, u, k + 1);
          InOrderCons(o, Carried(server, o, u, k + 1), |t|, k);
        }
      }
    }
  }

  lemma InOrderCons(o: Options, r: seq<Done>, from: nat, k: nat)
    requires from < |r| && InOrder(o, r, from + 1, k + 1)
    requires Position(r[from].step) == k < |ORDER| && Wants(o, r[from].step) && r[from].good
    ensures InOrder(o, r, from, k)
  {
  }

  /** A run of the steps that all went well did everything that was wanted. */
  lemma {:induction false} CarriedComplete(server: Server, o: Options, t: seq<Done>, k: nat, s: Step)
    requires k <= Position(s) < |ORDER| && Wants(o, s) && AllGood(Carried(server, o, t, k))
    ensures Has(Carried(server, o, t, k), s)
    decreases |ORDER| - k
  {
    OrderPosition(k);
    PositionOrder(s);
    if !Wants(o, ORDER[k]) {
      CarriedComplete(server, o, t, k + 1, s);
    } else {
      var good := server(t, ORDER[k]);
      var u := t + [Done(ORDER[k], good)];
      GoodSnoc(t, Done(ORDER[k], good));
      if ORDER[k] == s {
        HasSnoc(t, Done(s, good), s);
        CarriedInOrder(server, o, u, k + 1);
        HasPrefix(u, Carried(server, o, u, k + 1), s);
      } else {
        CarriedComplete(server, o, u, k + 1, s);
      }
    }
  }

  lemma PositionOrder(s: Step)
    requires Position(s) < |ORDER|
    ensures ORDER[Position(s)] == s
  {
  }

  lemma HasPrefix(t: seq<Done>, u: seq<Done>, s: Step)
    requires t <= u && Has(t, s)
    ensures Has(u, s)
  {
    HasIs(t, s);
    HasIs(u, s);
    var i :| 0 <= i < |t| && t[i].step == s;
    assert u[i].step == s;
  }

  /** After a step that failed nothing is changed any more: only a failed ApplyChanges is explained. */
  lemma NothingAfterFailure(server: Server, o: Options, i: nat, j: nat)
    requires !(o.apply && o.cancel)
    ensures var r := Run(server, o);
            i < j < |r| && !r[i].good ==> r[i].step == ApplyChanges && r[j].step == ReadDiagnostics
  {
    CarriedInOrder(server, o, [], FIRST);
    NothingAfterFrom(server, o, Carried(server, o, [], FIRST), i, j);
  }

  lemma NothingAfterFrom(server: Server, o: Options, t: seq<Done>, i: nat, j: nat)
    requires !(o.apply && o.cancel) && InOrder(o, t, 0, 0)
    ensures var r := Finished(server, o, t);
            i < j < |r| && !r[i].good ==> r[i].step == ApplyChanges && r[j].step == ReadDiagnostics
  {
    var r := Finished(server, o, t);
    if i < j < |r| && !r[i].good {
      AllGoodIs(t);
      HasIs(t, ApplyChanges);
      if i < |t| {
        var a :| 0 <= a < |t| && t[a].step == ApplyChanges;
      } else {
        GoodSnoc(t, Done(ReadDiagnostics, false));
      }
    }
  }

  /** ApplyChanges and CancelChanges are never both called. */
  lemma NeverBoth(server: Server, o: Options)
    requires !(o.apply && o.cancel)
    ensures !(Has(Run(server, o), ApplyChanges) && Has(Run(server, o), CancelChanges))
  {
    CarriedInOrder(server, o, [], FIRST);
    NeverBothFrom(server, o, Carried(server, o, [], FIRST));
  }

  lemma NeverBothFrom(server: Server, o: Options, t: seq<Done>)
    requires !(o.apply && o.cancel) && InOrder(o, t, 0, 0)
    ensures !(Has(Finished(server, o, t), ApplyChanges) && Has(Finished(server, o, t), CancelChanges))
  {
    FinishedHas(server, o, t, ApplyChanges);
    FinishedHas(server, o, t, CancelChanges);
    HasIs(t, ApplyChanges);
    HasIs(t, CancelChanges);
  }

  /** The end of a run adds no change step. */
  lemma FinishedHas(server: Server, o: Options, t: seq<Done>, s: Step)
    requires Position(s) < |ORDER|
    ensures Has(Finished(server, o, t), s) <==> Has(t, s)
  {
    var d := Done(ReadDiagnostics, server(t, ReadDiagnostics));
    HasSnoc(t, d, s);
    HasSnoc(t, Done(ReadTrustListAgain, server(t, ReadTrustListAgain)), s);
    HasSnoc(t + [d], Done(ReadTrustListAgain, server(t + [d], ReadTrustListAgain)), s);
  }

  lemma RunHas(server: Server, o: Options, s: Step)
    requires Position(s) < |ORDER|
    ensures Has(Run(server, o), s) <==> Has(Carried(server, o, [], FIRST), s)
  {
    FinishedHas(server, o, Carried(server, o, [], FIRST), s);
  }

  /** A run that went well did all that was wanted and read the trust list again; no other run has the new list. */
  lemma SuccessIsComplete(server: Server, o: Options)
    ensures AllGood(Run(server, o)) <==>
            var r := Run(server, o); r != [] && r[|r| - 1] == Done(ReadTrustListAgain, true)
    ensures AllGood(Run(server, o)) ==> forall s :: Position(s) < |ORDER| && Wants(o, s) ==> Has(Run(server, o), s)
  {
    CarriedInOrder(server, o, [], FIRST);
    FinishedGood(server, o, Carried(server, o, [], FIRST));
    if AllGood(Run(server, o)) {
      forall s | Position(s) < |ORDER| && Wants(o, s) ensures Has(Run(server, o), s) {
        CarriedComplete(server, o, [], FIRST, s);
        RunHas(server, o, s);
      }
    }
  }

  lemma FinishedGood(server: Server, o: Options, t: seq<Done>)
    requires InOrder(o, t, 0, 0)
    ensures AllGood(Finished(server, o, t)) <==>
            var r := Finished(server, o, t); r != [] && r[|r| - 1] == Done(ReadTrustListAgain, true)
    ensures AllGood(Finished(server, o, t)) ==> AllGood(t)
  {
    var d := Done(ReadDiagnostics, server(t, ReadDiagnostics));
    var u := if o.diagnostics && (AllGood(t) || Has(t, ApplyChanges)) then t + [d] else t;
    GoodSnoc(t, d);
    GoodSnoc(u, Done(ReadTrustListAgain, server(u, ReadTrustListAgain)));
  }

  /** What was created or deleted without apply is cancelled when the run went well. */
  lemma CreatedIsCancelled(server: Server, o: Options)
    requires (o.selfSigned || o.delete) && !o.apply ==> o.cancel
    requires AllGood(Run(server, o)) && !o.apply && (o.selfSigned || o.delete)
    ensures Has(Run(server, o), CancelChanges)
  {
    SuccessIsComplete(server, o);
    assert Position(CancelChanges) < |ORDER|;
  }

  /** Diagnostics are read exactly when they were asked for and nothing failed before or apply was attempted. */
  lemma DiagnosticsWhen(server: Server, o: Options)
    ensures var t := Carried(server, o, [], FIRST);
            Has(Run(server, o), ReadDiagnostics) <==> o.diagnostics && (AllGood(t) || Has(Run(server, o), ApplyChanges))
  {
    CarriedInOrder(server, o, [], FIRST);
    DiagnosticsFrom(server, o, Carried(server, o, [], FIRST));
  }

  lemma DiagnosticsFrom(server: Server, o: Options, t: seq<Done>)
    requires InOrder(o, t, 0, 0)
    ensures Has(Finished(server, o, t), ReadDiagnostics) <==>
            o.diagnostics && (AllGood(t) || Has(Finished(server, o, t), ApplyChanges))
  {
    HasIs(t, ReadDiagnostics);
    FinishedHas(server, o, t, ApplyChanges);
    FinishedReads(server, o, t);
  }

  lemma FinishedReads(server: Server, o: Options, t: seq<Done>)
    requires !Has(t, ReadDiagnostics)
    ensures Has(Finished(server, o, t), ReadDiagnostics) <==> o.diagnostics && (AllGood(t) || Has(t, ApplyChanges))
  {
    var d := Done(ReadDiagnostics, server(t, ReadDiagnostics));
    HasSnoc(t, d, ReadDiagnostics);
    HasSnoc(t, Done(ReadTrustListAgain, server(t, ReadTrustListAgain)), ReadDiagnostics);
    HasSnoc(t + [d], Done(ReadTrustListAgain, server(t + [d], ReadTrustListAgain)), ReadDiagnostics);
  }

  // ---- the transaction of the server

  /** Certificate changes wait for ApplyChanges or CancelChanges. */
  predicate Pending(t: seq<Done>) {
    t != []
    && var d := t[|t| - 1];
       if d.good && (d.step == ApplyChanges || d.step == CancelChanges) then false
       else if d.good && (d.step == CreateSelfSigned || d.step == DeleteCertificate
                          || d.step == UpdateCertificate) then true
       else Pending(t[..|t| - 1])
  }

  predicate Changed(t: seq<Done>) {
    Has(t, CreateSelfSigned) || Has(t, DeleteCertificate) || Has(t, UpdateCertificate)
  }

  /** In the order of a run, something is left pending exactly when it was changed and not settled. */
  lemma {:induction false} PendingIs(o: Options, t: seq<Done>)
    requires InOrder(o, t, 0, 0) && AllGood(t)
    ensures Pending(t) <==> Changed(t) && !Has(t, ApplyChanges) && !Has(t, CancelChanges)
  {
    if t != [] {
      PendingIs(o, t[..|t| - 1]);
      var d := t[|t| - 1];
      if Position(d.step) < Position(ApplyChanges) {
        NotYet(o, t, ApplyChanges);
        NotYet(o, t, CancelChanges);
      }
    }
  }

  lemma NotYet(o: Options, t: seq<Done>, s: Step)
    requires InOrder(o, t, 0, 0) && t != [] && Position(t[|t| - 1].step) < Position(s)
    ensures !Has(t, s)
  {
    HasIs(t, s);
  }

  lemma PendingFinished(server: Server, o: Options, t: seq<Done>)
    ensures Pending(Finished(server, o, t)) <==> Pending(t)
  {
    var d := Done(ReadDiagnostics, server(t, ReadDiagnostics));
    assert (t + [d])[..|t|] == t;
    var u := if o.diagnostics && (AllGood(t) || Has(t, ApplyChanges)) then t + [d] else t;
    var e := Done(ReadTrustListAgain, server(u, ReadTrustListAgain));
    assert (u + [e])[..|u|] == u;
  }

  /** A run that went well leaves something to apply exactly when it updated a certificate and neither
      applied nor cancelled: what it created or deleted is settled. */
  lemma LeftPending(server: Server, o: Options)
    requires (o.selfSigned || o.delete) && !o.apply ==> o.cancel
    requires AllGood(Run(server, o))
    ensures Pending(Run(server, o)) <==> o.update && !o.apply && !o.cancel
  {
    var t := Carried(server, o, [], FIRST);
    CarriedInOrder(server, o, [], FIRST);
    CarriedGood(server, o, t);
    forall s | Position(s) < |ORDER| ensures Has(t, s) <==> Wants(o, s) {
      WantedIffDone(server, o, t, s);
    }
    LeftPendingFrom(server, o, t);
  }

  lemma LeftPendingFrom(server: Server, o: Options, t: seq<Done>)
    requires (o.selfSigned || o.delete) && !o.apply ==> o.cancel
    requires InOrder(o, t, 0, 0) && AllGood(t) && forall s :: Position(s) < |ORDER| ==> (Has(t, s) <==> Wants(o, s))
    ensures Pending(Finished(server, o, t)) <==> o.update && !o.apply && !o.cancel
  {
    PendingFinished(server, o, t);
    PendingIs(o, t);
    assert Position(UpdateCertificate) < |ORDER| && Position(CreateSelfSigned) < |ORDER|
           && Position(DeleteCertificate) < |ORDER|;
    assert Position(ApplyChanges) < |ORDER| && Position(CancelChanges) < |ORDER|;
  }

  lemma CarriedGood(server: Server, o: Options, t: seq<Done>)
    requires AllGood(Finished(server, o, t))
    ensures AllGood(t)
  {
    var d := Done(ReadDiagnostics, server(t, ReadDiagnostics));
    GoodSnoc(t, d);
    var u := if o.diagnostics && (AllGood(t) || Has(t, ApplyChanges)) then t + [d] else t;
    GoodSnoc(u, Done(ReadTrustListAgain, server(u, ReadTrustListAgain)));
  }

  lemma WantedIffDone(server: Server, o: Options, t: seq<Done>, s: Step)
    requires Position(s) < |ORDER| && t == Carried(server, o, [], FIRST) && InOrder(o, t, 0, 0) && AllGood(t)
    ensures Has(t, s) <==> Wants(o, s)
  {
    HasIs(t, s);
    if Wants(o, s) {
      CarriedComplete(server, o, [], FIRST, s);
    }
  }

  // ---- the two adapters compared

  /** The steps of the Go adapter: none when the flags are refused. An empty `--remove-certificate` is no step. */
  function GoSteps(server: Server, f: Flags): seq<Done> {
    if f.apply && f.cancel then [] else Run(server, OptionsOf(f, f.remove.Some? && f.remove.value != ""))
  }

  /** The steps of the C# adapter. */
  function CsSteps(server: Server, f: Flags): seq<Done> { Run(server, OptionsOf(f, f.remove.Some?)) }

  /** Each step was asked for by its own flag; cancel also by creating or deleting, and never beside apply. */
  ghost predicate OnlyFlagged(t: seq<Done>, f: Flags, remove: bool) {
    && (Has(t, AddCertificate) ==> f.add)
    && (Has(t, RemoveCertificate) ==> remove)
    && (Has(t, GetCertificates) ==> f.getCertificates)
    && (Has(t, CreateSelfSigned) ==> f.selfSigned)
    && (Has(t, DeleteCertificate) ==> f.delete)
    && (Has(t, UpdateCertificate) ==> f.update)
    && (Has(t, CreateSigningRequest) ==> f.csr)
    && (Has(t, ResetToDefaults) ==> f.reset)
    && (Has(t, ApplyChanges) ==> f.apply)
    && (Has(t, CancelChanges) ==> !f.apply && (f.cancel || f.selfSigned || f.delete))
    && (Has(t, ReadDiagnostics) ==> f.diagnostics)
  }

  /** Each flag has its step, and the lists that are read without a flag are there. */
  ghost predicate AllFlagged(t: seq<Done>, f: Flags, remove: bool) {
    && Has(t, ReadTrustList) && Has(t, GetRejectedList) && Has(t, ReadTrustListAgain)
    && (f.add ==> Has(t, AddCertificate))
    && (remove ==> Has(t, RemoveCertificate))
    && (f.getCertificates ==> Has(t, GetCertificates))
    && (f.selfSigned ==> Has(t, CreateSelfSigned))
    && (f.delete ==> Has(t, DeleteCertificate))
    && (f.update ==> Has(t, UpdateCertificate))
    && (f.csr ==> Has(t, CreateSigningRequest))
    && (f.reset ==> Has(t, ResetToDefaults))
    && (f.apply ==> Has(t, ApplyChanges))
    && (!f.apply && (f.cancel || f.selfSigned || f.delete) ==> Has(t, CancelChanges))
    && (f.diagnostics ==> Has(t, ReadDiagnostics))
  }

  /** A step up to the end of the transaction is done only if it is wanted, and then if all went well. */
  lemma RunFollows(server: Server, o: Options, s: Step)
    requires Position(s) < |ORDER|
    ensures Has(Run(server, o), s) ==> Wants(o, s)
    ensures AllGood(Run(server, o)) && Wants(o, s) ==> Has(Run(server, o), s)
  {
    CarriedInOrder(server, o, [], FIRST);
    RunHas(server, o, s);
    HasIs(Carried(server, o, [], FIRST), s);
    SuccessIsComplete(server, o);
  }

  lemma RunEnds(server: Server, o: Options)
    ensures Has(Run(server, o), ReadDiagnostics) ==> o.diagnostics
    ensures AllGood(Run(server, o)) ==> Has(Run(server, o), ReadTrustListAgain)
    ensures AllGood(Run(server, o)) && o.diagnostics ==> Has(Run(server, o), ReadDiagnostics)
  {
    var r := Run(server, o);
    DiagnosticsWhen(server, o);
    SuccessIsComplete(server, o);
    if AllGood(r) {
      CarriedGood(server, o, Carried(server, o, [], FIRST));
    }
  }

  /** The first half of the change steps. */
  lemma FlagsOfTrustSteps(server: Server, f: Flags, remove: bool)
    ensures var t := Run(server, OptionsOf(f, remove));
            && (Has(t, AddCertificate) ==> f.add) && (Has(t, RemoveCertificate) ==> remove)
            && (Has(t, GetCertificates) ==> f.getCertificates) && (Has(t, CreateSelfSigned) ==> f.selfSigned)
            && (Has(t, DeleteCertificate) ==> f.delete)
            && (AllGood(t) ==>
                  && Has(t, ReadTrustList) && (f.add ==> Has(t, AddCertificate))
                     && (remove ==> Has(t, RemoveCertificate))
                  && (f.getCertificates ==> Has(t, GetCertificates)) && (f.selfSigned ==> Has(t, CreateSelfSigned))
                  && (f.delete ==> Has(t, DeleteCertificate)))
  {
    var o := OptionsOf(f, remove);
    RunFollows(server, o, ReadTrustList);
    RunFollows(server, o, AddCertificate);
    RunFollows(server, o, RemoveCertificate);
    RunFollows(server, o, GetCertificates);
    RunFollows(server, o, CreateSelfSigned);
    RunFollows(server, o, DeleteCertificate);
  }

  lemma RunFollowsFlags(server: Server, f: Flags, remove: bool)
    ensures OnlyFlagged(Run(server, OptionsOf(f, remove)), f, remove)
    ensures AllGood(Run(server, OptionsOf(f, remove))) ==> AllFlagged(Run(server, OptionsOf(f, remove)), f, remove)
  {
    var o := OptionsOf(f, remove);
    FlagsOfTrustSteps(server, f, remove);
    RunFollows(server, o, UpdateCertificate);
    RunFollows(server, o, CreateSigningRequest);
    RunFollows(server, o, GetRejectedList);
    RunFollows(server, o, ResetToDefaults);
    RunFollows(server, o, ApplyChanges);
    RunFollows(server, o, CancelChanges);
    RunEnds(server, o);
  }

  /** Go: every step has its own flag, and a run that went well did the step of every flag. */
  lemma GoStepsFollowFlags(server: Server, f: Flags)
    ensures OnlyFlagged(GoSteps(server, f), f, f.remove.Some? && f.remove.value != "")
    ensures AllGood(GoSteps(server, f)) && !(f.apply && f.cancel) ==>
              AllFlagged(GoSteps(server, f), f, f.remove.Some? && f.remove.value != "")
  {
    RunFollowsFlags(server, f, f.remove.Some? && f.remove.value != "");
  }

  /** C#: likewise, with a step for an empty `--remove-certificate` and no refusal. */
  lemma CsStepsFollowFlags(server: Server, f: Flags)
    ensures OnlyFlagged(CsSteps(server, f), f, f.remove.Some?)
    ensures AllGood(CsSteps(server, f)) ==> AllFlagged(CsSteps(server, f), f, f.remove.Some?)
  {
    RunFollowsFlags(server, f, f.remove.Some?);
  }

  method GoPush(server: Server, f: Flags) returns (r: Result<(seq<Done>, bool), ()>)
    ensures r.Err? <==> f.apply && f.cancel
    ensures if r.Ok? then r.value.0 == GoSteps(server, f) && r.value.1 == AllGood(r.value.0)
            else GoSteps(server, f) == []
    ensures r.Ok? ==> OnlyFlagged(r.value.0, f, f.remove.Some? && f.remove.value != "")
                      && (r.value.1 ==> AllFlagged(r.value.0, f, f.remove.Some? && f.remove.value != ""))
  {
    var o := GoOptions(f);
    if o.Err? { return Err(()); }
    var session := new Session(server, o.value);
    var success := session.GoRun();
    GoStepsFollowFlags(server, f);
    return Ok((session.trace, success));
  }

  method CsPush(server: Server, f: Flags) returns (trace: seq<Done>, success: bool)
    ensures trace == CsSteps(server, f) && success == AllGood(trace)
    ensures OnlyFlagged(trace, f, f.remove.Some?) && (success ==> AllFlagged(trace, f, f.remove.Some?))
  {
    var o := CsOptions(f);
    var session := new Session(server, o);
    success := session.CsRun();
    trace := session.trace;
    CsStepsFollowFlags(server, f);
  }

  /** The server lets a run get to RemoveCertificate. */
  predicate GetsToRemove(server: Server, add: bool) {
    server([], ReadTrustList) && (add ==> server([Done(ReadTrustList, true)], AddCertificate))
  }

  /** The same flags and the same answers give the same steps, with two exceptions: the Go adapter refuses
      apply together with cancel, and an empty `--remove-certificate` is a step in C# only. */
  lemma AdaptersAgree(server: Server, f: Flags)
    ensures GoSteps(server, f) == CsSteps(server, f) <==>
            !(f.apply && f.cancel) && !(f.remove == Some("") && GetsToRemove(server, f.add))
  {
    if f.apply && f.cancel {
      RunStarts(server, OptionsOf(f, f.remove.Some?));
    } else if f.remove == Some("") {
      EmptyIsSkipped(server, f);
    }
  }

  lemma EmptyIsSkipped(server: Server, f: Flags)
    requires f.remove == Some("") && !(f.apply && f.cancel)
    ensures GoSteps(server, f) == CsSteps(server, f) <==> !GetsToRemove(server, f.add)
  {
    FlagAlone(f);
    SkippedWhenEmpty(server, OptionsOf(f, true), OptionsOf(f, false));
  }

  lemma FlagAlone(f: Flags)
    ensures DifferInRemove(OptionsOf(f, true), OptionsOf(f, false))
  {
  }

  /** Leaving RemoveCertificate out is seen exactly when the run gets there. */
  lemma SkippedWhenEmpty(server: Server, o: Options, p: Options)
    requires o.remove && DifferInRemove(o, p)
    ensures Run(server, p) == Run(server, o) <==> !GetsToRemove(server, o.add)
  {
    SkipsAgree(server, o, p);
    RemoveReached(server, o);
    RunHas(server, o, RemoveCertificate);
  }

  /** A run always begins with the trust list. */
  lemma RunStarts(server: Server, o: Options)
    ensures Has(Run(server, o), ReadTrustList) && Run(server, o) != []
  {
    var d := Done(ReadTrustList, server([], ReadTrustList));
    HasSnoc([], d, ReadTrustList);
    assert [] + [d] == [d];
    CarriedInOrder(server, o, [d], 1);
    HasPrefix([d], Carried(server, o, [d], 1), ReadTrustList);
    RunHas(server, o, ReadTrustList);
  }

  /** Steps from the third on are not RemoveCertificate. */
  lemma NotRemovedLater(server: Server, o: Options, t: seq<Done>)
    ensures Has(Carried(server, o, t, 3), RemoveCertificate) <==> Has(t, RemoveCertificate)
  {
    var r := Carried(server, o, t, 3);
    CarriedInOrder(server, o, t, 3);
    HasIs(t, RemoveCertificate);
    HasIs(r, RemoveCertificate);
    if Has(t, RemoveCertificate) { HasPrefix(t, r, RemoveCertificate); }
  }

  lemma RemoveFrom(server: Server, o: Options, t: seq<Done>)
    requires !Has(t, RemoveCertificate)
    ensures Has(Carried(server, o, t, 2), RemoveCertificate) <==> o.remove
  {
    var d := Done(RemoveCertificate, server(t, RemoveCertificate));
    HasSnoc(t, d, RemoveCertificate);
    NotRemovedLater(server, o, t);
    NotRemovedLater(server, o, t + [d]);
  }

  lemma RemoveAfterList(server: Server, o: Options, t: seq<Done>)
    requires !Has(t, RemoveCertificate)
    ensures Has(Carried(server, o, t, 1), RemoveCertificate) <==> o.remove && (o.add ==> server(t, AddCertificate))
  {
    var d := Done(AddCertificate, server(t, AddCertificate));
    HasSnoc(t, d, RemoveCertificate);
    if !o.add {
      RemoveFrom(server, o, t);
    } else if d.good {
      RemoveFrom(server, o, t + [d]);
    }
  }

  lemma RemoveReached(server: Server, o: Options)
    ensures Has(Carried(server, o, [], FIRST), RemoveCertificate) <==> o.remove && GetsToRemove(server, o.add)
  {
    var d := Done(ReadTrustList, server([], ReadTrustList));
    assert [] + [d] == [d];
    HasSnoc([], d, RemoveCertificate);
    if d.good { RemoveAfterList(server, o, [d]); }
  }

  const NO_FLAGS := Flags(false, None, false, false, false, false, false, false, false, false, false)

  /** A server that answers Good to everything. */
  const GOOD: Server := (t: seq<Done>, s: Step) => true

  /** One failing input for each exception. */
  lemma EmptyRemoveDiffers()
    ensures var f := NO_FLAGS.(remove := Some(""));
            Has(CsSteps(GOOD, f), RemoveCertificate) && !Has(GoSteps(GOOD, f), RemoveCertificate)
  {
    var f := NO_FLAGS.(remove := Some(""));
    var o, p := OptionsOf(f, true), OptionsOf(f, false);
    RemoveReached(GOOD, o);
    RemoveReached(GOOD, p);
    RunHas(GOOD, o, RemoveCertificate);
    RunHas(GOOD, p, RemoveCertificate);
  }

  lemma ApplyWithCancelDiffers()
    ensures var f := NO_FLAGS.(apply := true, cancel := true);
            Has(CsSteps(GOOD, f), ApplyChanges) && GoSteps(GOOD, f) == []
  {
    var o := OptionsOf(NO_FLAGS.(apply := true, cancel := true), false);
    AlwaysGood(o, [], FIRST);
    CarriedComplete(GOOD, o, [], FIRST, ApplyChanges);
    RunHas(GOOD, o, ApplyChanges);
  }

  lemma {:induction false} AlwaysGood(o: Options, t: seq<Done>, k: nat)
    requires k <= |ORDER| && AllGood(t)
    ensures AllGood(Carried(GOOD, o, t, k))
    decreases |ORDER| - k
  {
    if k < |ORDER| {
      var d := Done(ORDER[k], true);
      GoodSnoc(t, d);
      AlwaysGood(o, t + [d], k + 1);
      AlwaysGood(o, t, k + 1);
    }
  }

  /** Every flag but one of apply and cancel. */
  function EveryFlag(apply: bool): Flags {
    Flags(true, Some("A1"), true, true, true, true, true, true, apply, !apply, true)
  }

  /** What a run of the first steps comes to when the server refuses nothing. */
  lemma GoodStep(o: Options, t: seq<Done>, k: nat, s: Step)
    requires k < |ORDER| && ORDER[k] == s
    ensures Carried(GOOD, o, t, k) == Carried(GOOD, o, if Wants(o, s) then t + [Done(s, true)] else t, k + 1)
  {
  }

  lemma GoodSteps(o: Options, t: seq<Done>, k: nat, a: Step, b: Step, c: Step)
    requires k + 3 <= |ORDER| && ORDER[k] == a && ORDER[k + 1] == b && ORDER[k + 2] == c
    requires Wants(o, a) && Wants(o, b) && Wants(o, c)
    ensures Carried(GOOD, o, t, k) == Carried(GOOD, o, t + [Done(a, true), Done(b, true), Done(c, true)], k + 3)
  {
    GoodStep(o, t, k, a);
    GoodStep(o, t + [Done(a, true)], k + 1, b);
    GoodStep(o, t + [Done(a, true)] + [Done(b, true)], k + 2, c);
    assert t + [Done(a, true)] + [Done(b, true)] + [Done(c, true)] == t + [Done(a, true), Done(b, true), Done(c, true)];
  }

  lemma LastSteps(o: Options, t: seq<Done>, k: nat)
    requires k == 9 && o.reset && o.cancel == !o.apply
    ensures Carried(GOOD, o, t, k) ==
            t + [Done(ResetToDefaults, true), Done(if o.apply then ApplyChanges else CancelChanges, true)]
  {
    GoodStep(o, t, k, ResetToDefaults);
    var u := t + [Done(ResetToDefaults, true)];
    GoodStep(o, u, k + 1, ApplyChanges);
    GoodStep(o, if o.apply then u + [Done(ApplyChanges, true)] else u, k + 2, CancelChanges);
  }

  const TRUST_STEPS := [Done(ReadTrustList, true), Done(AddCertificate, true), Done(RemoveCertificate, true)]
  const CERTIFICATE_STEPS :=
    [Done(GetCertificates, true), Done(CreateSelfSigned, true), Done(DeleteCertificate, true)]
  const OTHER_STEPS := [Done(UpdateCertificate, true), Done(CreateSigningRequest, true), Done(GetRejectedList, true)]

  lemma StepsInOrder(o: Options, k: nat)
    requires k == 0 && o.add && o.remove && o.getCertificates && o.selfSigned && o.delete
    requires o.update && o.csr && o.reset && o.cancel == !o.apply
    ensures Carried(GOOD, o, [], k) ==
            TRUST_STEPS + CERTIFICATE_STEPS + OTHER_STEPS
            + [Done(ResetToDefaults, true), Done(if o.apply then ApplyChanges else CancelChanges, true)]
  {
    GoodSteps(o, [], k, ReadTrustList, AddCertificate, RemoveCertificate);
    assert [] + TRUST_STEPS == TRUST_STEPS;
    GoodSteps(o, TRUST_STEPS, k + 3, GetCertificates, CreateSelfSigned, DeleteCertificate);
    GoodSteps(o, TRUST_STEPS + CERTIFICATE_STEPS, k + 6, UpdateCertificate, CreateSigningRequest, GetRejectedList);
    LastSteps(o, TRUST_STEPS + CERTIFICATE_STEPS + OTHER_STEPS, k + 9);
  }

  /** With every flag and a server that refuses nothing, these are the steps of both adapters, in this order. */
  lemma FullRun(apply: bool)
    ensures var f := EveryFlag(apply);
            GoSteps(GOOD, f) == CsSteps(GOOD, f) ==
            [Done(ReadTrustList, true), Done(AddCertificate, true), Done(RemoveCertificate, true),
             Done(GetCertificates, true), Done(CreateSelfSigned, true), Done(DeleteCertificate, true),
             Done(UpdateCertificate, true), Done(CreateSigningRequest, true), Done(GetRejectedList, true),
             Done(ResetToDefaults, true), Done(if apply then ApplyChanges else CancelChanges, true),
             Done(ReadDiagnostics, true), Done(ReadTrustListAgain, true)]
  {
    var o := OptionsOf(EveryFlag(apply), true);
    StepsInOrder(o, FIRST);
    AlwaysGood(o, [], FIRST);
    GoodSnoc(Carried(GOOD, o, [], FIRST), Done(ReadDiagnostics, true));
  }

  /** Two sets of options that differ in RemoveCertificate only. */
  ghost predicate DifferInRemove(o: Options, p: Options) {
    && !p.remove && o.diagnostics == p.diagnostics
    && forall s :: s != RemoveCertificate ==> (Wants(o, s) <==> Wants(p, s))
  }

  lemma SkipsAgree(server: Server, o: Options, p: Options)
    requires DifferInRemove(o, p)
    ensures Run(server, p) == Run(server, o) <==> !Has(Run(server, o), RemoveCertificate)
  {
    RunHas(server, o, RemoveCertificate);
    RunHas(server, p, RemoveCertificate);
    CarriedInOrder(server, p, [], FIRST);
    HasIs(Carried(server, p, [], FIRST), RemoveCertificate);
    if !Has(Carried(server, o, [], FIRST), RemoveCertificate) {
      SkippedIsSame(server, o, p, [], FIRST);
    }
  }

  lemma {:induction false} SkippedIsSame(server: Server, o: Options, p: Options, t: seq<Done>, k: nat)
    requires k <= |ORDER| && DifferInRemove(o, p) && !Has(Carried(server, o, t, k), RemoveCertificate)
    ensures Carried(server, p, t, k) == Carried(server, o, t, k)
    decreases |ORDER| - k
  {
    if k < |ORDER| {
      var step := ORDER[k];
      var good := server(t, step);
      var u := t + [Done(step, good)];
      if !Wants(o, step) {
        SkippedIsSame(server, o, p, t, k + 1);
      } else if good {
        NotRemoved(server, o, u, k + 1);
        HasSnoc(t, Done(step, good), RemoveCertificate);
        SkippedIsSame(server, o, p, u, k + 1);
      } else {
        HasSnoc(t, Done(step, good), RemoveCertificate);
      }
    }
  }

  lemma NotRemoved(server: Server, o: Options, u: seq<Done>, k: nat)
    requires k <= |ORDER| && !Has(Carried(server, o, u, k), RemoveCertificate)
    ensures !Has(u, RemoveCertificate)
  {
    CarriedInOrder(server, o, u, k);
    if Has(u, RemoveCertificate) {
      HasPrefix(u, Carried(server, o, u, k), RemoveCertificate);
    }
  }

  // ---- reading a trust list in chunks (C#)

  const CHUNK := 4096

  /** The open trust list of the server: a read returns some bytes, at most as many as asked for, and none
      only at the end; it may also fail. */
  class TrustListFile {
    const content: seq<byte>
    var position: nat
    var open: bool
    /** Some read has failed. */
    var failed: bool

    constructor (content: seq<byte>)
      ensures open && position == 0 && !failed && this.content == content
    {
      this.content, position, open, failed := content, 0, true, false;
    }

    method Read(n: nat) returns (chunk: Option<seq<byte>>)
      requires open && position <= |content| && n > 0
      modifies `position, `failed
      ensures old(position) <= position <= |content| && failed == (old(failed) || chunk.None?)
      ensures chunk.Some? ==>
                chunk.value == content[old(position)..position] && (chunk.value == [] ==> position == |content|)
    {
      var fails: bool, short: int := *, *;
      if fails {
        failed := true;
        return None;
      }
      var size := if |content| - position < n then |content| - position else n;
      if 0 < short < size {
        size := short;
      }
      chunk := Some(content[position..position + size]);
      position := position + size;
    }

    /** Reads until an empty chunk: the whole content unless a read fails. The file is closed either way. */
    method ReadAll() returns (data: Option<seq<byte>>)
      requires open && position == 0 && !failed
      modifies this
      ensures !open && data == if failed then None else Some(content)
    {
      var out: seq<byte>, ok := [], true;
      while true
        invariant open && !failed && ok && position <= |content| && out == content[..position]
        decreases |content| - position
      {
        var chunk := Read(CHUNK);
        if chunk.None? {
          ok := false;
          break;
        }
        if chunk.value == [] {
          break;
        }
        out := out + chunk.value;
      }
      assert content[..|content|] == content;
      open := false;
      return if ok then Some(out) else None;
    }
  }
}
