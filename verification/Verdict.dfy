/** The records of a run, the result document and its verdict (Python). */
module Verdict {
  import opened Prelude

  datatype Outcome = Pass | Fail | Unsupported | NotTested | KnownDifference | InfraError

  /** A record: about the run, an implementation, a waiver, or the result of a test between some roles. */
  datatype Record =
    | RunRecord
    | ImplementationRecord(name: string)
    | WaiverRecord(id: string, reproduced: bool)
    | TestRecord(test: Test)

  datatype Test = Test(id: string, roles: seq<string>, outcome: Outcome)

  /** The waivers by id, with whether they reproduced. */
  datatype Document = Document(gate: Option<string>, results: seq<Test>, waivers: map<string, bool>)

  // ---- converting the records

  /** The test records in their order. */
  function Tests(rs: seq<Record>): seq<Test> {
    if rs == [] then []
    else
      var t, r := Tests(rs[..|rs| - 1]), rs[|rs| - 1];
      if r.TestRecord? then t + [r.test] else t
  }

  predicate Waived(rs: seq<Record>, id: string) { WaiverRecord(id, true) in rs || WaiverRecord(id, false) in rs }

  /** A waiver is reproduced when some record of it is. */
  ghost predicate WaiversOf(rs: seq<Record>, ws: map<string, bool>) {
    && (forall id :: id in ws <==> Waived(rs, id))
    && (forall id :: id in ws ==> (ws[id] <==> WaiverRecord(id, true) in rs))
  }

  method Convert(rs: seq<Record>) returns (d: Document)
    ensures d.gate.None? && d.results == Tests(rs) && WaiversOf(rs, d.waivers)
  {
    var results: seq<Test>, waivers: map<string, bool> := [], map[];
    for i := 0 to |rs|
      invariant results == Tests(rs[..i]) && WaiversOf(rs[..i], waivers)
    {
      assert rs[..i + 1] == rs[..i] + [rs[i]];
      assert rs[..i + 1][..i] == rs[..i];
      match rs[i]
      case WaiverRecord(id, reproduced) =>
        var was := id in waivers && waivers[id];
        waivers := waivers[id := was || reproduced];
      case TestRecord(t) => results := results + [t];
      case _ =>
    }
    assert rs[..|rs|] == rs;
    return Document(None, results, waivers);
  }

  // ---- judging the document

  /** A result that fails the run: with a gate, only one that involves it. An empty gate is none. */
  predicate Fails(gate: Option<string>, t: Test) {
    (t.outcome == Fail || t.outcome == InfraError) && (gate.None? || gate.value == "" || gate.value in t.roles)
  }

  function Passes(ts: seq<Test>): nat {
    if ts == [] then 0 else Passes(ts[..|ts| - 1]) + if ts[|ts| - 1].outcome == Pass then 1 else 0
  }

  datatype Problem = FailedTest(test: Test) | StaleWaiver(id: string) | TooFewPasses

  method Problems(d: Document, floor: nat) returns (out: seq<Problem>)
    ensures forall t :: FailedTest(t) in out <==>
                        && t in d.results && (t.outcome == Fail || t.outcome == InfraError)
                        && (d.gate.Some? && d.gate.value != "" ==> d.gate.value in t.roles)
    ensures forall id :: StaleWaiver(id) in out <==> id in d.waivers && !d.waivers[id]
    ensures TooFewPasses in out <==> Passes(d.results) < floor
  {
    out := [];
    var passes := 0;
    for i := 0 to |d.results|
      invariant passes == Passes(d.results[..i])
      invariant forall p :: p in out <==> p.FailedTest? && p.test in d.results[..i] && Fails(d.gate, p.test)
    {
      var t := d.results[i];
      assert d.results[..i + 1] == d.results[..i] + [t] && d.results[..i + 1][..i] == d.results[..i];
      if (t.outcome == Fail || t.outcome == InfraError)
        && (d.gate.None? || d.gate.value == "" || d.gate.value in t.roles) {
        out := out + [FailedTest(t)];
      }
      if t.outcome == Pass {
        passes := passes + 1;
      }
    }
    assert d.results[..|d.results|] == d.results;
    out := StaleWaivers(d.waivers, out);
    if passes < floor {
      out := out + [TooFewPasses];
    }
  }

  /** The waivers in any order. */
  method StaleWaivers(ws: map<string, bool>, was: seq<Problem>) returns (out: seq<Problem>)
    ensures forall p :: p in out <==> p in was || (p.StaleWaiver? && p.id in ws && !ws[p.id])
  {
    out := was;
    var left := ws.Keys;
    while left != {}
      invariant left <= ws.Keys
      invariant forall p :: p in out <==> p in was || (p.StaleWaiver? && p.id in ws && p.id !in left && !ws[p.id])
      decreases |left|
    {
      var id :| id in left;
      left := left - {id};
      if !ws[id] {
        out := out + [StaleWaiver(id)];
      }
    }
  }

  /** The verdict on the records themselves. */
  ghost predicate RunPasses(rs: seq<Record>, floor: nat) {
    && (forall t :: TestRecord(t) in rs ==> t.outcome != Fail && t.outcome != InfraError)
    && (forall id :: Waived(rs, id) ==> WaiverRecord(id, true) in rs)
    && Passes(Tests(rs)) >= floor
  }

  lemma {:induction false} TestsHave(rs: seq<Record>, t: Test)
    ensures t in Tests(rs) <==> TestRecord(t) in rs
  {
    if rs != [] {
      var u, r := rs[..|rs| - 1], rs[|rs| - 1];
      TestsHave(u, t);
      assert rs == u + [r];
    }
  }

  /** The run is judged good exactly when no result is a failure, every waiver reproduces in some record
      and enough results pass. */
  method Judge(rs: seq<Record>, floor: nat) returns (good: bool)
    ensures good <==> RunPasses(rs, floor)
  {
    var d := Convert(rs);
    var out := Problems(d, floor);
    good := out == [];
    forall t ensures t in d.results <==> TestRecord(t) in rs { TestsHave(rs, t); }
    if good {
      assert forall t: Test :: FailedTest(t) !in out;
      assert forall id: string :: StaleWaiver(id) !in out;
      assert TooFewPasses !in out;
    } else {
      assert out[0] in out;
      match out[0]
      case FailedTest(t) => assert TestRecord(t) in rs;
      case StaleWaiver(id) => assert Waived(rs, id) && WaiverRecord(id, true) !in rs;
      case TooFewPasses =>
    }
  }

  lemma {:induction false} SomePass(ts: seq<Test>)
    ensures Passes(ts) > 0 <==> exists t :: t in ts && t.outcome == Pass
  {
    if ts != [] {
      var u, t := ts[..|ts| - 1], ts[|ts| - 1];
      SomePass(u);
      assert ts == u + [t];
    }
  }

  /** With the usual floor of one: some test passed. */
  lemma OnePassIsEnough(rs: seq<Record>)
    ensures RunPasses(rs, 1) <==>
            && (exists t :: TestRecord(t) in rs && t.outcome == Pass)
            && (forall t :: TestRecord(t) in rs ==> t.outcome != Fail && t.outcome != InfraError)
            && (forall id :: Waived(rs, id) ==> WaiverRecord(id, true) in rs)
  {
    SomePass(Tests(rs));
    forall t ensures t in Tests(rs) <==> TestRecord(t) in rs { TestsHave(rs, t); }
  }

  // ---- the order of the records does not matter

  /** How many records are passing results. */
  function PassRecords(rs: seq<Record>): nat {
    if rs == [] then 0 else PassRecords(rs[..|rs| - 1]) + if IsPass(rs[|rs| - 1]) then 1 else 0
  }

  predicate IsPass(r: Record) { r.TestRecord? && r.test.outcome == Pass }

  lemma {:induction false} PassesIs(rs: seq<Record>)
    ensures Passes(Tests(rs)) == PassRecords(rs)
  {
    if rs != [] {
      var u, r := rs[..|rs| - 1], rs[|rs| - 1];
      PassesIs(u);
      if r.TestRecord? {
        assert (Tests(u) + [r.test])[..|Tests(u)|] == Tests(u);
      }
    }
  }

  lemma {:induction false} PassRecordsRemove(rs: seq<Record>, i: nat)
    requires i < |rs|
    ensures PassRecords(rs) == PassRecords(rs[..i] + rs[i + 1..]) + if IsPass(rs[i]) then 1 else 0
  {
    var n := |rs| - 1;
    if i == n {
      assert rs[..i] + rs[i + 1..] == rs[..n];
    } else {
      PassRecordsRemove(rs[..n], i);
      assert (rs[..i] + rs[i + 1..])[..n - 1] == rs[..n][..i] + rs[..n][i + 1..];
    }
  }

  lemma {:induction false} PassRecordsPermuted(rs: seq<Record>, qs: seq<Record>)
    requires multiset(rs) == multiset(qs)
    ensures PassRecords(rs) == PassRecords(qs)
    decreases |rs|
  {
    assert |multiset(rs)| == |rs| && |multiset(qs)| == |qs|;
    if rs != [] {
      var n := |rs| - 1;
      assert rs[n] in multiset(qs);
      var i :| 0 <= i < |qs| && qs[i] == rs[n];
      MultisetRemove(rs, n);
      MultisetRemove(qs, i);
      assert rs[..n] + rs[n + 1..] == rs[..n];
      PassRecordsPermuted(rs[..n], qs[..i] + qs[i + 1..]);
      PassRecordsRemove(qs, i);
    }
  }

  lemma MultisetRemove(s: seq<Record>, i: nat)
    requires i < |s|
    ensures multiset(s[..i] + s[i + 1..]) == multiset(s) - multiset{s[i]}
  {
    assert s == s[..i] + ([s[i]] + s[i + 1..]);
  }

  lemma OrderDoesNotMatter(rs: seq<Record>, qs: seq<Record>, floor: nat)
    requires multiset(rs) == multiset(qs)
    ensures RunPasses(rs, floor) <==> RunPasses(qs, floor)
  {
    PassesIs(rs);
    PassesIs(qs);
    PassRecordsPermuted(rs, qs);
    assert forall r: Record :: r in rs <==> r in multiset(rs);
    assert forall r: Record :: r in qs <==> r in multiset(qs);
  }

  // ---- the summary

  function Count(ts: seq<Test>, o: Outcome): nat {
    if ts == [] then 0 else Count(ts[..|ts| - 1], o) + if ts[|ts| - 1].outcome == o then 1 else 0
  }

  method Summarize(ts: seq<Test>) returns (m: map<Outcome, nat>)
    ensures forall o: Outcome :: o in m && m[o] == Count(ts, o)
  {
    m := map[Pass := 0, Fail := 0, Unsupported := 0, NotTested := 0, KnownDifference := 0, InfraError := 0];
    forall o: Outcome ensures o in m && m[o] == 0 {
      match o case Pass => case Fail => case Unsupported => case NotTested => case KnownDifference => case InfraError =>
    }
    for i := 0 to |ts|
      invariant forall o: Outcome :: o in m && m[o] == Count(ts[..i], o)
    {
      assert ts[..i + 1][..i] == ts[..i];
      var o := ts[i].outcome;
      m := m[o := m[o] + 1];
    }
    assert ts[..|ts|] == ts;
  }

  /** The counts of the summary add up to the number of results. */
  lemma {:induction false} SummaryAddsUp(ts: seq<Test>)
    ensures Count(ts, Pass) + Count(ts, Fail) + Count(ts, Unsupported) + Count(ts, NotTested)
            + Count(ts, KnownDifference) + Count(ts, InfraError) == |ts|
  {
    if ts != [] { SummaryAddsUp(ts[..|ts| - 1]); }
  }
}
