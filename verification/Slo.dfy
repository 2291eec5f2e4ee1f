/** Service level objectives over exact arithmetic: nearest-rank P95, compliance,
    the error budget, and the events that report a low one. */
module Slo {
  import opened Wrappers
  import Sorting

  predicate RealAtMost(a: real, b: real) {
    a <= b
  }

  lemma RealOrderIsTotal()
    ensures Sorting.TotalOrder(RealAtMost)
  {
  }

  // ---- P95 and compliance ----

  /** The rank of the 95th percentile of n values, counted from zero: ceil(0.95 n) - 1. */
  function Rank(n: nat): int {
    (95 * n + 99) / 100 - 1
  }

  function P95(values: seq<real>): real {
    if values == [] then 0.0
    else
      var sorted := Sorting.Sort(values, RealAtMost);
      var i := Rank(|values|);
      sorted[if i < 0 then 0 else if i >= |sorted| then |sorted| - 1 else i]
  }

  function Good(threshold: real): real -> nat {
    (d: real) => if d <= threshold then 1 else 0
  }

  function GoodCount(values: seq<real>, threshold: real): nat {
    Sorting.Sum(values, Good(threshold))
  }

  function Percentage(part: int, whole: nat): real
    requires whole > 0
  {
    part as real / whole as real * 100.0
  }

  /** ComplianceLatency: the counting loop. */
  method ComplianceLatency(latencies: seq<real>, threshold: real) returns (compliance: real)
    ensures compliance == if latencies == [] then 100.0 else Percentage(GoodCount(latencies, threshold), |latencies|)
  {
    if |latencies| == 0 {
      return 100.0;
    }
    var good := 0;
    for i := 0 to |latencies|
      invariant good == GoodCount(latencies[..i], threshold)
    {
      CountOneMore(latencies, i, threshold);
      if latencies[i] <= threshold {
        good := good + 1;
      }
    }
    assert latencies[..|latencies|] == latencies;
    compliance := good as real / |latencies| as real * 100.0;
  }

  lemma CountOneMore(values: seq<real>, i: nat, threshold: real)
    requires i < |values|
    ensures GoodCount(values[..i + 1], threshold) == GoodCount(values[..i], threshold) + Good(threshold)(values[i])
  {
    assert values[..i + 1] == values[..i] + [values[i]];
    Sorting.SumAppend(values[..i], [values[i]], Good(threshold));
    assert Sorting.Sum([values[i]], Good(threshold)) == Good(threshold)(values[i]) + Sorting.Sum([], Good(threshold));
  }

  lemma {:induction false} CountBounds(values: seq<real>, threshold: real)
    ensures GoodCount(values, threshold) <= |values|
  {
    if values != [] {
      CountBounds(values[1..], threshold);
    }
  }

  /** In ascending values the good ones come first. */
  lemma {:induction false} GoodOnesComeFirst(sorted: seq<real>, threshold: real, k: nat)
    requires Sorting.Sorted(sorted, RealAtMost) && k < |sorted|
    ensures sorted[k] <= threshold <==> GoodCount(sorted, threshold) > k
  {
    CountBounds(sorted[1..], threshold);
    if k > 0 {
      GoodOnesComeFirst(sorted[1..], threshold, k - 1);
      assert sorted[0] <= sorted[k];
    } else if sorted[0] > threshold {
      NoneGood(sorted[1..], threshold);
    }
    if sorted[0] > threshold {
      NoneGood(sorted[1..], threshold);
    }
  }

  lemma {:induction false} NoneGood(values: seq<real>, threshold: real)
    requires forall i :: 0 <= i < |values| ==> values[i] > threshold
    ensures GoodCount(values, threshold) == 0
  {
    if values != [] {
      NoneGood(values[1..], threshold);
    }
  }

  /** Comparing a quotient is comparing with the product. */
  lemma QuotientAtLeast(g: real, m: real, p: real)
    requires m > 0.0
    ensures g / m * 100.0 >= p <==> 100.0 * g >= p * m
  {
    var q := g / m;
    assert q * m == g;
    TimesPositive(q * 100.0, p, m);
    calc {
      q * 100.0 * m;
      (q * m) * 100.0;
      g * 100.0;
    }
  }

  lemma TimesPositive(a: real, b: real, m: real)
    requires m > 0.0
    ensures a >= b <==> a * m >= b * m
  {
    if a >= b {
      assert (a - b) * m >= 0.0;
    } else {
      assert (b - a) * m > 0.0;
    }
  }

  lemma CastProduct(a: nat, b: nat)
    ensures (a * b) as real == a as real * b as real
  {
  }

  lemma PercentageAtLeast(good: nat, n: nat, percent: nat)
    requires n > 0
    ensures Percentage(good, n) >= percent as real <==> 100 * good >= percent * n
  {
    CastProduct(100, good);
    CastProduct(percent, n);
    QuotientAtLeast(good as real, n as real, percent as real);
  }

  /** The two latency figures agree: P95 is within the threshold if and only if at
      least 95 percent of the requests are. */
  lemma P95MeetsCompliance(values: seq<real>, threshold: real)
    requires values != []
    ensures P95(values) <= threshold <==> Percentage(GoodCount(values, threshold), |values|) >= 95.0
  {
    var sorted, n := Sorting.Sort(values, RealAtMost), |values|;
    RealOrderIsTotal();
    Sorting.SortCorrect(values, RealAtMost);
    Sorting.SumPermuted(sorted, values, Good(threshold));
    assert 0 <= Rank(n) < n;
    GoodOnesComeFirst(sorted, threshold, Rank(n));
    PercentageAtLeast(GoodCount(values, threshold), n, 95);
  }

  /** P95 is one of the values and does not depend on their order. */
  lemma P95ForgetsOrder(a: seq<real>, b: seq<real>)
    requires multiset(a) == multiset(b)
    ensures P95(a) == P95(b)
    ensures a != [] ==> P95(a) in a
  {
    assert |a| == |multiset(a)| == |multiset(b)| == |b|;
    RealOrderIsTotal();
    Sorting.SortForgetsOrder(a, b, RealAtMost);
    Sorting.SortMembers(a, RealAtMost);
  }

  // ---- the error budget ----

  function ErrorBudgetRemaining(compliance: real, target: real): real {
    if target <= 0.0 then 100.0
    else if compliance >= target then 100.0
    else
      var allowedBad, actualBad := 100.0 - target, 100.0 - compliance;
      if allowedBad <= 0.0 then 0.0
      else
        var remaining := (allowedBad - actualBad) / allowedBad * 100.0;
        if remaining < 0.0 then 0.0 else if remaining > 100.0 then 100.0 else remaining
  }

  /** There is no partial budget: it is all there or all gone. */
  lemma BudgetIsAllOrNothing(compliance: real, target: real)
    ensures ErrorBudgetRemaining(compliance, target) == if compliance < target && target > 0.0 then 0.0 else 100.0
  {
    if compliance < target && 0.0 < target < 100.0 {
      var allowedBad, gap := 100.0 - target, compliance - target;
      var q := gap / allowedBad;
      assert q * allowedBad == gap;
      assert q < 0.0;
    }
  }

  datatype Definition = Definition(id: string, availability: bool, target: real, threshold: real)

  datatype Status = Status(p95: real, compliance: real, good: int, total: nat, budget: real, breached: bool)

  /** EvaluateSLO on what the metrics query returned. */
  method EvaluateSLO(def: Definition, latencies: seq<real>, requests: nat, errors: nat) returns (status: Status)
    ensures status.breached <==> status.compliance < def.target
    ensures status.budget == if status.breached && def.target > 0.0 then 0.0 else 100.0
    ensures status.total > 0 ==> status.compliance == Percentage(status.good, status.total)
    ensures status.total == 0 ==> status.compliance == 100.0
    ensures def.availability ==> status.good == requests - errors && status.total == requests
    ensures !def.availability ==>
              && status.good == GoodCount(latencies, def.threshold) && status.total == |latencies|
              && status.p95 == P95(latencies)
              && (latencies != [] ==> (status.p95 <= def.threshold <==> status.compliance >= 95.0))
  {
    var p95, compliance, good, total := 0.0, 100.0, requests - errors, requests;
    if def.availability {
      if requests > 0 {
        compliance := good as real / requests as real * 100.0;
      }
    } else {
      p95 := P95(latencies);
      compliance := ComplianceLatency(latencies, def.threshold);
      if latencies != [] {
        P95MeetsCompliance(latencies, def.threshold);
      }
      good := 0;
      for i := 0 to |latencies|
        invariant good == GoodCount(latencies[..i], def.threshold)
      {
        CountOneMore(latencies, i, def.threshold);
        if latencies[i] <= def.threshold {
          good := good + 1;
        }
      }
      assert latencies[..|latencies|] == latencies;
      total := |latencies|;
    }
    BudgetIsAllOrNothing(compliance, def.target);
    status := Status(p95, compliance, good, total, ErrorBudgetRemaining(compliance, def.target), compliance < def.target);
  }

  /** Evaluate looks at an objective only below a budget of ten. */
  predicate Considered(compliance: real, target: real) {
    ErrorBudgetRemaining(compliance, target) < 10.0
  }

  /** An objective is considered if and only if it is breached and has a positive target. */
  lemma ConsideredWhenBreached(compliance: real, target: real)
    ensures Considered(compliance, target) <==> compliance < target && target > 0.0
  {
    BudgetIsAllOrNothing(compliance, target);
  }

  /** So for a latency objective of 95 percent, exactly a P95 over the threshold is reported. */
  lemma LatencyObjective(values: seq<real>, threshold: real)
    requires values != []
    ensures Considered(Percentage(GoodCount(values, threshold), |values|), 95.0) <==> P95(values) > threshold
  {
    P95MeetsCompliance(values, threshold);
    ConsideredWhenBreached(Percentage(GoodCount(values, threshold), |values|), 95.0);
  }

  /** The gap: more errors than requests breach an objective without a positive
      target, and nobody is told. */
  lemma BreachedButNotConsidered()
    ensures var compliance := Percentage(1 - 3, 1);
            compliance < 0.0 && !Considered(compliance, 0.0)
  {
  }

  // ---- reporting ----

  type Time = int

  /** Half an hour in nanoseconds. */
  const Dedupe: Time := 1_800_000_000_000

  datatype Report = Report(id: string, at: Time)

  /** One objective of a round: its compliance and target, or nothing when its evaluation failed. */
  datatype Check = Check(id: string, outcome: Option<(real, real)>)

  function KeyOf(id: string): string {
    id + ":budget"
  }

  lemma KeyIsUnambiguous(a: string, b: string)
    ensures KeyOf(a) == KeyOf(b) <==> a == b
  {
    assert a == KeyOf(a)[..|KeyOf(a)| - 7] && b == KeyOf(b)[..|KeyOf(b)| - 7];
  }

  /** When an objective was last reported. */
  function LastReport(reports: seq<Report>, id: string): Option<Time> {
    if reports == [] then None
    else if reports[|reports| - 1].id == id then Some(reports[|reports| - 1].at)
    else LastReport(reports[..|reports| - 1], id)
  }

  predicate Due(reports: seq<Report>, check: Check, now: Time) {
    && check.outcome.Some? && Considered(check.outcome.value.0, check.outcome.value.1)
    && (LastReport(reports, check.id).Some? ==> now - LastReport(reports, check.id).value >= Dedupe)
  }

  function AfterChecks(reports: seq<Report>, checks: seq<Check>, now: Time): seq<Report> {
    if checks == [] then reports
    else
      var before := AfterChecks(reports, checks[..|checks| - 1], now);
      var check := checks[|checks| - 1];
      if Due(before, check, now) then before + [Report(check.id, now)] else before
  }

  /** Reports of one objective are at least the dedupe interval apart, however the clock moves. */
  ghost predicate Spaced(reports: seq<Report>) {
    forall i, j :: 0 <= i < j < |reports| && reports[i].id == reports[j].id ==> reports[j].at - reports[i].at >= Dedupe
  }

  lemma {:induction false} LastReportIsLatest(reports: seq<Report>, id: string)
    requires Spaced(reports)
    ensures LastReport(reports, id).None? <==> forall i :: 0 <= i < |reports| ==> reports[i].id != id
    ensures forall i :: 0 <= i < |reports| && reports[i].id == id && LastReport(reports, id).Some? ==>
              reports[i].at <= LastReport(reports, id).value
  {
    if reports != [] && reports[|reports| - 1].id != id {
      LastReportIsLatest(reports[..|reports| - 1], id);
    }
  }

  lemma {:induction false} RoundKeepsSpacing(reports: seq<Report>, checks: seq<Check>, now: Time)
    requires Spaced(reports)
    ensures Spaced(AfterChecks(reports, checks, now))
    ensures reports <= AfterChecks(reports, checks, now)
  {
    if checks != [] {
      var init := checks[..|checks| - 1];
      RoundKeepsSpacing(reports, init, now);
      LastReportIsLatest(AfterChecks(reports, init, now), checks[|checks| - 1].id);
    }
  }

  lemma NoChecks(reports: seq<Report>, now: Time)
    ensures AfterChecks(reports, [], now) == reports
  {
  }

  lemma OneMoreCheck(reports: seq<Report>, checks: seq<Check>, check: Check, now: Time)
    ensures var before := AfterChecks(reports, checks, now);
            AfterChecks(reports, checks + [check], now) == if Due(before, check, now) then before + [Report(check.id, now)] else before
  {
    assert (checks + [check])[..|checks|] == checks;
  }

  lemma ReportedMore(reports: seq<Report>, r: Report)
    ensures forall id :: LastReport(reports + [r], id) == if id == r.id then Some(r.at) else LastReport(reports, id)
  {
    assert (reports + [r])[..|reports|] == reports;
  }

  class Evaluator {
    var last: map<string, Time>
    var published: seq<Report>

    ghost predicate Valid()
      reads this
    {
      && Spaced(published)
      && forall id :: (if KeyOf(id) in last then Some(last[KeyOf(id)]) else None) == LastReport(published, id)
    }

    constructor ()
      ensures Valid() && published == []
    {
      last, published := map[], [];
    }

    /** Evaluate; no checks when the objectives could not be listed. */
    method Evaluate(listed: Option<seq<Check>>, now: Time)
      requires Valid()
      modifies this
      ensures Valid()
      ensures published == AfterChecks(old(published), listed.GetOr([]), now)
    {
      hide Considered, KeyOf, AfterChecks, LastReport;
      NoChecks(published, now);
      if listed.None? {
        return;
      }
      var checks := listed.value;
      for i := 0 to |checks|
        invariant Valid() && published == AfterChecks(old(published), checks[..i], now)
      {
        var check := checks[i];
        assert checks[..i + 1] == checks[..i] + [check];
        OneMoreCheck(old(published), checks[..i], check, now);
        RoundKeepsSpacing(old(published), checks[..i + 1], now);
        if check.outcome.None? || !Considered(check.outcome.value.0, check.outcome.value.1) {
          continue;
        }
        var key := KeyOf(check.id);
        if key in last && now - last[key] < Dedupe {
          continue;
        }
        last := last[key := now];
        ReportedMore(published, Report(check.id, now));
        published := published + [Report(check.id, now)];
        forall id ensures (if KeyOf(id) in last then Some(last[KeyOf(id)]) else None) == LastReport(published, id) {
          KeyIsUnambiguous(id, check.id);
        }
      }
      assert checks[..|checks|] == checks;
    }
  }

  lemma {:induction false} QuietOnlyAfterReport(reports: seq<Report>, checks: seq<Check>, now: Time, i: nat)
    requires Spaced(reports) && i < |checks|
    requires checks[i].outcome.Some? && Considered(checks[i].outcome.value.0, checks[i].outcome.value.1)
    ensures exists r :: r in AfterChecks(reports, checks, now) && r.id == checks[i].id && now - r.at < Dedupe
  {
    hide Considered;
    var init := checks[..|checks| - 1];
    var before := AfterChecks(reports, init, now);
    RoundKeepsSpacing(reports, init, now);
    if i < |checks| - 1 {
      QuietOnlyAfterReport(reports, init, now, i);
      var r :| r in before && r.id == checks[i].id && now - r.at < Dedupe;
      assert r in AfterChecks(reports, checks, now);
    } else if Due(before, checks[i], now) {
      assert Report(checks[i].id, now) in AfterChecks(reports, checks, now);
    } else {
      var r := ReportOf(before, checks[i].id);
      assert r in AfterChecks(reports, checks, now);
    }
  }

  /** A round reports only breached objectives with a positive target, at its own time,
      and none that had a report in the half hour before. */
  lemma {:induction false} OnlyBreachesAreReported(reports: seq<Report>, checks: seq<Check>, now: Time, i: nat)
    requires Spaced(reports) && |reports| <= i < |AfterChecks(reports, checks, now)|
    ensures var r := AfterChecks(reports, checks, now)[i];
            && r.at == now
            && (exists c :: c in checks && c.id == r.id && c.outcome.Some?
                            && c.outcome.value.0 < c.outcome.value.1 && c.outcome.value.1 > 0.0)
            && forall earlier :: earlier in reports && earlier.id == r.id ==> now - earlier.at >= 30 * 60 * 1_000_000_000
  {
    hide Considered;
    RoundKeepsSpacing(reports, checks, now);
    var init, check := checks[..|checks| - 1], checks[|checks| - 1];
    var before := AfterChecks(reports, init, now);
    if i < |before| {
      OnlyBreachesAreReported(reports, init, now, i);
    } else {
      assert check in checks;
      ConsideredWhenBreached(check.outcome.value.0, check.outcome.value.1);
    }
  }

  lemma {:induction false} ReportOf(reports: seq<Report>, id: string) returns (r: Report)
    requires LastReport(reports, id).Some?
    ensures r in reports && r.id == id && Some(r.at) == LastReport(reports, id)
  {
    r := reports[|reports| - 1];
    if r.id != id {
      r := ReportOf(reports[..|reports| - 1], id);
    }
  }
}
