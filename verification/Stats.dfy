/** The panel's chart statistics over exact arithmetic. */
module Stats {
  import opened Wrappers
  import Sorting

  datatype Mode = Avg | P85 | P90 | P95 | Max

  predicate AtMost(a: real, b: real) {
    a <= b
  }

  function Percentile(mode: Mode): Option<real> {
    match mode
    case P85 => Some(0.85)
    case P90 => Some(0.9)
    case P95 => Some(0.95)
    case _ => None
  }

  function Ceil(x: real): int {
    if x == x.Floor as real then x.Floor else x.Floor + 1
  }

  /** Linear interpolation between the two closest ranks. */
  function Interpolate(sorted: seq<real>, rank: real): real
    requires sorted != [] && 0.0 <= rank <= (|sorted| - 1) as real
  {
    RankInside(|sorted|, rank);
    var low, high := rank.Floor, Ceil(rank);
    Along(sorted[low], sorted[high], rank - low as real)
  }

  function Along(from: real, to: real, part: real): real {
    from + (to - from) * part
  }

  lemma AlongClimbs(from: real, to: real, s: real, t: real)
    requires from <= to && 0.0 <= s <= t <= 1.0
    ensures from <= Along(from, to, s) <= Along(from, to, t) <= to
    ensures Along(from, to, 0.0) == from
  {
    Scaled(to - from, 0.0, s);
    Scaled(to - from, s, t);
    Scaled(to - from, t, 1.0);
  }

  /** The rank of a percentile among n values. */
  function RankAt(q: real, n: nat): (rank: real)
    requires 0.0 <= q <= 1.0 && n > 0
    ensures 0.0 <= rank <= (n - 1) as real
  {
    RankOf(q, n);
    Times(q, (n - 1) as real)
  }

  function Times(a: real, b: real): real {
    a * b
  }

  lemma RankClimbs(p: real, q: real, n: nat)
    requires 0.0 <= p <= q <= 1.0 && n > 0
    ensures RankAt(p, n) <= RankAt(q, n)
    ensures RankAt(0.0, n) == 0.0 && RankAt(1.0, n) == (n - 1) as real
  {
    hide Times;
    TimesClimbs(p, q, (n - 1) as real);
  }

  lemma TimesClimbs(p: real, q: real, m: real)
    requires p <= q && m >= 0.0
    ensures Times(p, m) <= Times(q, m) && Times(0.0, m) == 0.0 && Times(1.0, m) == m
  {
    var d := q - p;
    Distributes(p, d, m);
    NotNegative(d, m);
    hide Times;
    assert p + d == q;
  }

  lemma Distributes(a: real, b: real, m: real)
    ensures Times(a + b, m) == Times(a, m) + Times(b, m)
    ensures Times(0.0, m) == 0.0 && Times(1.0, m) == m
  {
  }

  lemma NotNegative(a: real, b: real)
    requires a >= 0.0 && b >= 0.0
    ensures Times(a, b) >= 0.0
  {
  }

  lemma RankInside(n: nat, rank: real)
    requires n > 0 && 0.0 <= rank <= (n - 1) as real
    ensures 0 <= rank.Floor <= Ceil(rank) < n
  {
  }

  function Total(values: seq<real>): real {
    if values == [] then 0.0 else Total(values[..|values| - 1]) + values[|values| - 1]
  }

  function Largest(values: seq<real>): (m: real)
    requires values != []
    ensures m in values && forall i :: 0 <= i < |values| ==> values[i] <= m
  {
    var last := values[|values| - 1];
    if |values| == 1 then last
    else
      var m := Largest(values[..|values| - 1]);
      if last > m then last else m
  }

  lemma RankOf(q: real, n: nat)
    requires 0.0 <= q <= 1.0 && n > 0
    ensures 0.0 <= q * (n - 1) as real <= (n - 1) as real
  {
  }

  /** summarize; nothing for no values. */
  function Summarize(values: seq<real>, mode: Mode): Option<real> {
    if values == [] then None
    else if mode == Max then Some(Largest(values))
    else if Percentile(mode).None? then Some(Total(values) / |values| as real)
    else
      var sorted, q := Sorting.Sort(values, AtMost), Percentile(mode).value;
      Some(Interpolate(sorted, RankAt(q, |sorted|)))
  }

  lemma OrderIsTotal()
    ensures Sorting.TotalOrder(AtMost)
  {
  }

  lemma Scaled(d: real, s: real, t: real)
    requires d >= 0.0 && s <= t
    ensures d * s <= d * t
  {
  }

  /** An interpolated value lies between its two neighbours, and is the value itself at a whole rank. */
  lemma Between(sorted: seq<real>, rank: real)
    requires sorted != [] && Sorting.Sorted(sorted, AtMost) && 0.0 <= rank <= (|sorted| - 1) as real
    ensures 0 <= rank.Floor <= Ceil(rank) < |sorted|
    ensures sorted[rank.Floor] <= Interpolate(sorted, rank) <= sorted[Ceil(rank)]
    ensures rank == rank.Floor as real ==> Interpolate(sorted, rank) == sorted[rank.Floor]
  {
    RankInside(|sorted|, rank);
    var low, high := rank.Floor, Ceil(rank);
    assert low < high ==> AtMost(sorted[low], sorted[high]);
    AlongClimbs(sorted[low], sorted[high], rank - low as real, rank - low as real);
  }

  /** A later rank never has a smaller value. */
  lemma InterpolationClimbs(sorted: seq<real>, x: real, y: real)
    requires sorted != [] && Sorting.Sorted(sorted, AtMost) && 0.0 <= x <= y <= (|sorted| - 1) as real
    ensures Interpolate(sorted, x) <= Interpolate(sorted, y)
  {
    Between(sorted, x);
    Between(sorted, y);
    if x.Floor == y.Floor {
      if x != x.Floor as real {
        SameSegment(sorted, x, y);
      }
    } else {
      assert Ceil(x) < y.Floor ==> AtMost(sorted[Ceil(x)], sorted[y.Floor]);
      assert sorted[Ceil(x)] <= sorted[y.Floor];
    }
  }

  lemma SameSegment(sorted: seq<real>, x: real, y: real)
    requires sorted != [] && Sorting.Sorted(sorted, AtMost) && 0.0 <= x <= y <= (|sorted| - 1) as real
    requires x.Floor == y.Floor && x != x.Floor as real
    ensures Interpolate(sorted, x) <= Interpolate(sorted, y)
  {
    RankInside(|sorted|, x);
    var low, high := x.Floor, Ceil(x);
    assert Ceil(y) == high && AtMost(sorted[low], sorted[high]);
    AlongClimbs(sorted[low], sorted[high], x - low as real, y - low as real);
  }

  lemma PercentilesClimb(values: seq<real>, p: real, q: real)
    requires values != [] && 0.0 <= p <= q <= 1.0
    ensures var sorted, n := Sorting.Sort(values, AtMost), |values|;
            Interpolate(sorted, RankAt(p, n)) <= Interpolate(sorted, RankAt(q, n))
  {
    OrderIsTotal();
    Sorting.SortCorrect(values, AtMost);
    RankClimbs(p, q, |values|);
    InterpolationClimbs(Sorting.Sort(values, AtMost), RankAt(p, |values|), RankAt(q, |values|));
  }

  /** The two ends of the interpolation are the smallest and the largest value. */
  lemma EndsOfRange(values: seq<real>)
    requires values != []
    ensures var sorted := Sorting.Sort(values, AtMost);
            && Interpolate(sorted, (|sorted| - 1) as real) == Largest(values)
            && Interpolate(sorted, 0.0) in values
            && forall i :: 0 <= i < |values| ==> Interpolate(sorted, 0.0) <= values[i]
  {
    var sorted := Sorting.Sort(values, AtMost);
    var n := |sorted|;
    OrderIsTotal();
    Sorting.SortCorrect(values, AtMost);
    Sorting.SortMembers(values, AtMost);
    Between(sorted, (n - 1) as real);
    Between(sorted, 0.0);
    assert sorted[n - 1] in values && sorted[0] in values;
    var k :| 0 <= k < |values| && values[k] == sorted[n - 1];
    assert Largest(values) in sorted;
    forall i | 0 <= i < |values| ensures sorted[0] <= values[i] {
      assert values[i] in sorted;
    }
  }

  /** min <= p85 <= p90 <= p95 <= max, for every non-empty input. */
  lemma StatisticsAreOrdered(values: seq<real>)
    requires values != []
    ensures forall mode :: Summarize(values, mode).Some?
    ensures forall i :: 0 <= i < |values| ==> values[i] <= Summarize(values, Max).value
    ensures exists i :: 0 <= i < |values| && (forall j :: 0 <= j < |values| ==> values[i] <= values[j])
              && values[i] <= Summarize(values, P85).value
    ensures Summarize(values, P85).value <= Summarize(values, P90).value
              <= Summarize(values, P95).value <= Summarize(values, Max).value
  {
    hide Interpolate, Sorting.Sort, Largest;
    EndsOfRange(values);
    PercentilesClimb(values, 0.0, 0.85);
    PercentilesClimb(values, 0.85, 0.9);
    PercentilesClimb(values, 0.9, 0.95);
    PercentilesClimb(values, 0.95, 1.0);
    var sorted := Sorting.Sort(values, AtMost);
    RankClimbs(0.0, 1.0, |values|);
    var i :| 0 <= i < |values| && values[i] == Interpolate(sorted, 0.0);
  }

  lemma {:induction false} TotalAppend(a: seq<real>, b: seq<real>)
    ensures Total(a + b) == Total(a) + Total(b)
  {
    if b == [] {
      assert a + b == a;
    } else {
      TotalAppend(a, b[..|b| - 1]);
      assert (a + b)[..|a + b| - 1] == a + b[..|b| - 1];
    }
  }

  lemma TakenOut(b: seq<real>, i: nat) returns (rest: seq<real>)
    requires i < |b|
    ensures multiset(rest) == multiset(b) - multiset{b[i]} && Total(b) == Total(rest) + b[i]
  {
    rest := Sorting.Without(b, i, (r: real) => 0);
    var tail := [b[i]] + b[i + 1..];
    assert b == b[..i] + tail;
    TotalAppend(b[..i], tail);
    TotalAppend([b[i]], b[i + 1..]);
    TotalAppend(b[..i], b[i + 1..]);
    assert Total([b[i]]) == Total([]) + b[i];
  }

  lemma InitCount(s: seq<real>) returns (last: real)
    requires s != []
    ensures last == s[|s| - 1] && last in multiset(s)
    ensures multiset(s[..|s| - 1]) == multiset(s) - multiset{last}
    ensures Total(s) == Total(s[..|s| - 1]) + last
  {
    last := s[|s| - 1];
    assert s == s[..|s| - 1] + [last];
  }

  lemma {:induction false} TotalPermuted(a: seq<real>, b: seq<real>)
    requires multiset(a) == multiset(b)
    ensures Total(a) == Total(b)
  {
    assert |a| == |multiset(a)| == |multiset(b)| == |b|;
    if a != [] {
      var x := InitCount(a);
      assert x in multiset(b);
      var i :| 0 <= i < |b| && b[i] == x;
      var rest := TakenOut(b, i);
      TotalPermuted(a[..|a| - 1], rest);
    }
  }

  /** No statistic depends on the order of the values. */
  lemma StatisticsForgetOrder(a: seq<real>, b: seq<real>, mode: Mode)
    requires multiset(a) == multiset(b)
    ensures Summarize(a, mode) == Summarize(b, mode)
  {
    assert |a| == |multiset(a)| == |multiset(b)| == |b|;
    if a != [] {
      OrderIsTotal();
      Sorting.SortForgetsOrder(a, b, AtMost);
      TotalPermuted(a, b);
      LargestForgetsOrder(a, b);
    }
  }

  lemma LargestForgetsOrder(a: seq<real>, b: seq<real>)
    requires multiset(a) == multiset(b) && a != [] && b != []
    ensures Largest(a) == Largest(b)
  {
    assert Largest(a) in multiset(b) && Largest(b) in multiset(a);
  }

  lemma {:induction false} TotalBounded(values: seq<real>, low: real, high: real)
    requires forall i :: 0 <= i < |values| ==> low <= values[i] <= high
    ensures |values| as real * low <= Total(values) <= |values| as real * high
  {
    if values != [] {
      TotalBounded(values[..|values| - 1], low, high);
      assert |values| as real * low == (|values| - 1) as real * low + low;
      assert |values| as real * high == (|values| - 1) as real * high + high;
    }
  }

  /** The average lies between any bounds of the values. */
  lemma AverageBetween(values: seq<real>, low: real, high: real)
    requires values != [] && forall i :: 0 <= i < |values| ==> low <= values[i] <= high
    ensures low <= Summarize(values, Avg).value <= high
  {
    TotalBounded(values, low, high);
    var n, t := |values| as real, Total(values);
    var q := t / n;
    assert q * n == t;
    if q < low {
      Scaled(n, q, low);
      assert n * q < n * low;
    }
    if q > high {
      assert n * q > n * high;
    }
  }

  /** Between two neighbouring ranks, both ends included, the value moves evenly from
      the one to the other. */
  lemma MovesEvenly(sorted: seq<real>, i: nat, t: real)
    requires i + 1 < |sorted| && 0.0 <= t <= 1.0
    ensures Interpolate(sorted, i as real + t) == (1.0 - t) * sorted[i] + t * sorted[i + 1]
  {
    var rank := i as real + t;
    RankInside(|sorted|, rank);
    var a, b := sorted[i], sorted[i + 1];
    if t == 1.0 {
      assert rank.Floor == i + 1 && Ceil(rank) == i + 1;
    } else {
      assert rank.Floor == i && rank - i as real == t;
      assert t == 0.0 || Ceil(rank) == i + 1;
      assert Along(a, b, t) == a + b * t - a * t;
      assert (1.0 - t) * a == a - a * t;
    }
  }

  lemma WholeRank(values: seq<real>, q: real, r: nat)
    requires 0.0 <= q <= 1.0 && r < |values| && RankAt(q, |values|) == r as real
    ensures Interpolate(Sorting.Sort(values, AtMost), RankAt(q, |values|)) == Sorting.Sort(values, AtMost)[r]
  {
    OrderIsTotal();
    Sorting.SortCorrect(values, AtMost);
    Between(Sorting.Sort(values, AtMost), r as real);
  }

  /** Among 20 k + 1 values the percentiles are the values of rank 17 k, 18 k and 19 k. */
  lemma WholeRanks(values: seq<real>, k: nat)
    requires |values| == 20 * k + 1
    ensures var sorted := Sorting.Sort(values, AtMost);
            && Summarize(values, P85) == Some(sorted[17 * k])
            && Summarize(values, P90) == Some(sorted[18 * k])
            && Summarize(values, P95) == Some(sorted[19 * k])
  {
    assert (20 * k) as real == 20.0 * k as real;
    assert 0.85 * (20.0 * k as real) == (17 * k) as real;
    assert 0.9 * (20.0 * k as real) == (18 * k) as real;
    assert 0.95 * (20.0 * k as real) == (19 * k) as real;
    WholeRank(values, 0.85, 17 * k);
    WholeRank(values, 0.9, 18 * k);
    WholeRank(values, 0.95, 19 * k);
  }

  /** The average of a joined list is the weighted average of its parts. */
  lemma AveragesCombine(a: seq<real>, b: seq<real>)
    requires a != [] && b != []
    ensures Summarize(a + b, Avg).value * |a + b| as real ==
            Summarize(a, Avg).value * |a| as real + Summarize(b, Avg).value * |b| as real
  {
    TotalAppend(a, b);
    TimesCount(Total(a), |a|);
    TimesCount(Total(b), |b|);
    TimesCount(Total(a + b), |a + b|);
  }

  lemma TimesCount(t: real, n: nat)
    requires n > 0
    ensures t / n as real * n as real == t
  {
  }
}
