/** Metric batches whose transactions overlap, any number of them: their rows lie in
    the table in some interleaved order, while the view takes the batches one after
    the other in the order their transactions got hold of its row. */
module OverlappingCommits {
  import opened Wrappers
  import opened Text
  import opened Rfc3339
  import opened WorkloadLatest
  import Sorting

  /** m holds the rows of a and of b, each in its own order. */
  ghost predicate Shuffle(a: seq<Point>, b: seq<Point>, m: seq<Point>)
    decreases |m|
  {
    if m == [] then a == [] && b == []
    else
      || (a != [] && a[|a| - 1] == m[|m| - 1] && Shuffle(a[..|a| - 1], b, m[..|m| - 1]))
      || (b != [] && b[|b| - 1] == m[|m| - 1] && Shuffle(a, b[..|b| - 1], m[..|m| - 1]))
  }

  /** Both batches bring a different point of the key with one and the same stamp,
      and none of theirs is newer. */
  predicate Tied(a: seq<Point>, b: seq<Point>, k: Key) {
    var x, y := Newest(a, k, ""), Newest(b, k, "");
    x.Some? && y.Some? && x != y && Stamp(x.value.ts) == Stamp(y.value.ts)
  }

  /** One more row of the first batch at the end. */
  lemma PreferLater(before: Option<Point>, row: Option<Point>, other: Option<Point>)
    ensures var whole := Prefer(before, row);
            && Prefer(Prefer(other, before), row) == Prefer(other, whole)
            && Prefer(Prefer(before, other), row) in {Prefer(other, whole), Prefer(whole, other)}
  {
    PreferAssociative(other, before, row);
    PreferAssociative(before, other, row);
    hide Stamp;
    if before.Some? && row.Some? && other.Some? {
      OrderFacts(Stamp(before.value.ts), Stamp(row.value.ts), Stamp(other.value.ts));
      OrderFacts(Stamp(row.value.ts), Stamp(other.value.ts), Stamp(before.value.ts));
      OrderFacts(Stamp(other.value.ts), Stamp(before.value.ts), Stamp(row.value.ts));
      OrderFacts(Stamp(before.value.ts), Stamp(other.value.ts), Stamp(row.value.ts));
    }
  }

  /** The scan of an interleaving answers as one batch after the other would, in one
      order or the other. */
  lemma {:induction false} ShuffleNewest(a: seq<Point>, b: seq<Point>, m: seq<Point>, k: Key, since: string)
    requires Shuffle(a, b, m)
    ensures var x, y := Newest(a, k, since), Newest(b, k, since);
            Newest(m, k, since) in {Prefer(x, y), Prefer(y, x)}
    decreases |m|
  {
    hide Stamp, Prefer, Match;
    if m == [] {
      NothingNewest(k, since);
    } else {
      var n, row := m[..|m| - 1], Match(m[|m| - 1], k, since);
      if a != [] && a[|a| - 1] == m[|m| - 1] && Shuffle(a[..|a| - 1], b, n) {
        ShuffleNewest(a[..|a| - 1], b, n, k, since);
        PreferLater(Newest(a[..|a| - 1], k, since), row, Newest(b, k, since));
      } else {
        ShuffleNewest(a, b[..|b| - 1], n, k, since);
        PreferLater(Newest(b[..|b| - 1], k, since), row, Newest(a, k, since));
      }
    }
  }

  lemma NothingNewest(k: Key, since: string)
    ensures Newest([], k, since) == None && Prefer(None, None) == None
  {
  }

  lemma {:induction false} OneAfterTheOther(a: seq<Point>, b: seq<Point>)
    ensures Shuffle(a, b, a + b)
    decreases |a| + |b|
  {
    var m := a + b;
    if b != [] {
      OneAfterTheOther(a, b[..|b| - 1]);
      assert m[..|m| - 1] == a + b[..|b| - 1];
    } else if a != [] {
      OneAfterTheOther(a[..|a| - 1], b);
      assert m[..|m| - 1] == a[..|a| - 1] + b;
    }
  }

  lemma {:induction false} ShuffleIsSymmetric(a: seq<Point>, b: seq<Point>, m: seq<Point>)
    requires Shuffle(a, b, m)
    ensures Shuffle(b, a, m)
    decreases |m|
  {
    if m != [] {
      var n := m[..|m| - 1];
      if a != [] && a[|a| - 1] == m[|m| - 1] && Shuffle(a[..|a| - 1], b, n) {
        ShuffleIsSymmetric(a[..|a| - 1], b, n);
      } else {
        ShuffleIsSymmetric(a, b[..|b| - 1], n);
      }
    }
  }

  // ---- any table with the same rows, whatever their order ----

  /** A row that the scan for a key looks at. */
  predicate Looked(p: Point, k: Key, since: string) {
    Tracked(p) && KeyOf(p) == k && AtMost(since, Stamp(p.ts))
  }

  /** Two tables hold the same rows of a key in the window, in whatever order. */
  ghost predicate SameRows(a: seq<Point>, b: seq<Point>, k: Key, since: string) {
    forall p :: Looked(p, k, since) ==> (p in a <==> p in b)
  }

  ghost predicate IsTop(ps: seq<Point>, k: Key, since: string, p: Point) {
    p in ps && Looked(p, k, since) && forall q :: q in ps && Looked(q, k, since) ==> AtMost(Stamp(q.ts), Stamp(p.ts))
  }

  /** The rows of a key that share its greatest stamp are all the same. */
  ghost predicate TopsAgree(ps: seq<Point>, k: Key, since: string) {
    forall p, q :: IsTop(ps, k, since, p) && IsTop(ps, k, since, q) ==> p == q
  }

  lemma NewestIsTop(ps: seq<Point>, k: Key, since: string)
    ensures Newest(ps, k, since).Some? ==> IsTop(ps, k, since, Newest(ps, k, since).value)
    ensures Newest(ps, k, since).None? ==> forall p :: p in ps ==> !Looked(p, k, since)
  {
    NewestIsMaximum(ps, k, since);
    hide Newest, Stamp;
    forall p | p in ps && Looked(p, k, since)
      ensures Newest(ps, k, since).Some? && AtMost(Stamp(p.ts), Stamp(Newest(ps, k, since).value.ts))
    {
      var i :| 0 <= i < |ps| && ps[i] == p;
    }
  }

  lemma SameRowsSameNewest(a: seq<Point>, b: seq<Point>, k: Key, since: string)
    requires SameRows(a, b, k, since) && TopsAgree(b, k, since)
    ensures Newest(a, k, since) == Newest(b, k, since)
  {
    NewestIsTop(a, k, since);
    NewestIsTop(b, k, since);
    hide Newest, Stamp;
    if Newest(a, k, since).Some? {
      assert IsTop(b, k, since, Newest(a, k, since).value);
    }
  }

  /** On any faithful history the view agrees with a scan of any table that holds the
      rows of the window, whichever order overlapping transactions gave them and
      whatever purges before the window took away, unless the top rows of a key differ. */
  lemma AnyOrderAgrees(events: seq<Event>, m: seq<Point>, k: Key, since: string)
    requires FaithfulHistory(events) && CutoffsBefore(events, since)
    requires SameRows(m, Ever(events), k, since) && TopsAgree(Ever(events), k, since)
    ensures Visible(Run(events).latest, k, since) == Newest(m, k, since)
  {
    BothSidesSeeEver(events, k, since);
    SameRowsSameNewest(m, Ever(events), k, since);
  }

  lemma LastRow(rest: seq<Point>, p: Point, k: Key, since: string)
    ensures Newest(rest + [p], k, since) == Prefer(Newest(rest, k, since), Match(p, k, since))
  {
    assert (rest + [p])[..|rest|] == rest;
  }

  lemma MovedLast(ps: seq<Point>, k: Key, since: string, p: Point) returns (m: seq<Point>)
    requires IsTop(ps, k, since, p)
    ensures multiset(m) == multiset(ps) && Newest(m, k, since) == Some(p)
  {
    var i :| 0 <= i < |ps| && ps[i] == p;
    var rest := Sorting.Without(ps, i, (q: Point) => 0);
    m := rest + [p];
    LastRow(rest, p, k, since);
    hide Stamp, Newest;
    NewestIsTop(rest, k, since);
    var x := Newest(rest, k, since);
    assert x.Some? ==> x.value in multiset(rest);
    assert x.Some? ==> x.value in multiset(ps);
  }

  /** Every order of the rows agrees with the view if and only if the top rows of the
      key are all the same. */
  lemma AnyOrderExactly(events: seq<Event>, k: Key, since: string)
    requires FaithfulHistory(events) && CutoffsBefore(events, since)
    ensures (forall m :: multiset(m) == multiset(Ever(events)) ==> Visible(Run(events).latest, k, since) == Newest(m, k, since))
            <==> TopsAgree(Ever(events), k, since)
  {
    var ever := Ever(events);
    if TopsAgree(ever, k, since) {
      forall m | multiset(m) == multiset(ever) ensures Visible(Run(events).latest, k, since) == Newest(m, k, since) {
        forall p ensures p in m <==> p in ever {
          assert p in m <==> p in multiset(m);
          assert p in ever <==> p in multiset(ever);
        }
        AnyOrderAgrees(events, m, k, since);
      }
    }
    if p, q :| IsTop(ever, k, since, p) && IsTop(ever, k, since, q) && p != q {
      var a := MovedLast(ever, k, since, p);
      var b := MovedLast(ever, k, since, q);
      assert Newest(a, k, since) != Newest(b, k, since);
    }
  }

  // ---- batches that keep their own order ----

  /** m holds the rows of all batches, each batch in its own order. */
  ghost predicate ShuffleOf(bs: seq<seq<Point>>, m: seq<Point>)
    decreases |bs|, 0
  {
    if bs == [] then m == [] else ShuffledIn(bs[..|bs| - 1], bs[|bs| - 1], m)
  }

  ghost predicate ShuffledIn(bs: seq<seq<Point>>, b: seq<Point>, m: seq<Point>)
    decreases |bs|, 1
  {
    exists rest :: ShuffleOf(bs, rest) && Shuffle(rest, b, m)
  }

  function Winner(bs: seq<seq<Point>>, i: nat, k: Key): Option<Point> {
    if i < |bs| then Newest(bs[i], k, "") else None
  }

  /** The batch brings a point of the key that none of the others beats. */
  ghost predicate IsTopBatch(bs: seq<seq<Point>>, i: nat, k: Key) {
    Beats(Winner(bs, i, k), bs, k)
  }

  ghost predicate Beats(w: Option<Point>, bs: seq<seq<Point>>, k: Key) {
    w.Some? && forall j :: 0 <= j < |bs| && Winner(bs, j, k).Some? ==>
      AtMost(Stamp(Winner(bs, j, k).value.ts), Stamp(w.value.ts))
  }

  /** No two batches bring different newest points with one stamp. */
  ghost predicate NoTie(bs: seq<seq<Point>>, k: Key) {
    forall i: nat, j: nat :: IsTopBatch(bs, i, k) && IsTopBatch(bs, j, k) ==> Winner(bs, i, k) == Winner(bs, j, k)
  }

  ghost predicate IsAnswer(x: Option<Point>, bs: seq<seq<Point>>, k: Key) {
    if x.None? then forall j :: 0 <= j < |bs| ==> Winner(bs, j, k).None?
    else Beats(x, bs, k) && exists i: nat :: i < |bs| && Winner(bs, i, k) == x
  }

  lemma OneMoreBatch(bs: seq<seq<Point>>, b: seq<Point>, x: Option<Point>, y: Option<Point>, k: Key)
    requires IsAnswer(x, bs, k) && y in {Prefer(x, Newest(b, k, "")), Prefer(Newest(b, k, ""), x)}
    ensures IsAnswer(y, bs + [b], k)
  {
    hide Stamp, Newest;
    var more, w := bs + [b], Newest(b, k, "");
    assert Winner(more, |bs|, k) == w && forall j :: 0 <= j < |bs| ==> Winner(more, j, k) == Winner(bs, j, k);
    if x.Some? && w.Some? {
      OrderFacts(Stamp(x.value.ts), Stamp(w.value.ts), "");
    }
    if y.Some? {
      OrderFacts(Stamp(y.value.ts), Stamp(y.value.ts), "");
      forall j | 0 <= j < |more| && Winner(more, j, k).Some?
        ensures AtMost(Stamp(Winner(more, j, k).value.ts), Stamp(y.value.ts))
      {
        if j < |bs| {
          OrderFacts(Stamp(Winner(bs, j, k).value.ts), Stamp(x.value.ts), Stamp(y.value.ts));
        }
      }
      if y == x {
        var i: nat :| i < |bs| && Winner(bs, i, k) == x;
        assert Winner(more, i, k) == y;
      }
    }
  }

  /** A scan of the interleaved rows finds the newest point of some batch, one that no
      batch beats. */
  lemma {:induction false} ShuffleFindsTop(bs: seq<seq<Point>>, m: seq<Point>, k: Key)
    requires ShuffleOf(bs, m)
    ensures IsAnswer(Newest(m, k, ""), bs, k)
  {
    hide Stamp, Prefer, Shuffle, IsAnswer;
    if bs == [] {
      assert IsAnswer(None, [], k) by { NoBatches(k); }
      NothingNewest(k, "");
    } else {
      var init, b := bs[..|bs| - 1], bs[|bs| - 1];
      var rest :| ShuffleOf(init, rest) && Shuffle(rest, b, m);
      ShuffleFindsTop(init, rest, k);
      ShuffleNewest(rest, b, m, k, "");
      OneMoreBatch(init, b, Newest(rest, k, ""), Newest(m, k, ""), k);
      assert bs == init + [b];
    }
  }

  lemma NoBatches(k: Key)
    ensures IsAnswer(None, [], k)
  {
  }

  lemma AnswersAreTops(x: Option<Point>, bs: seq<seq<Point>>, k: Key)
    requires IsAnswer(x, bs, k)
    ensures x.Some? ==> exists i: nat :: IsTopBatch(bs, i, k) && Winner(bs, i, k) == x
    ensures x.None? ==> forall i: nat :: !IsTopBatch(bs, i, k)
  {
    if x.Some? {
      var i: nat :| i < |bs| && Winner(bs, i, k) == x;
      assert IsTopBatch(bs, i, k);
    }
  }

  /** Without a tie there is one answer. */
  lemma OneAnswer(x: Option<Point>, y: Option<Point>, bs: seq<seq<Point>>, k: Key)
    requires IsAnswer(x, bs, k) && IsAnswer(y, bs, k) && NoTie(bs, k)
    ensures x == y
  {
    AnswersAreTops(x, bs, k);
    AnswersAreTops(y, bs, k);
  }

  /** The batches as commits, one after the other. */
  function Commits(bs: seq<seq<Point>>): seq<Event> {
    seq(|bs|, i requires 0 <= i < |bs| => Commit(bs[i]))
  }

  function Flat(bs: seq<seq<Point>>): seq<Point> {
    if bs == [] then [] else Flat(bs[..|bs| - 1]) + bs[|bs| - 1]
  }

  lemma {:induction false} FlatIsShuffle(bs: seq<seq<Point>>)
    ensures ShuffleOf(bs, Flat(bs))
  {
    if bs != [] {
      FlatIsShuffle(bs[..|bs| - 1]);
      OneAfterTheOther(Flat(bs[..|bs| - 1]), bs[|bs| - 1]);
    }
  }

  lemma {:induction false} CommitsFlat(events: seq<Event>, bs: seq<seq<Point>>)
    ensures Run(events + Commits(bs)).points == Run(events).points + Flat(bs)
  {
    hide Run, Flat, Commits;
    if bs == [] {
      NoCommits(events);
    } else {
      var init, b := bs[..|bs| - 1], bs[|bs| - 1];
      assert bs == init + [b];
      CommitsFlat(events, init);
      CommitsSnoc(events, init, b);
      FlatSnoc(init, b);
      OneCommitMore(events + Commits(init), b);
      var base := Run(events).points;
      assert (base + Flat(init)) + b == base + (Flat(init) + b);
    }
  }

  lemma NoCommits(events: seq<Event>)
    ensures Run(events + Commits([])).points == Run(events).points + Flat([])
  {
    assert events + Commits([]) == events;
  }

  lemma FlatSnoc(bs: seq<seq<Point>>, b: seq<Point>)
    ensures Flat(bs + [b]) == Flat(bs) + b
  {
    assert (bs + [b])[..|bs|] == bs;
  }

  lemma CommitsSnoc(events: seq<Event>, bs: seq<seq<Point>>, b: seq<Point>)
    ensures events + Commits(bs + [b]) == (events + Commits(bs)) + [Commit(b)]
  {
    assert Commits(bs + [b]) == Commits(bs) + [Commit(b)];
  }

  lemma OneCommitMore(events: seq<Event>, b: seq<Point>)
    ensures Run(events + [Commit(b)]).points == Run(events).points + b
  {
    hide Merge, BatchLatest;
    assert (events + [Commit(b)])[..|events|] == events;
  }

  /** The order of the batches does not matter for what their answers are. */
  lemma AnswersPermuted(x: Option<Point>, order: seq<seq<Point>>, bs: seq<seq<Point>>, k: Key)
    requires IsAnswer(x, order, k) && multiset(order) == multiset(bs)
    ensures IsAnswer(x, bs, k)
  {
    hide Newest, Stamp;
    forall j: nat | j < |bs| ensures exists i: nat :: i < |order| && Winner(order, i, k) == Winner(bs, j, k) {
      assert bs[j] in multiset(order);
      var i: nat :| i < |order| && order[i] == bs[j];
      assert Winner(order, i, k) == Winner(bs, j, k);
    }
    if x.Some? {
      var i: nat :| i < |order| && Winner(order, i, k) == x;
      assert order[i] in multiset(bs);
      var j: nat :| j < |bs| && bs[j] == order[i];
      assert Winner(bs, j, k) == x;
    }
  }

  lemma FaithfulCommits(events: seq<Event>, bs: seq<seq<Point>>, order: seq<seq<Point>>, since: string)
    requires FaithfulHistory(events) && CutoffsBefore(events, since) && multiset(order) == multiset(bs)
    requires forall i :: 0 <= i < |bs| ==> Faithful(bs[i])
    ensures FaithfulHistory(events + Commits(order)) && CutoffsBefore(events + Commits(order), since)
  {
    hide Faithful;
    var all := events + Commits(order);
    forall e | e in all ensures e in events || (e.Commit? && Faithful(e.batch)) {
      if e !in events {
        var i :| 0 <= i < |order| && Commits(order)[i] == e;
        assert order[i] in multiset(bs);
      }
    }
  }

  /** Any number of batches on top of a faithful history: whatever order their rows
      have in the table and whatever order they reach the view in, scan and view
      agree on a key unless two of them tie on it. */
  lemma OverlappingCommitsAgree(events: seq<Event>, bs: seq<seq<Point>>, order: seq<seq<Point>>, m: seq<Point>, k: Key, since: string)
    requires FaithfulHistory(events) && CutoffsBefore(events, since)
    requires forall i :: 0 <= i < |bs| ==> Faithful(bs[i])
    requires multiset(order) == multiset(bs) && ShuffleOf(bs, m) && NoTie(bs, k)
    ensures Visible(Run(events + Commits(order)).latest, k, since) == Newest(Run(events).points + m, k, since)
  {
    FaithfulCommits(events, bs, order, since);
    ViewAnswersLikeScan(events + Commits(order), since);
    CommitsFlat(events, order);
    FlatIsShuffle(order);
    hide Stamp, Newest, Prefer, Run, Shuffle, ShuffleOf, IsAnswer, NoTie, Visible;
    ShuffleFindsTop(order, Flat(order), k);
    AnswersPermuted(Newest(Flat(order), k, ""), order, bs, k);
    ShuffleFindsTop(bs, m, k);
    OneAnswer(Newest(m, k, ""), Newest(Flat(order), k, ""), bs, k);
    NewestSince(m, k, since);
    NewestSince(Flat(order), k, since);
    NewestAppend(Run(events).points, m, k, since);
    NewestAppend(Run(events).points, Flat(order), k, since);
  }

  lemma {:induction false} SlideIn(front: seq<Point>, b: seq<Point>, last: seq<Point>)
    ensures Shuffle(front + last, b, front + b + last)
    decreases |last|
  {
    var a, m := front + last, front + b + last;
    if last == [] {
      assert a == front && m == front + b;
      OneAfterTheOther(front, b);
    } else {
      var init := last[..|last| - 1];
      SlideIn(front, b, init);
      assert a[..|a| - 1] == front + init && m[..|m| - 1] == front + b + init;
    }
  }

  /** Every batch can have its rows after those of all others. */
  lemma {:induction false} AnyoneLast(bs: seq<seq<Point>>, i: nat) returns (front: seq<Point>)
    requires i < |bs|
    ensures ShuffleOf(bs, front + bs[i])
  {
    var init, b := bs[..|bs| - 1], bs[|bs| - 1];
    if i == |bs| - 1 {
      front := Flat(init);
      FlatIsShuffle(init);
      OneAfterTheOther(front, b);
    } else {
      var before := AnyoneLast(init, i);
      SlideIn(before, b, bs[i]);
      front := before + b;
      assert ShuffleOf(init, before + init[i]) && init[i] == bs[i];
    }
  }

  lemma LastTopWins(bs: seq<seq<Point>>, i: nat, k: Key) returns (m: seq<Point>)
    requires IsTopBatch(bs, i, k) && i < |bs|
    ensures ShuffleOf(bs, m) && Newest(m, k, "") == Winner(bs, i, k)
  {
    var front := AnyoneLast(bs, i);
    m := front + bs[i];
    ShuffleFindsTop(bs, m, k);
    NewestAppend(front, bs[i], k, "");
    hide Stamp, Newest, ShuffleOf;
    var x, w := Newest(front, k, ""), Winner(bs, i, k);
    AnswersAreTops(Newest(m, k, ""), bs, k);
    if x.Some? {
      OrderFacts(Stamp(x.value.ts), Stamp(w.value.ts), "");
    }
  }

  ghost predicate Agrees(bs: seq<seq<Point>>, order: seq<seq<Point>>, m: seq<Point>, k: Key) {
    multiset(order) == multiset(bs) && ShuffleOf(bs, m) ==> Visible(Run(Commits(order)).latest, k, "") == Newest(m, k, "")
  }

  /** From empty tables every interleaving of any number of batches, and every order
      in which they reach the view, agrees for a key if and only if no two tie on it. */
  lemma OverlapExactly(bs: seq<seq<Point>>, k: Key)
    requires forall i :: 0 <= i < |bs| ==> Faithful(bs[i])
    ensures (forall order, m :: Agrees(bs, order, m, k)) <==> NoTie(bs, k)
  {
    hide Stamp, Newest, Prefer, Run, Shuffle, ShuffleOf, Visible, Faithful, IsTopBatch;
    if NoTie(bs, k) {
      forall order, m ensures Agrees(bs, order, m, k) {
        if multiset(order) == multiset(bs) && ShuffleOf(bs, m) {
          OverlappingCommitsAgree([], bs, order, m, k, "");
          EmptyStart(order, m);
        }
      }
    }
    if i: nat, j: nat :| IsTopBatch(bs, i, k) && IsTopBatch(bs, j, k) && Winner(bs, i, k) != Winner(bs, j, k) {
      assert i < |bs| && j < |bs| by { TopIsInside(bs, i, k); TopIsInside(bs, j, k); }
      var a := LastTopWins(bs, i, k);
      var b := LastTopWins(bs, j, k);
      assert !(Agrees(bs, bs, a, k) && Agrees(bs, bs, b, k));
    }
  }

  lemma TopIsInside(bs: seq<seq<Point>>, i: nat, k: Key)
    ensures IsTopBatch(bs, i, k) ==> i < |bs|
  {
  }

  lemma EmptyStart(order: seq<seq<Point>>, m: seq<Point>)
    ensures [] + Commits(order) == Commits(order) && Run([]).points + m == m
  {
    assert [] + m == m;
  }

  /** Of two batches: the condition is that they do not tie. */
  lemma TwoBatches(a: seq<Point>, b: seq<Point>, k: Key)
    ensures NoTie([a, b], k) <==> !Tied(a, b, k)
  {
    hide Stamp, Newest;
    var bs := [a, b];
    var x, y := Winner(bs, 0, k), Winner(bs, 1, k);
    if x.Some? {
      OrderFacts(Stamp(x.value.ts), Stamp(x.value.ts), "");
    }
    if y.Some? {
      OrderFacts(Stamp(y.value.ts), Stamp(y.value.ts), "");
    }
    if x.Some? && y.Some? {
      OrderFacts(Stamp(x.value.ts), Stamp(y.value.ts), "");
    }
    if Tied(a, b, k) {
      assert IsTopBatch(bs, 0, k) && IsTopBatch(bs, 1, k);
    }
  }
}
