/** Transactions that keep no common lock order: when any number of them can
    deadlock, told from their lock lists alone. */
module Deadlocks {
  import opened Text
  import opened WorkloadLatest
  import opened MetricStore
  import opened IngestStore
  import opened LockOrder
  import Sorting

  ghost predicate Disjoint(a: seq<Lock>, b: seq<Lock>) {
    forall l :: l in a ==> l !in b
  }

  /** All transactions before their first lock. */
  function Started(lists: seq<seq<Lock>>): System {
    System(seq(|lists|, i requires 0 <= i < |lists| => Tx(lists[i], 0, false)), {})
  }

  ghost predicate LeadsTo(states: seq<System>, from: System, to: System) {
    Schedule(states) && states[0] == from && states[|states| - 1] == to
  }

  ghost predicate CanReach(from: System, to: System) {
    exists states :: LeadsTo(states, from, to)
  }

  /** Some schedule ends where somebody has not ended and nobody can advance. */
  ghost predicate CanGetStuck(lists: seq<seq<Lock>>) {
    exists last :: CanReach(Started(lists), last) && Stuck(last)
  }

  function Next(t: nat, n: nat): nat {
    if t + 1 == n then 0 else t + 1
  }

  /** Transactions that wait for each other in a circle. */
  ghost predicate InCircle(s: System, ring: seq<nat>)
    requires WellFormed(s)
  {
    && |ring| >= 2 && Sorting.NoDuplicates(ring)
    && forall t :: 0 <= t < |ring| ==> WaitsFor(s, ring[t], ring[Next(t, |ring|)])
  }

  ghost predicate CanWaitInCircle(lists: seq<seq<Lock>>) {
    exists last, ring :: CanReach(Started(lists), last) && WellFormed(last) && InCircle(last, ring)
  }

  /** Lists in a ring with a position in each: the beginnings up to the positions
      share nothing, and each list goes on with something in the next one's beginning. */
  ghost predicate RingAt(lists: seq<seq<Lock>>, ring: seq<nat>, p: seq<nat>) {
    && |ring| >= 2 && |p| == |ring| && Sorting.NoDuplicates(ring)
    && (forall t :: 0 <= t < |ring| ==> ring[t] < |lists| && p[t] < |lists[ring[t]]|)
    && (forall t, u :: 0 <= t < u < |ring| && Inside(lists, ring, p, t) && Inside(lists, ring, p, u) ==>
          Disjoint(lists[ring[t]][..p[t]], lists[ring[u]][..p[u]]))
    && (forall t :: 0 <= t < |ring| && Inside(lists, ring, p, t) && Inside(lists, ring, p, Next(t, |ring|)) ==>
          lists[ring[t]][p[t]] in lists[ring[Next(t, |ring|)]][..p[Next(t, |ring|)]])
  }

  predicate Inside(lists: seq<seq<Lock>>, ring: seq<nat>, p: seq<nat>, t: nat) {
    t < |ring| && t < |p| && ring[t] < |lists| && p[t] < |lists[ring[t]]|
  }

  ghost predicate HasRing(lists: seq<seq<Lock>>) {
    exists ring, p :: RingAt(lists, ring, p)
  }

  // ---- reachable states hold beginnings that share nothing ----

  ghost predicate HeldApart(s: System, lists: seq<seq<Lock>>) {
    && |s.txs| == |lists| && WellFormed(s)
    && (forall i :: 0 <= i < |lists| ==> s.txs[i].locks == lists[i])
    && (forall i, j :: 0 <= i < |lists| && 0 <= j < |lists| && i != j ==> Apart(s.txs[i], s.txs[j]))
  }

  ghost predicate Apart(a: Tx, b: Tx)
    requires a.held <= |a.locks| && b.held <= |b.locks|
  {
    !a.ended && !b.ended ==> Disjoint(a.locks[..a.held], b.locks[..b.held])
  }

  lemma HoldingBlocks(s: System, i: nat, j: nat, l: Lock)
    requires WellFormed(s) && i < |s.txs| && j < |s.txs| && i != j
    ensures Wants(s.txs[i], l) && Holds(s.txs[j], l) ==> WaitsFor(s, i, j) && Blocked(s, i)
  {
    if Wants(s.txs[i], l) && Holds(s.txs[j], l) {
      assert WaitsFor(s, i, j);
    }
  }

  /** Taking a lock that the other does not hold keeps the two apart. */
  lemma TakesApart(t: Tx, other: Tx)
    requires t.held < |t.locks| && other.held <= |other.locks| && !t.ended
    requires Apart(t, other) && !Holds(other, t.locks[t.held])
    ensures Apart(t.(held := t.held + 1), other) && Apart(other, t.(held := t.held + 1))
  {
    assert t.locks[..t.held + 1] == t.locks[..t.held] + [t.locks[t.held]];
  }

  lemma MovesKeepApart(s: System, s': System, lists: seq<seq<Lock>>)
    requires HeldApart(s, lists) && Moves(s, s')
    ensures HeldApart(s', lists)
  {
    var i: nat :| Step(s, i, s');
    var t, t' := s.txs[i], s'.txs[i];
    assert s'.txs == s.txs[i := t'];
    forall j | 0 <= j < |lists| && j != i ensures Apart(s'.txs[i], s'.txs[j]) && Apart(s'.txs[j], s'.txs[i]) {
      assert Apart(s.txs[i], s.txs[j]) && Apart(s.txs[j], s.txs[i]);
      if !t'.ended {
        HoldingBlocks(s, i, j, t.locks[t.held]);
        TakesApart(t, s.txs[j]);
      }
    }
    forall j, k | 0 <= j < |lists| && 0 <= k < |lists| && j != k ensures Apart(s'.txs[j], s'.txs[k]) {
      if j != i && k != i {
        assert Apart(s.txs[j], s.txs[k]);
      }
    }
  }

  lemma {:induction false} ScheduleKeepsApart(states: seq<System>, lists: seq<seq<Lock>>)
    requires Schedule(states) && HeldApart(states[0], lists)
    ensures HeldApart(states[|states| - 1], lists)
  {
    if |states| > 1 {
      var init := states[..|states| - 1];
      forall n | 0 <= n < |init| - 1 ensures Moves(init[n], init[n + 1]) {
        assert init[n] == states[n] && init[n + 1] == states[n + 1];
      }
      ScheduleKeepsApart(init, lists);
      assert Moves(states[|states| - 2], states[|states| - 1]);
      MovesKeepApart(states[|states| - 2], states[|states| - 1], lists);
    }
  }

  lemma ReachedApart(lists: seq<seq<Lock>>, s: System)
    requires CanReach(Started(lists), s)
    ensures HeldApart(s, lists)
  {
    var states :| LeadsTo(states, Started(lists), s);
    ScheduleKeepsApart(states, lists);
  }

  /** A circle of waiting transactions shows a ring in their lists. */
  lemma CircleIsRing(s: System, lists: seq<seq<Lock>>, ring: seq<nat>)
    requires HeldApart(s, lists) && InCircle(s, ring)
    ensures HasRing(lists)
  {
    var n := |ring|;
    forall t | 0 <= t < n ensures ring[t] < |lists| && s.txs[ring[t]].held < |lists[ring[t]]| && !s.txs[ring[t]].ended {
      assert WaitsFor(s, ring[t], ring[Next(t, n)]);
    }
    var p := seq(n, t requires 0 <= t < n => s.txs[ring[t]].held);
    forall t, u | 0 <= t < u < n ensures Disjoint(lists[ring[t]][..p[t]], lists[ring[u]][..p[u]]) {
      assert Apart(s.txs[ring[t]], s.txs[ring[u]]);
    }
    forall t | 0 <= t < n ensures lists[ring[t]][p[t]] in lists[ring[Next(t, n)]][..p[Next(t, n)]] {
      assert WaitsFor(s, ring[t], ring[Next(t, n)]);
    }
    assert RingAt(lists, ring, p);
  }

  // ---- a ring can be reached ----

  lemma OneMore(from: System, mid: System, to: System)
    requires CanReach(from, mid) && Moves(mid, to)
    ensures CanReach(from, to)
  {
    var states :| LeadsTo(states, from, mid);
    var more := states + [to];
    forall n | 0 <= n < |more| - 1 ensures Moves(more[n], more[n + 1]) {
      if n < |states| - 1 {
        assert Moves(states[n], states[n + 1]);
      }
    }
    assert LeadsTo(more, from, to);
  }

  /** All lists, the first n held up to their positions, the n-th up to m. */
  function HeldUpTo(lists: seq<seq<Lock>>, pos: seq<nat>, n: nat, m: nat): System
    requires |pos| == |lists|
  {
    System(seq(|lists|, i requires 0 <= i < |lists| => Tx(lists[i], if i < n then pos[i] else if i == n then m else 0, false)), {})
  }

  ghost predicate ApartAt(lists: seq<seq<Lock>>, pos: seq<nat>) {
    && |pos| == |lists| && (forall i :: 0 <= i < |lists| ==> pos[i] <= |lists[i]|)
    && forall i, j :: 0 <= i < |lists| && 0 <= j < |lists| && i != j ==> ApartPair(lists, pos, i, j)
  }

  ghost predicate ApartPair(lists: seq<seq<Lock>>, pos: seq<nat>, i: nat, j: nat)
    requires i < |lists| && j < |lists| && |pos| == |lists| && pos[i] <= |lists[i]| && pos[j] <= |lists[j]|
  {
    Disjoint(lists[i][..pos[i]], lists[j][..pos[j]])
  }

  lemma TakesNext(lists: seq<seq<Lock>>, pos: seq<nat>, n: nat, m: nat)
    requires ApartAt(lists, pos) && n < |lists| && m < pos[n]
    ensures Moves(HeldUpTo(lists, pos, n, m), HeldUpTo(lists, pos, n, m + 1))
  {
    var s, s' := HeldUpTo(lists, pos, n, m), HeldUpTo(lists, pos, n, m + 1);
    var l := lists[n][m];
    assert lists[n][..pos[n]][m] == l;
    forall j | 0 <= j < |lists| && j != n ensures !Holds(s.txs[j], l) {
      assert ApartPair(lists, pos, n, j);
    }
    assert !Blocked(s, n);
    assert s'.txs == s.txs[n := Tx(lists[n], m + 1, false)];
    assert Advance(s, n, s') && Step(s, n, s');
  }

  /** Beginnings that share nothing can all be held at once. */
  lemma {:induction false} HoldAll(lists: seq<seq<Lock>>, pos: seq<nat>, n: nat, m: nat)
    requires ApartAt(lists, pos) && n <= |lists| && m <= (if n < |lists| then pos[n] else 0)
    ensures CanReach(Started(lists), HeldUpTo(lists, pos, n, m))
    decreases n, m
  {
    if m > 0 {
      HoldAll(lists, pos, n, m - 1);
      TakesNext(lists, pos, n, m - 1);
      OneMore(Started(lists), HeldUpTo(lists, pos, n, m - 1), HeldUpTo(lists, pos, n, m));
    } else if n > 0 {
      HoldAll(lists, pos, n - 1, pos[n - 1]);
      assert HeldUpTo(lists, pos, n, 0) == HeldUpTo(lists, pos, n - 1, pos[n - 1]);
    } else {
      assert HeldUpTo(lists, pos, 0, 0) == Started(lists);
      assert LeadsTo([Started(lists)], Started(lists), Started(lists));
    }
  }

  /** The position a ring gives a list; zero outside the ring. */
  function PosOf(ring: seq<nat>, p: seq<nat>, i: nat): nat
    requires |p| == |ring|
  {
    if ring == [] then 0
    else if ring[|ring| - 1] == i then p[|ring| - 1]
    else PosOf(ring[..|ring| - 1], p[..|ring| - 1], i)
  }

  lemma {:induction false} PosAt(ring: seq<nat>, p: seq<nat>, i: nat)
    requires |p| == |ring| && Sorting.NoDuplicates(ring)
    ensures forall t :: 0 <= t < |ring| && ring[t] == i ==> PosOf(ring, p, i) == p[t]
    ensures i !in ring ==> PosOf(ring, p, i) == 0
  {
    if ring != [] && ring[|ring| - 1] != i {
      PosAt(ring[..|ring| - 1], p[..|ring| - 1], i);
    }
  }

  lemma RingApart(lists: seq<seq<Lock>>, ring: seq<nat>, p: seq<nat>, pos: seq<nat>)
    requires RingAt(lists, ring, p) && |pos| == |lists|
    requires forall i :: 0 <= i < |lists| ==> pos[i] == PosOf(ring, p, i)
    ensures ApartAt(lists, pos) && forall t :: 0 <= t < |ring| ==> pos[ring[t]] == p[t]
  {
    forall t | 0 <= t < |ring| ensures pos[ring[t]] == p[t] {
      PosAt(ring, p, ring[t]);
    }
    forall i | 0 <= i < |lists| ensures pos[i] == 0 || exists t :: 0 <= t < |ring| && ring[t] == i {
      PosAt(ring, p, i);
    }
    forall i | 0 <= i < |lists| ensures pos[i] <= |lists[i]| {
      if t :| 0 <= t < |ring| && ring[t] == i {
      }
    }
    forall i, j | 0 <= i < |lists| && 0 <= j < |lists| && i != j ensures ApartPair(lists, pos, i, j) {
      if pos[i] != 0 && pos[j] != 0 {
        var t :| 0 <= t < |ring| && ring[t] == i;
        var u :| 0 <= u < |ring| && ring[u] == j;
        assert Inside(lists, ring, p, t) && Inside(lists, ring, p, u);
      }
    }
  }

  lemma RingMakesCircle(lists: seq<seq<Lock>>, ring: seq<nat>, p: seq<nat>) returns (s: System)
    requires RingAt(lists, ring, p)
    ensures CanReach(Started(lists), s) && WellFormed(s) && InCircle(s, ring)
  {
    var n := |ring|;
    var pos := seq(|lists|, i requires 0 <= i < |lists| => PosOf(ring, p, i));
    RingApart(lists, ring, p, pos);
    HoldAll(lists, pos, |lists|, 0);
    s := HeldUpTo(lists, pos, |lists|, 0);
    forall t | 0 <= t < n ensures WaitsFor(s, ring[t], ring[Next(t, n)]) {
      var u := Next(t, n);
      assert Inside(lists, ring, p, t) && Inside(lists, ring, p, u);
      assert ring[t] != ring[u] by {
        assert t < u || u < t;
      }
      HoldingBlocks(s, ring[t], ring[u], lists[ring[t]][p[t]]);
    }
  }

  // ---- stuck states and circles ----

  /** Every transaction outside the ring among the first n is aborted. */
  lemma {:induction false} AbortOthers(from: System, s: System, ring: seq<nat>, n: nat) returns (s': System)
    requires CanReach(from, s) && WellFormed(s) && n <= |s.txs|
    ensures CanReach(from, s') && WellFormed(s') && |s'.txs| == |s.txs|
    ensures forall i :: 0 <= i < |s.txs| && (i in ring || n <= i) ==> s'.txs[i] == s.txs[i]
    ensures forall i :: 0 <= i < n && i !in ring ==> s'.txs[i].ended
  {
    if n == 0 {
      s' := s;
    } else {
      var mid := AbortOthers(from, s, ring, n - 1);
      if n - 1 in ring || mid.txs[n - 1].ended {
        s' := mid;
      } else {
        s' := mid.(txs := mid.txs[n - 1 := mid.txs[n - 1].(ended := true)]);
        assert Abort(mid, n - 1, s') && Step(mid, n - 1, s');
        OneMore(from, mid, s');
      }
    }
  }

  /** When all others give up, a circle is stuck. */
  lemma CircleGetsStuck(from: System, s: System, ring: seq<nat>)
    requires CanReach(from, s) && WellFormed(s) && InCircle(s, ring)
    ensures exists last :: CanReach(from, last) && Stuck(last)
  {
    var last := AbortOthers(from, s, ring, |s.txs|);
    var n := |ring|;
    forall t | 0 <= t < n ensures WaitsFor(last, ring[t], ring[Next(t, n)]) && Blocked(last, ring[t]) && !last.txs[ring[t]].ended {
      assert WaitsFor(s, ring[t], ring[Next(t, n)]);
      assert ring[t] in ring && ring[Next(t, n)] in ring;
      var l :| Wants(s.txs[ring[t]], l) && Holds(s.txs[ring[Next(t, n)]], l);
      assert last.txs[ring[t]] == s.txs[ring[t]] && last.txs[ring[Next(t, n)]] == s.txs[ring[Next(t, n)]];
      HoldingBlocks(last, ring[t], ring[Next(t, n)], l);
    }
    assert !last.txs[ring[0]].ended;
    forall i: nat, s' ensures !Advance(last, i, s') {
      if i < |last.txs| && i in ring {
        var t :| 0 <= t < n && ring[t] == i;
      }
    }
    assert Stuck(last);
  }

  lemma FreeMeansNotStuck(s: System, i: nat)
    requires WellFormed(s) && i < |s.txs| && !s.txs[i].ended && !Blocked(s, i)
    ensures !Stuck(s)
  {
    var s' := AdvanceOf(s, i);
  }

  lemma EveryoneWaits(s: System, i: nat)
    requires Stuck(s) && i < |s.txs| && !s.txs[i].ended
    ensures exists j: nat :: WaitsFor(s, i, j) && !s.txs[j].ended
  {
    if !Blocked(s, i) {
      FreeMeansNotStuck(s, i);
    }
    var j: nat :| WaitsFor(s, i, j);
  }

  /** Distinct numbers below n are at most n. */
  lemma {:induction false} Pigeonhole(path: seq<nat>, n: nat)
    requires Sorting.NoDuplicates(path) && forall t :: 0 <= t < |path| ==> path[t] < n
    ensures |path| <= n
  {
    if path != [] {
      assert path[0] < n;
      if n - 1 in path {
        var t :| 0 <= t < |path| && path[t] == n - 1;
        var rest := path[..t] + path[t + 1..];
        forall a, b | 0 <= a < b < |rest| ensures rest[a] != rest[b] {
          assert rest[a] == path[if a < t then a else a + 1] && rest[b] == path[if b < t then b else b + 1];
        }
        forall a | 0 <= a < |rest| ensures rest[a] < n - 1 {
          assert rest[a] == path[if a < t then a else a + 1];
        }
        Pigeonhole(rest, n - 1);
      } else {
        forall t | 0 <= t < |path| ensures path[t] < n - 1 {
          assert path[t] in path;
        }
        Pigeonhole(path, n - 1);
      }
    }
  }

  ghost predicate Walk(s: System, path: seq<nat>)
    requires WellFormed(s)
  {
    && path != [] && Sorting.NoDuplicates(path)
    && (forall t :: 0 <= t < |path| ==> path[t] < |s.txs| && !s.txs[path[t]].ended)
    && forall t :: 0 <= t < |path| - 1 ==> WaitsFor(s, path[t], path[t + 1])
  }

  /** Following who waits for whom in a stuck state comes round. */
  lemma {:induction false} WalkCloses(s: System, path: seq<nat>) returns (ring: seq<nat>)
    requires Stuck(s) && Walk(s, path)
    ensures InCircle(s, ring)
    decreases |s.txs| - |path|
  {
    Pigeonhole(path, |s.txs|);
    var last := path[|path| - 1];
    EveryoneWaits(s, last);
    var j: nat :| WaitsFor(s, last, j) && !s.txs[j].ended;
    if j in path {
      var k :| 0 <= k < |path| && path[k] == j;
      ring := path[k..];
      forall t | 0 <= t < |ring| ensures WaitsFor(s, ring[t], ring[Next(t, |ring|)]) {
        if t + 1 < |ring| {
          assert WaitsFor(s, path[k + t], path[k + t + 1]);
        }
      }
    } else {
      var longer := path + [j];
      forall t | 0 <= t < |longer| - 1 ensures WaitsFor(s, longer[t], longer[t + 1]) {
        if t + 1 < |path| {
          assert WaitsFor(s, path[t], path[t + 1]);
        }
      }
      Pigeonhole(longer, |s.txs|);
      ring := WalkCloses(s, longer);
    }
  }

  /** Any number of transactions can deadlock if and only if their lock lists hold a
      ring; waiting in a circle and getting stuck come to the same. */
  lemma DeadlockExactly(lists: seq<seq<Lock>>)
    ensures CanGetStuck(lists) <==> HasRing(lists)
    ensures CanWaitInCircle(lists) <==> HasRing(lists)
  {
    hide HeldApart, RingAt, InCircle, CanReach;
    if CanGetStuck(lists) {
      var last :| CanReach(Started(lists), last) && Stuck(last);
      ReachedApart(lists, last);
      var i :| 0 <= i < |last.txs| && !last.txs[i].ended;
      var ring := WalkCloses(last, [i]);
      CircleIsRing(last, lists, ring);
    }
    if CanWaitInCircle(lists) {
      var last, ring :| CanReach(Started(lists), last) && WellFormed(last) && InCircle(last, ring);
      ReachedApart(lists, last);
      CircleIsRing(last, lists, ring);
    }
    if HasRing(lists) {
      var ring, p :| RingAt(lists, ring, p);
      var s := RingMakesCircle(lists, ring, p);
      CircleGetsStuck(Started(lists), s, ring);
    }
  }

  /** Lists in one global order never deadlock, however many. */
  lemma OrderedNeverDeadlock(lists: seq<seq<Lock>>)
    requires forall i :: 0 <= i < |lists| ==> Ascending(lists[i])
    ensures !CanGetStuck(lists) && !HasRing(lists)
  {
    DeadlockExactly(lists);
    if last :| CanReach(Started(lists), last) && Stuck(last) {
      var states :| LeadsTo(states, Started(lists), last);
      EveryScheduleFinishes(states);
      NeverStuck(last);
    }
  }

  // ---- two transactions ----

  /** Two lists cross: after beginnings that share nothing each asks next for
      something the other already has. */
  ghost predicate Crossing(a: seq<Lock>, b: seq<Lock>) {
    exists i: nat, j: nat :: CrossAt(a, i, b, j)
  }

  ghost predicate CrossAt(a: seq<Lock>, i: nat, b: seq<Lock>, j: nat) {
    i < |a| && j < |b| && Disjoint(a[..i], b[..j]) && a[i] in b[..j] && b[j] in a[..i]
  }

  lemma RingOfTwo(a: seq<Lock>, b: seq<Lock>, ring: seq<nat>, p: seq<nat>)
    requires RingAt([a, b], ring, p)
    ensures Crossing(a, b)
  {
    assert forall t :: 0 <= t < |ring| ==> ring[t] < 2;
    Pigeonhole(ring, 2);
    assert Next(0, 2) == 1 && Next(1, 2) == 0;
    assert Inside([a, b], ring, p, 0) && Inside([a, b], ring, p, 1);
    if ring[0] == 0 {
      assert CrossAt(a, p[0], b, p[1]);
    } else {
      assert CrossAt(a, p[1], b, p[0]);
    }
  }

  /** Two transactions can deadlock if and only if their lists cross. */
  lemma TwoDeadlockExactly(a: seq<Lock>, b: seq<Lock>)
    ensures CanGetStuck([a, b]) <==> Crossing(a, b)
  {
    DeadlockExactly([a, b]);
    if HasRing([a, b]) {
      var ring, p :| RingAt([a, b], ring, p);
      RingOfTwo(a, b, ring, p);
    }
    if Crossing(a, b) {
      var i: nat, j: nat :| CrossAt(a, i, b, j);
      assert RingAt([a, b], [0, 1], [i, j]);
    }
  }

  /** Two lists in one global order never cross. */
  lemma AscendingNeverCross(a: seq<Lock>, b: seq<Lock>)
    requires Ascending(a) && Ascending(b)
    ensures !Crossing(a, b) && !CanGetStuck([a, b])
  {
    OrderedNeverDeadlock([a, b]);
    TwoDeadlockExactly(a, b);
  }

  /** Lists that share no more than one lock never cross. */
  lemma OneShared(a: seq<Lock>, b: seq<Lock>, l: Lock)
    requires forall m :: m in a && m in b ==> m == l
    ensures !Crossing(a, b)
  {
    if i: nat, j: nat :| CrossAt(a, i, b, j) {
      assert a[i] in a && b[j] in b;
      assert forall m :: m in a[..i] ==> m in a;
      assert forall m :: m in b[..j] ==> m in b;
      assert a[i] == l && b[j] == l;
    }
  }

  // ---- topology batches ----

  datatype Batch = Batch(id: string, links: seq<Arriving>)

  /** The rows insertTopologyLinks locks, in the order it meets them. */
  function LinkLocks(ls: seq<Arriving>): seq<Lock> {
    if ls == [] then []
    else
      var l := ls[|ls| - 1];
      LinkLocks(ls[..|ls| - 1]) + (if Counts(l) then [LinkLock(IngestStore.KeyOf(l))] else [])
  }

  function TopologyLocks(b: Batch): seq<Lock> {
    [BatchLock(b.id)] + LinkLocks(b.links)
  }

  function AllLocks(bs: seq<Batch>): (r: seq<seq<Lock>>)
    ensures |r| == |bs| && forall i :: 0 <= i < |bs| ==> r[i] == TopologyLocks(bs[i])
  {
    seq(|bs|, i requires 0 <= i < |bs| => TopologyLocks(bs[i]))
  }

  function AllLinks(bs: seq<Batch>): (r: seq<seq<Lock>>)
    ensures |r| == |bs| && forall i :: 0 <= i < |bs| ==> r[i] == LinkLocks(bs[i].links)
  {
    seq(|bs|, i requires 0 <= i < |bs| => LinkLocks(bs[i].links))
  }

  /** A ring in the lists of links between batches of different ids. */
  ghost predicate LinkRing(bs: seq<Batch>, ring: seq<nat>, p: seq<nat>) {
    && RingAt(AllLinks(bs), ring, p)
    && forall t, u :: 0 <= t < u < |ring| && ring[t] < |bs| && ring[u] < |bs| ==> bs[ring[t]].id != bs[ring[u]].id
  }

  lemma {:induction false} LinkLocksAreLinks(ls: seq<Arriving>)
    ensures forall l :: l in LinkLocks(ls) ==> l.LinkLock?
  {
    if ls != [] {
      LinkLocksAreLinks(ls[..|ls| - 1]);
    }
  }

  /** Beginnings of two lists with an id in front. */
  lemma Shifted(x: Lock, a: seq<Lock>, i: nat, y: Lock, b: seq<Lock>, j: nat)
    requires i <= |a| && j <= |b| && x !in b && y !in a
    ensures Disjoint(([x] + a)[..i + 1], ([y] + b)[..j + 1]) <==> x != y && Disjoint(a[..i], b[..j])
    ensures forall l :: l != y ==> (l in ([y] + b)[..j + 1] <==> l in b[..j])
  {
    var u, v := ([x] + a)[..i + 1], ([y] + b)[..j + 1];
    assert u == [x] + a[..i] && v == [y] + b[..j];
    assert forall l :: l in a[..i] ==> l in a;
    assert forall l :: l in b[..j] ==> l in b;
    assert forall l :: l in u <==> l == x || l in a[..i];
    assert forall l :: l in v <==> l == y || l in b[..j];
    assert x in u && y in v;
  }

  lemma BatchLists(bs: seq<Batch>, i: nat)
    requires i < |bs|
    ensures AllLocks(bs)[i] == [BatchLock(bs[i].id)] + AllLinks(bs)[i]
    ensures forall id :: BatchLock(id) !in AllLinks(bs)[i]
    ensures forall m :: 0 <= m < |AllLinks(bs)[i]| ==> AllLinks(bs)[i][m].LinkLock? && AllLocks(bs)[i][m + 1] == AllLinks(bs)[i][m]
  {
    LinkLocksAreLinks(bs[i].links);
    var a := AllLinks(bs)[i];
    assert forall m :: 0 <= m < |a| ==> a[m] in a;
  }

  /** The positions of a ring, one further or one back. */
  function Later(p: seq<nat>): seq<nat> {
    seq(|p|, t requires 0 <= t < |p| => p[t] + 1)
  }

  function Earlier(q: seq<nat>): seq<nat> {
    seq(|q|, t requires 0 <= t < |q| => if q[t] > 0 then q[t] - 1 else 0)
  }

  lemma PairWithIds(bs: seq<Batch>, i: nat, p: nat, j: nat, q: nat)
    requires i < |bs| && j < |bs| && p <= |AllLinks(bs)[i]| && q <= |AllLinks(bs)[j]|
    ensures |AllLocks(bs)[i]| == |AllLinks(bs)[i]| + 1 && |AllLocks(bs)[j]| == |AllLinks(bs)[j]| + 1
    ensures Disjoint(AllLocks(bs)[i][..p + 1], AllLocks(bs)[j][..q + 1]) <==>
              bs[i].id != bs[j].id && Disjoint(AllLinks(bs)[i][..p], AllLinks(bs)[j][..q])
    ensures p < |AllLinks(bs)[i]| ==>
              (AllLocks(bs)[i][p + 1] in AllLocks(bs)[j][..q + 1] <==> AllLinks(bs)[i][p] in AllLinks(bs)[j][..q])
  {
    BatchLists(bs, i);
    BatchLists(bs, j);
    Shifted(BatchLock(bs[i].id), AllLinks(bs)[i], p, BatchLock(bs[j].id), AllLinks(bs)[j], q);
  }

  ghost predicate Fitting(bs: seq<Batch>, ring: seq<nat>, p: seq<nat>) {
    |p| == |ring| && forall t :: 0 <= t < |ring| ==> ring[t] < |bs| && p[t] <= |AllLinks(bs)[ring[t]]|
  }

  lemma InsideWithIds(bs: seq<Batch>, ring: seq<nat>, p: seq<nat>, t: nat)
    requires Fitting(bs, ring, p) && t < |ring|
    ensures Inside(AllLocks(bs), ring, Later(p), t) <==> Inside(AllLinks(bs), ring, p, t)
    ensures Inside(AllLinks(bs), ring, p, t) <==> p[t] < |AllLinks(bs)[ring[t]]|
  {
    BatchLists(bs, ring[t]);
  }

  lemma RingGainsIds(bs: seq<Batch>, ring: seq<nat>, p: seq<nat>)
    requires Fitting(bs, ring, p) && LinkRing(bs, ring, p)
    ensures RingAt(AllLocks(bs), ring, Later(p))
  {
    hide Disjoint, AllLocks, AllLinks;
    var lists, q, n := AllLocks(bs), Later(p), |ring|;
    forall t | 0 <= t < n ensures Inside(AllLinks(bs), ring, p, t) && Inside(lists, ring, q, t) {
      InsideWithIds(bs, ring, p, t);
    }
    forall t, u | 0 <= t < u < n ensures Disjoint(lists[ring[t]][..q[t]], lists[ring[u]][..q[u]]) {
      PairWithIds(bs, ring[t], p[t], ring[u], p[u]);
    }
    forall t | 0 <= t < n ensures lists[ring[t]][q[t]] in lists[ring[Next(t, n)]][..q[Next(t, n)]] {
      PairWithIds(bs, ring[t], p[t], ring[Next(t, n)], p[Next(t, n)]);
    }
  }

  lemma RingLosesIds(bs: seq<Batch>, ring: seq<nat>, p: seq<nat>)
    requires Fitting(bs, ring, p) && RingAt(AllLocks(bs), ring, Later(p))
    ensures LinkRing(bs, ring, p)
  {
    hide Disjoint, AllLocks, AllLinks;
    var lists, links, q, n := AllLocks(bs), AllLinks(bs), Later(p), |ring|;
    forall t | 0 <= t < n ensures Inside(lists, ring, q, t) && Inside(links, ring, p, t) {
      InsideWithIds(bs, ring, p, t);
    }
    forall t, u | 0 <= t < u < n
      ensures Disjoint(links[ring[t]][..p[t]], links[ring[u]][..p[u]]) && bs[ring[t]].id != bs[ring[u]].id
    {
      PairWithIds(bs, ring[t], p[t], ring[u], p[u]);
    }
    forall t | 0 <= t < n ensures links[ring[t]][p[t]] in links[ring[Next(t, n)]][..p[Next(t, n)]] {
      PairWithIds(bs, ring[t], p[t], ring[Next(t, n)], p[Next(t, n)]);
    }
  }

  /** Any number of topology batches can deadlock if and only if the lists of their
      counted links hold a ring between batches of different ids. */
  lemma TopologyDeadlockExactly(bs: seq<Batch>)
    ensures CanGetStuck(AllLocks(bs)) <==> exists ring, p :: LinkRing(bs, ring, p)
  {
    DeadlockExactly(AllLocks(bs));
    if HasRing(AllLocks(bs)) {
      var ring, q :| RingAt(AllLocks(bs), ring, q);
      EveryoneHoldsItsId(bs, ring, q);
      assert Later(Earlier(q)) == q;
      RingLosesIds(bs, ring, Earlier(q));
    }
    if ring, p :| LinkRing(bs, ring, p) {
      assert Fitting(bs, ring, p);
      RingGainsIds(bs, ring, p);
    }
  }

  lemma EveryoneHoldsItsId(bs: seq<Batch>, ring: seq<nat>, q: seq<nat>)
    requires RingAt(AllLocks(bs), ring, q)
    ensures forall t :: 0 <= t < |ring| ==> q[t] > 0 && ring[t] < |bs| && q[t] <= |AllLinks(bs)[ring[t]]|
  {
    var lists, n := AllLocks(bs), |ring|;
    forall t | 0 <= t < n ensures q[t] > 0 && ring[t] < |bs| && q[t] <= |AllLinks(bs)[ring[t]]| {
      var before := if t == 0 then n - 1 else t - 1;
      assert Next(before, n) == t;
      assert Inside(lists, ring, q, before) && Inside(lists, ring, q, t);
      BatchLists(bs, ring[t]);
    }
  }

  lemma TwoLinks(a: Arriving, b: Arriving)
    requires Counts(a) && Counts(b)
    ensures LinkLocks([a, b]) == [LinkLock(IngestStore.KeyOf(a)), LinkLock(IngestStore.KeyOf(b))]
  {
    assert [a, b][..1] == [a] && [a][..0] == [];
    assert LinkLocks([a]) == LinkLocks([]) + [LinkLock(IngestStore.KeyOf(a))];
  }

  /** The shortest case: two batches that list the same two links in opposite order. */
  lemma UnsortedLinksCanDeadlock(x: Arriving, y: Arriving, idA: string, idB: string)
    requires Counts(x) && Counts(y) && IngestStore.KeyOf(x) != IngestStore.KeyOf(y) && idA != idB
    ensures CanGetStuck([TopologyLocks(Batch(idA, [x, y])), TopologyLocks(Batch(idB, [y, x]))])
  {
    TwoLinks(x, y);
    TwoLinks(y, x);
    var a, b := TopologyLocks(Batch(idA, [x, y])), TopologyLocks(Batch(idB, [y, x]));
    assert a[..2] == [BatchLock(idA), LinkLock(IngestStore.KeyOf(x))] && b[..2] == [BatchLock(idB), LinkLock(IngestStore.KeyOf(y))];
    TwoDeadlockExactly(a, b);
    assert CrossAt(a, 2, b, 2);
  }

  /** Two at a time is not enough: three batches that go round deadlock although no
      two of them can. */
  lemma PairsAreNotEnough(x: Arriving, y: Arriving, z: Arriving, idA: string, idB: string, idC: string)
    requires Counts(x) && Counts(y) && Counts(z) && idA != idB && idB != idC && idA != idC
    requires IngestStore.KeyOf(x) != IngestStore.KeyOf(y) && IngestStore.KeyOf(y) != IngestStore.KeyOf(z) && IngestStore.KeyOf(x) != IngestStore.KeyOf(z)
    ensures var a, b, c := TopologyLocks(Batch(idA, [x, y])), TopologyLocks(Batch(idB, [y, z])), TopologyLocks(Batch(idC, [z, x]));
            CanGetStuck([a, b, c]) && !CanGetStuck([a, b]) && !CanGetStuck([b, c]) && !CanGetStuck([a, c])
  {
    TwoLinks(x, y);
    TwoLinks(y, z);
    TwoLinks(z, x);
    var a, b, c := TopologyLocks(Batch(idA, [x, y])), TopologyLocks(Batch(idB, [y, z])), TopologyLocks(Batch(idC, [z, x]));
    var lx, ly, lz := LinkLock(IngestStore.KeyOf(x)), LinkLock(IngestStore.KeyOf(y)), LinkLock(IngestStore.KeyOf(z));
    assert a == [BatchLock(idA), lx, ly] && b == [BatchLock(idB), ly, lz] && c == [BatchLock(idC), lz, lx];
    assert a[..2] == [BatchLock(idA), lx] && b[..2] == [BatchLock(idB), ly] && c[..2] == [BatchLock(idC), lz];
    OneShared(a, b, ly);
    OneShared(b, c, lz);
    OneShared(a, c, lx);
    TwoDeadlockExactly(a, b);
    TwoDeadlockExactly(b, c);
    TwoDeadlockExactly(a, c);
    ThreeInARing(a, b, c);
  }

  lemma ThreeInARing(a: seq<Lock>, b: seq<Lock>, c: seq<Lock>)
    requires |a| == |b| == |c| == 3
    requires Disjoint(a[..2], b[..2]) && Disjoint(b[..2], c[..2]) && Disjoint(a[..2], c[..2])
    requires a[2] in b[..2] && b[2] in c[..2] && c[2] in a[..2]
    ensures CanGetStuck([a, b, c])
  {
    hide Disjoint;
    var lists := [a, b, c];
    DeadlockExactly(lists);
    hide CanGetStuck;
    assert Next(0, 3) == 1 && Next(1, 3) == 2 && Next(2, 3) == 0;
    assert RingAt(lists, [0, 1, 2], [2, 2, 2]);
  }

  // ---- a purge beside a metric batch ----

  /** The purge of workload_latest locks the rows it deletes in the order the scan
      meets them. Beside a metric batch it can deadlock if and only if that order
      crosses the sorted keys. */
  lemma PurgeDeadlockExactly(id: string, keys: seq<Key>, rows: seq<Key>)
    ensures CanGetStuck([[BatchLock(id)] + RowLocks(keys), RowLocks(rows)]) <==> Crossing(RowLocks(keys), RowLocks(rows))
  {
    var x, a, b := BatchLock(id), RowLocks(keys), RowLocks(rows);
    TwoDeadlockExactly([x] + a, b);
    assert forall l :: l in b ==> l.RowLock?;
    if i: nat, j: nat :| CrossAt([x] + a, i, b, j) {
      assert forall l :: l in b[..j] ==> l in b;
      assert i > 0;
      OneInFront(x, a, i - 1, b, j);
    }
    if i: nat, j: nat :| CrossAt(a, i, b, j) {
      OneInFront(x, a, i, b, j);
    }
  }

  lemma OneInFront(x: Lock, a: seq<Lock>, i: nat, b: seq<Lock>, j: nat)
    requires x !in b
    ensures CrossAt([x] + a, i + 1, b, j) <==> CrossAt(a, i, b, j)
  {
    if i < |a| && j < |b| {
      var u := ([x] + a)[..i + 1];
      assert u == [x] + a[..i];
      assert forall l :: l in b[..j] ==> l in b;
      assert forall l :: l in u <==> l == x || l in a[..i];
      assert b[j] in b;
    }
  }

  /** The purge can meet two rows against their sorted order. */
  lemma PurgeCanDeadlock(id: string, x: Key, y: Key)
    requires LockOrdered([x, y])
    ensures CanGetStuck([[BatchLock(id)] + RowLocks([x, y]), RowLocks([y, x])])
  {
    assert [x, y][0] != [x, y][1];
    var a, b := RowLocks([x, y]), RowLocks([y, x]);
    assert a[..1] == [RowLock(x)] && b[..1] == [RowLock(y)];
    PurgeDeadlockExactly(id, [x, y], [y, x]);
    assert CrossAt(a, 1, b, 1);
  }
}
