/** Kernel connection counters on a host: cumulative readings become increments,
    and the observations of both ends of a connection become edges and
    per-workload metrics. */
module KernelFlow {
  import opened Wrappers

  type Byte = x: nat | x < 256

  /** An IP address as its bytes; no bytes for none. */
  type Address = seq<Byte>

  const Out: Byte := 0
  const In: Byte := 1
  const Retransmit: Byte := 2

  /** One aggregated kernel map entry. */
  datatype Flow = Flow(source: Address, dest: Address, sourcePort: nat, destPort: nat, direction: Byte, count: nat) {
    /** The listening side. */
    function ServicePort(): nat {
      if direction == In then sourcePort else destPort
    }

    function ClientIP(): Address {
      if direction == In then dest else source
    }

    function ServerIP(): Address {
      if direction == In then source else dest
    }

    /** Ports as the kernel writes them. */
    predicate Plausible() {
      && (|source| == 4 || |source| == 16) && (|dest| == 4 || |dest| == 16)
      && sourcePort < 0x10000 && destPort < 0x10000
    }
  }

  // ---- the counter key ----

  type Key = seq<Byte>

  function V4Prefix(): seq<Byte> {
    [0, 0, 0, 0, 0, 0, 0, 0, 0, 0, 255, 255]
  }

  /** The 16-byte form; nothing for an address of any other length. */
  function To16(a: Address): (r: seq<Byte>)
    ensures |a| == 4 || |a| == 16 ==> |r| == 16
  {
    if |a| == 4 then V4Prefix() + a else if |a| == 16 then a else []
  }

  function FlowKey(f: Flow): Key {
    To16(f.source) + To16(f.dest)
    + [(f.sourcePort / 256) % 256, f.sourcePort % 256, (f.destPort / 256) % 256, f.destPort % 256, f.direction]
  }

  /** The key tells flows apart by everything but the count and the address family. */
  lemma KeyTellsFlowsApart(f: Flow, g: Flow)
    requires f.Plausible() && g.Plausible()
    ensures FlowKey(f) == FlowKey(g) <==>
              && To16(f.source) == To16(g.source) && To16(f.dest) == To16(g.dest)
              && f.sourcePort == g.sourcePort && f.destPort == g.destPort && f.direction == g.direction
  {
    var p, q := FlowKey(f), FlowKey(g);
    assert To16(f.source) == p[..16] && To16(f.dest) == p[16..32];
    assert To16(g.source) == q[..16] && To16(g.dest) == q[16..32];
    assert p[32..] == [f.sourcePort / 256, f.sourcePort % 256, f.destPort / 256, f.destPort % 256, f.direction];
    assert q[32..] == [g.sourcePort / 256, g.sourcePort % 256, g.destPort / 256, g.destPort % 256, g.direction];
    if p == q {
      assert p[32] == q[32] && p[33] == q[33] && p[34] == q[34] && p[35] == q[35] && p[36] == q[36];
    }
  }

  /** Of two addresses only an IPv4 one and its IPv4-mapped form share 16 bytes. */
  lemma FamiliesThatCollide(a: Address, b: Address)
    requires (|a| == 4 || |a| == 16) && (|b| == 4 || |b| == 16)
    ensures To16(a) == To16(b) <==> a == b || a == V4Prefix() + b || b == V4Prefix() + a
  {
    if |a| == 4 && |b| == 4 {
      assert a == To16(a)[12..] && b == To16(b)[12..];
    }
  }

  // ---- increments ----

  function Get(m: map<Key, nat>, k: Key): nat {
    if k in m then m[k] else 0
  }

  /** The reading as a map; a later entry of a key replaces an earlier one. */
  function CountsOf(flows: seq<Flow>): map<Key, nat> {
    if flows == [] then map[]
    else
      var f := flows[|flows| - 1];
      CountsOf(flows[..|flows| - 1])[FlowKey(f) := f.count]
  }

  /** What one cumulative count adds to the previous one. */
  function Increment(previous: nat, count: nat): nat {
    if count > previous then count - previous else if count == previous then 0 else count
  }

  /** A reading as increments; flows without news are left out. */
  function Increments(previous: map<Key, nat>, flows: seq<Flow>): seq<Flow> {
    if flows == [] then []
    else
      var f := flows[|flows| - 1];
      var n := Increment(Get(previous, FlowKey(f)), f.count);
      Increments(previous, flows[..|flows| - 1]) + (if n == 0 then [] else [f.(count := n)])
  }

  class Delta {
    var previous: map<Key, nat>

    constructor ()
      ensures previous == map[]
    {
      previous := map[];
    }

    method Apply(flows: seq<Flow>) returns (out: seq<Flow>)
      modifies this
      ensures out == Increments(old(previous), flows)
      ensures previous == CountsOf(flows)
    {
      hide FlowKey;
      var current: map<Key, nat> := map[];
      out := [];
      for i := 0 to |flows|
        invariant previous == old(previous)
        invariant current == CountsOf(flows[..i])
        invariant out == Increments(previous, flows[..i])
      {
        var flow := flows[i];
        assert flows[..i + 1][..i] == flows[..i];
        var key := FlowKey(flow);
        current := current[key := flow.count];
        var before := if key in previous then previous[key] else 0;
        if flow.count <= before {
          if flow.count == before {
            continue;
          }
        } else {
          flow := flow.(count := flow.count - before);
        }
        if flow.count == 0 {
          continue;
        }
        out := out + [flow];
      }
      previous := current;
      assert flows[..|flows|] == flows;
    }
  }

  // ---- runs of the kernel ----

  /** Activity of one key, the eviction of one key, and a complete reading. */
  datatype Event = Activity(key: Key, n: nat) | Evict(key: Key) | Read(flows: seq<Flow>)

  /** The kernel's counter. */
  function Counter(es: seq<Event>, k: Key): nat {
    if es == [] then 0
    else
      var before := Counter(es[..|es| - 1], k);
      match es[|es| - 1]
      case Activity(key, n) => if key == k then before + n else before
      case Evict(key) => if key == k then 0 else before
      case Read(_) => before
  }

  /** What the reader remembers. */
  function Remembered(es: seq<Event>): map<Key, nat> {
    if es == [] then map[]
    else match es[|es| - 1]
      case Read(flows) => CountsOf(flows)
      case _ => Remembered(es[..|es| - 1])
  }

  function CountFor(flows: seq<Flow>, k: Key): nat {
    if flows == [] then 0
    else
      var f := flows[|flows| - 1];
      CountFor(flows[..|flows| - 1], k) + (if FlowKey(f) == k then f.count else 0)
  }

  /** Everything that really happened on a key, and everything that was reported. */
  function Truth(es: seq<Event>, k: Key): nat {
    if es == [] then 0
    else
      var e := es[|es| - 1];
      Truth(es[..|es| - 1], k) + (if e.Activity? && e.key == k then e.n else 0)
  }

  function Reported(es: seq<Event>, k: Key): nat {
    if es == [] then 0
    else
      var before, e := es[..|es| - 1], es[|es| - 1];
      Reported(before, k) + (if e.Read? then CountFor(Increments(Remembered(before), e.flows), k) else 0)
  }

  /** One entry per key, and every counter is there. */
  ghost predicate Complete(flows: seq<Flow>, es: seq<Event>) {
    && (forall i, j :: 0 <= i < j < |flows| ==> FlowKey(flows[i]) != FlowKey(flows[j]))
    && forall k :: Get(CountsOf(flows), k) == Counter(es, k)
  }

  ghost predicate ValidRun(es: seq<Event>) {
    es != [] ==>
      && ValidRun(es[..|es| - 1])
      && (es[|es| - 1].Read? ==> Complete(es[|es| - 1].flows, es[..|es| - 1]))
  }

  /** The key was evicted since the last reading. */
  predicate Torn(es: seq<Event>, k: Key) {
    es != [] &&
    var e := es[|es| - 1];
    !e.Read? && ((e.Evict? && e.key == k) || Torn(es[..|es| - 1], k))
  }

  /** Counted by the kernel and not reported yet. */
  function Pending(es: seq<Event>, k: Key): int {
    if Torn(es, k) then Counter(es, k) else Counter(es, k) - Get(Remembered(es), k)
  }

  /** What evictions hide: the unreported part of an evicted counter, and what a
      counter that was evicted and grew again shows too little. */
  function Lost(es: seq<Event>, k: Key): int {
    if es == [] then 0
    else
      var before, e := es[..|es| - 1], es[|es| - 1];
      Lost(before, k) +
      match e
      case Activity(_, _) => 0
      case Evict(key) => if key == k then Pending(before, k) else 0
      case Read(_) =>
        var c, p := Counter(before, k), Get(Remembered(before), k);
        if Torn(before, k) && p <= c then p else 0
  }

  lemma KeyIgnoresCount(f: Flow, n: nat)
    ensures FlowKey(f.(count := n)) == FlowKey(f)
  {
  }

  lemma OneMoreCount(flows: seq<Flow>, f: Flow, k: Key)
    ensures CountFor(flows + [f], k) == CountFor(flows, k) + (if FlowKey(f) == k then f.count else 0)
  {
    assert (flows + [f])[..|flows|] == flows;
  }

  lemma NoEntries(previous: map<Key, nat>, k: Key)
    ensures CountsOf([]) == map[] && CountFor(Increments(previous, []), k) == 0
  {
  }

  /** What one more entry of a reading adds. */
  lemma OneMoreEntry(previous: map<Key, nat>, flows: seq<Flow>, f: Flow, k: Key)
    ensures CountsOf(flows + [f]) == CountsOf(flows)[FlowKey(f) := f.count]
    ensures CountFor(Increments(previous, flows + [f]), k) ==
            CountFor(Increments(previous, flows), k) +
            (if FlowKey(f) == k then Increment(Get(previous, k), f.count) else 0)
  {
    hide FlowKey;
    assert (flows + [f])[..|flows|] == flows;
    var n := Increment(Get(previous, FlowKey(f)), f.count);
    KeyIgnoresCount(f, n);
    OneMoreCount(Increments(previous, flows), f.(count := n), k);
    assert Increments(previous, flows) + [] == Increments(previous, flows);
  }

  lemma {:induction false} PresentKeys(flows: seq<Flow>, k: Key)
    ensures k in CountsOf(flows) ==> exists i :: 0 <= i < |flows| && FlowKey(flows[i]) == k
  {
    hide FlowKey;
    if flows != [] {
      PresentKeys(flows[..|flows| - 1], k);
    }
  }

  lemma LastKeyIsNew(flows: seq<Flow>, f: Flow)
    requires forall i, j :: 0 <= i < j < |flows + [f]| ==> FlowKey((flows + [f])[i]) != FlowKey((flows + [f])[j])
    ensures forall i, j :: 0 <= i < j < |flows| ==> FlowKey(flows[i]) != FlowKey(flows[j])
    ensures FlowKey(f) !in CountsOf(flows)
  {
    hide FlowKey, CountsOf;
    var more := flows + [f];
    assert more[|flows|] == f && forall i :: 0 <= i < |flows| ==> more[i] == flows[i];
    PresentKeys(flows, FlowKey(f));
  }

  lemma {:induction false} CountOnce(previous: map<Key, nat>, flows: seq<Flow>, k: Key)
    requires forall i, j :: 0 <= i < j < |flows| ==> FlowKey(flows[i]) != FlowKey(flows[j])
    ensures CountFor(Increments(previous, flows), k) == Increment(Get(previous, k), Get(CountsOf(flows), k))
  {
    hide FlowKey, CountFor, Increments, CountsOf;
    if flows == [] {
      NoEntries(previous, k);
    } else {
      var init, f := flows[..|flows| - 1], flows[|flows| - 1];
      assert flows == init + [f];
      LastKeyIsNew(init, f);
      CountOnce(previous, init, k);
      OneMoreEntry(previous, init, f, k);
    }
  }

  /** An absent key reads as zero, so a complete reading reports exactly the increment of its counter. */
  lemma ReadingReports(es: seq<Event>, flows: seq<Flow>, k: Key)
    requires Complete(flows, es)
    ensures CountFor(Increments(Remembered(es), flows), k) == Increment(Get(Remembered(es), k), Counter(es, k))
  {
    CountOnce(Remembered(es), flows, k);
  }

  /** Nothing is invented and nothing vanishes without an eviction: the activity of
      a key is what was reported, what is still pending and what evictions hid. */
  lemma {:induction false} FlowIsConserved(es: seq<Event>, k: Key)
    requires ValidRun(es)
    ensures Truth(es, k) == Reported(es, k) + Pending(es, k) + Lost(es, k)
    ensures Pending(es, k) >= 0 && Lost(es, k) >= 0
  {
    if es != [] {
      var before, e := es[..|es| - 1], es[|es| - 1];
      FlowIsConserved(before, k);
      if e.Read? {
        ReadingReports(before, e.flows, k);
      }
    }
  }

  /** The reader never reports more than happened. */
  lemma NeverOverReports(es: seq<Event>, k: Key)
    requires ValidRun(es)
    ensures Reported(es, k) <= Truth(es, k)
  {
    FlowIsConserved(es, k);
  }

  lemma {:induction false} NothingLostWithoutEviction(es: seq<Event>, k: Key)
    requires Evict(k) !in es
    ensures Lost(es, k) == 0 && !Torn(es, k)
  {
    if es != [] {
      NothingLostWithoutEviction(es[..|es| - 1], k);
      assert es[|es| - 1] in es;
    }
  }

  /** Without evictions of the key, a run that ends with a reading has reported everything. */
  lemma ExactWithoutEviction(es: seq<Event>, k: Key)
    requires ValidRun(es) && es != [] && es[|es| - 1].Read? && Evict(k) !in es
    ensures Reported(es, k) == Truth(es, k)
  {
    FlowIsConserved(es, k);
    NothingLostWithoutEviction(es, k);
  }

  /** The n-th event hides nothing of a key: an eviction finds nothing that is not
      reported yet, and a reading after an eviction finds less than was remembered. */
  predicate HidesNothing(es: seq<Event>, n: nat, k: Key)
    requires n < |es|
  {
    var before := es[..n];
    && (es[n] == Evict(k) ==> Pending(before, k) == 0)
    && (es[n].Read? && Torn(before, k) ==>
          Get(Remembered(before), k) == 0 || Counter(before, k) < Get(Remembered(before), k))
  }

  lemma {:induction false} NothingLostExactly(es: seq<Event>, k: Key)
    requires ValidRun(es)
    ensures Lost(es, k) == 0 <==> forall n :: 0 <= n < |es| ==> HidesNothing(es, n, k)
  {
    if es != [] {
      var before := es[..|es| - 1];
      NothingLostExactly(before, k);
      FlowIsConserved(before, k);
      FlowIsConserved(es, k);
      forall n | 0 <= n < |before| ensures HidesNothing(es, n, k) <==> HidesNothing(before, n, k) {
        assert es[..n] == before[..n];
      }
      hide Pending, Torn, Remembered, Counter;
      assert HidesNothing(es, |before|, k) <==> Lost(es, k) == Lost(before, k);
    }
  }

  /** At a reading the report is exact if and only if every eviction of the key came
      right after a reading of all it had counted, and no counter that was evicted had
      grown past the remembered one by the next reading. */
  lemma ExactWhenNothingHidden(es: seq<Event>, k: Key)
    requires ValidRun(es) && es != [] && es[|es| - 1].Read?
    ensures Reported(es, k) == Truth(es, k) <==> forall n :: 0 <= n < |es| ==> HidesNothing(es, n, k)
  {
    FlowIsConserved(es, k);
    NothingLostExactly(es, k);
  }

  // ---- two entries under one key ----

  lemma TwoEntries(f: Flow, g: Flow, previous: map<Key, nat>)
    requires FlowKey(f) == FlowKey(g)
    ensures CountsOf([f, g]) == map[FlowKey(f) := g.count]
    ensures CountFor(Increments(previous, [f, g]), FlowKey(f)) ==
            Increment(Get(previous, FlowKey(f)), f.count) + Increment(Get(previous, FlowKey(f)), g.count)
  {
    NoEntries(previous, FlowKey(f));
    hide FlowKey, CountsOf, CountFor, Increments, Increment;
    OneMoreEntry(previous, [], f, FlowKey(f));
    OneMoreEntry(previous, [f], g, FlowKey(f));
    assert [] + [f] == [f] && [f] + [g] == [f, g];
  }

  /** The hypothesis of one entry per key is needed: an IPv4 flow and its IPv4-mapped
      twin share a key, and a reading of both reports too much if and only if the
      first had counted more than the second, or is now behind what the second had. */
  lemma TwinsOverReportExactly(f: Flow, g: Flow, moreF: nat, moreG: nat)
    requires FlowKey(f) == FlowKey(g)
    ensures var k := FlowKey(f);
            var now := [f.(count := f.count + moreF), g.(count := g.count + moreG)];
            CountFor(Increments(CountsOf([f, g]), now), k) > moreF + moreG <==>
              g.count < f.count || (0 < f.count && f.count + moreF < g.count)
  {
    TwoEntries(f, g, map[]);
    var f', g' := f.(count := f.count + moreF), g.(count := g.count + moreG);
    KeyIgnoresCount(f, f.count + moreF);
    KeyIgnoresCount(g, g.count + moreG);
    hide FlowKey, CountFor, Increments;
    TwoEntries(f', g', CountsOf([f, g]));
  }

  /** Such twins exist: the same connection seen in both address families. */
  lemma TwinsExist(a: Address, b: Address, f: Flow)
    requires |a| == 4 && |b| == 4 && f.source == a && f.dest == b
    ensures FlowKey(f) == FlowKey(f.(source := V4Prefix() + a, dest := V4Prefix() + b))
  {
  }
}
