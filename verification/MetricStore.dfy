/** The hub's metric tables as the store changes them: the insert loop with its
    in-memory candidates, the sorted upsert, the batched purge, and the query
    that builds one snapshot per container. */
module MetricStore {
  import opened Wrappers
  import opened Text
  import opened Rfc3339
  import opened WorkloadLatest
  import Sorting

  const PurgeBatchSize: nat := 2000

  predicate KeyAtMost(a: Key, b: Key) {
    if a.0 != b.0 then AtMost(a.0, b.0) else AtMost(a.1, b.1)
  }

  lemma KeyOrderIsTotal()
    ensures Sorting.TotalOrder(KeyAtMost)
  {
    forall x: Key, y: Key, z: Key
      ensures KeyAtMost(x, y) || KeyAtMost(y, x)
      ensures KeyAtMost(x, y) && KeyAtMost(y, z) ==> KeyAtMost(x, z)
      ensures KeyAtMost(x, y) && KeyAtMost(y, x) ==> x == y
    {
      OrderFacts(x.0, y.0, z.0);
      OrderFacts(y.0, z.0, x.0);
      OrderFacts(z.0, x.0, y.0);
      OrderFacts(x.1, y.1, z.1);
      OrderFacts(y.1, x.1, z.1);
    }
  }

  /** Keys in the order the rows are written and locked. */
  ghost predicate LockOrdered(keys: seq<Key>) {
    Sorting.Sorted(keys, KeyAtMost) && Sorting.NoDuplicates(keys)
  }

  /** One container's answer. */
  datatype Usage = Usage(cpu: real, memory: real, limit: real, updatedAt: Instant)

  datatype Snapshot = Snapshot(container: string, entity: string, labels: map<string, string>, usage: Usage)

  function LaterOf(a: Option<Instant>, b: Option<Point>): Option<Instant> {
    if b.None? then a
    else if a.None? || Before(a.value, b.value.ts) then Some(b.value.ts)
    else a
  }

  function ValueOf(p: Option<Point>): real {
    if p.Some? then p.value.value else 0.0
  }

  /** What three optional points say about a container; nothing when all are missing. */
  function Summary(cpu: Option<Point>, memory: Option<Point>, limit: Option<Point>): Option<Usage> {
    var at := LaterOf(LaterOf(LaterOf(None, cpu), memory), limit);
    if at.None? then None else Some(Usage(ValueOf(cpu), ValueOf(memory), ValueOf(limit), at.value))
  }

  /** In plain words: the values of the points that are there, zero for those that
      are not, and the latest of their times. */
  ghost predicate Plainly(u: Usage, cpu: Option<Point>, memory: Option<Point>, limit: Option<Point>) {
    && u.cpu == (if cpu.Some? then cpu.value.value else 0.0)
    && u.memory == (if memory.Some? then memory.value.value else 0.0)
    && u.limit == (if limit.Some? then limit.value.value else 0.0)
    && (forall p :: p in {cpu, memory, limit} && p.Some? ==> !Before(u.updatedAt, p.value.ts))
    && (exists p :: p in {cpu, memory, limit} && p.Some? && p.value.ts == u.updatedAt)
  }

  lemma SummaryPlainly(cpu: Option<Point>, memory: Option<Point>, limit: Option<Point>)
    ensures Summary(cpu, memory, limit).None? <==> cpu.None? && memory.None? && limit.None?
    ensures Summary(cpu, memory, limit).Some? ==> Plainly(Summary(cpu, memory, limit).value, cpu, memory, limit)
  {
    var s := Summary(cpu, memory, limit);
    if s.Some? {
      var a := LaterOf(None, cpu);
      var b := LaterOf(a, memory);
      LaterOfBoth(None, cpu);
      LaterOfBoth(a, memory);
      LaterOfBoth(b, limit);
      var t := s.value.updatedAt;
      if a.Some? && b.Some? {
        TimeChains(t, b.value, a.value);
      }
      hide Before;
      assert (limit.Some? && limit.value.ts == t) || b == Some(t);
      assert b.Some? ==> (memory.Some? && memory.value.ts == b.value) || a == b;
    }
  }

  lemma LaterOfBoth(a: Option<Instant>, p: Option<Point>)
    ensures var t := LaterOf(a, p);
            && (t.None? <==> a.None? && p.None?)
            && (t.Some? ==> (t == a || (p.Some? && t.value == p.value.ts)))
            && (t.Some? && a.Some? ==> !Before(t.value, a.value))
            && (t.Some? && p.Some? ==> !Before(t.value, p.value.ts))
  {
    if a.Some? && p.Some? {
      TimeTotal(a.value, p.value.ts);
      TimeTotal(a.value, a.value);
    }
    if p.Some? {
      TimeTotal(p.value.ts, p.value.ts);
    }
  }

  /** The scan's answer for a container. */
  function ScanUsage(points: seq<Point>, c: string, since: string): Option<Usage> {
    Summary(Newest(points, (c, "cpu.usage"), since),
            Newest(points, (c, "memory.usage"), since),
            Newest(points, (c, "memory.limit"), since))
  }

  /** The view's answer for a container. */
  function ViewUsage(view: map<Key, Point>, c: string, since: string): Option<Usage> {
    Summary(Visible(view, (c, "cpu.usage"), since),
            Visible(view, (c, "memory.usage"), since),
            Visible(view, (c, "memory.limit"), since))
  }

  /** The view's answers in plain words. */
  lemma ViewPlainly(view: map<Key, Point>, out: map<string, Snapshot>, since: string)
    requires forall k :: k in view ==> Tracked(view[k]) && KeyOf(view[k]) == k
    requires forall c :: c != "" ==> (c in out <==> ViewUsage(view, c, since).Some?)
    requires forall c :: c in out ==> c != "" && out[c].usage == ViewUsage(view, c, since).value
    ensures forall c :: c != "" ==> (c in out <==> exists metric :: RowAt(view, (c, metric), since))
    ensures forall c :: c in out ==> Plainly(out[c].usage, Visible(view, (c, "cpu.usage"), since),
                                             Visible(view, (c, "memory.usage"), since),
                                             Visible(view, (c, "memory.limit"), since))
  {
    hide Stamp, Less, Summary, Plainly;
    forall c | c != ""
      ensures c in out <==> exists metric :: RowAt(view, (c, metric), since)
      ensures c in out ==> Plainly(out[c].usage, Visible(view, (c, "cpu.usage"), since),
                                   Visible(view, (c, "memory.usage"), since), Visible(view, (c, "memory.limit"), since))
    {
      assert c in out <==> ViewUsage(view, c, since).Some?;
      SummaryPlainly(Visible(view, (c, "cpu.usage"), since), Visible(view, (c, "memory.usage"), since),
                     Visible(view, (c, "memory.limit"), since));
      assert forall k: Key :: RowAt(view, k, since) <==> Visible(view, k, since).Some?;
      if metric :| RowAt(view, (c, metric), since) {
        assert WorkloadMetric(metric);
      }
    }
  }

  predicate RowAt(view: map<Key, Point>, k: Key, since: string) {
    k in view && AtMost(since, Stamp(view[k].ts))
  }

  /** The first row of a key in query order. */
  function First(rows: seq<Point>, k: Key): Option<Point> {
    if rows == [] then None
    else
      var f := First(rows[..|rows| - 1], k);
      if f.None? && KeyOf(rows[|rows| - 1]) == k then Some(rows[|rows| - 1]) else f
  }

  function RowUsage(rows: seq<Point>, c: string): Option<Usage> {
    Summary(First(rows, (c, "cpu.usage")), First(rows, (c, "memory.usage")), First(rows, (c, "memory.limit")))
  }

  lemma {:induction false} FirstOfDistinct(rows: seq<Point>, i: nat)
    requires i < |rows|
    requires forall j :: 0 <= j < |rows| && j != i ==> KeyOf(rows[j]) != KeyOf(rows[i])
    ensures First(rows, KeyOf(rows[i])) == Some(rows[i])
  {
    var n, k := |rows| - 1, KeyOf(rows[i]);
    if i < n {
      FirstOfDistinct(rows[..n], i);
    } else {
      FirstNone(rows[..n], k);
    }
  }

  lemma {:induction false} FirstNone(rows: seq<Point>, k: Key)
    requires forall j :: 0 <= j < |rows| ==> KeyOf(rows[j]) != k
    ensures First(rows, k) == None
  {
    if rows != [] {
      FirstNone(rows[..|rows| - 1], k);
    }
  }

  /** A row whose container and metric were met before changes no answer. */
  lemma RowRepeated(rows: seq<Point>, p: Point)
    requires First(rows, KeyOf(p)).Some?
    ensures forall k: Key :: First(rows + [p], k) == First(rows, k)
    ensures forall c :: RowUsage(rows + [p], c) == RowUsage(rows, c)
  {
    assert (rows + [p])[..|rows|] == rows;
  }

  /** A first row touches its own key and its own container only. */
  lemma RowNew(rows: seq<Point>, p: Point)
    requires First(rows, KeyOf(p)).None?
    ensures First(rows + [p], KeyOf(p)) == Some(p)
    ensures forall k: Key :: k != KeyOf(p) ==> First(rows + [p], k) == First(rows, k)
    ensures forall c :: c != Container(p) ==> RowUsage(rows + [p], c) == RowUsage(rows, c)
  {
    assert (rows + [p])[..|rows|] == rows;
  }

  /** The loop over query rows: the first row of each container and metric counts. */
  method Snapshots(rows: seq<Point>) returns (out: map<string, Snapshot>)
    requires forall i :: 0 <= i < |rows| ==> WorkloadMetric(rows[i].metric)
    ensures forall c :: c in out ==> c != "" && out[c].container == c
    ensures forall c :: c != "" ==> (c in out <==> RowUsage(rows, c).Some?)
    ensures forall c :: c in out ==> out[c].usage == RowUsage(rows, c).value
    ensures Named(out, rows)
  {
    out := map[];
    var seen: set<Key> := {};
    hide First, RowUsage, Before, NamedByFirst, Named;
    NoRows();
    for i := 0 to |rows|
      invariant forall k: Key :: k.0 != "" ==> (k in seen <==> First(rows[..i], k).Some?)
      invariant forall c :: c in out ==> c != "" && out[c].container == c
      invariant forall c :: c != "" ==> (c in out <==> RowUsage(rows[..i], c).Some?)
      invariant forall c :: c in out ==> out[c].usage == RowUsage(rows[..i], c).value
      invariant Named(out, rows[..i])
    {
      var p := rows[i];
      var name, k := Container(p), KeyOf(p);
      assert rows[..i + 1] == rows[..i] + [p];
      if First(rows[..i], k).Some? {
        RowRepeated(rows[..i], p);
      } else {
        RowNew(rows[..i], p);
      }
      NamesStep(out, rows[..i], p);
      if name == "" {
        continue;
      }
      if k in seen {
        continue;
      }
      seen := seen + {k};
      var s := if name in out then out[name] else
        Snapshot(name, p.entity, p.labels, Usage(0.0, 0.0, 0.0, p.ts));
      var u := s.usage;
      u := match p.metric
        case "cpu.usage" => u.(cpu := p.value)
        case "memory.usage" => u.(memory := p.value)
        case _ => u.(limit := p.value);
      if Before(u.updatedAt, p.ts) {
        u := u.(updatedAt := p.ts);
      }
      SummaryStep(rows[..i], p, name);
      out := out[name := s.(usage := u)];
    }
    assert rows[..|rows|] == rows;
  }

  /** Entity and labels are those of the container's first row. */
  ghost predicate NamedByFirst(s: Snapshot, rows: seq<Point>) {
    exists i :: 0 <= i < |rows| && NamedBy(s, rows[i]) && forall j :: 0 <= j < i ==> Container(rows[j]) != s.container
  }

  ghost predicate Named(out: map<string, Snapshot>, rows: seq<Point>) {
    forall c :: c in out ==> NamedByFirst(out[c], rows)
  }

  /** One more row leaves the names, and names its own container's snapshot if that is new. */
  lemma NamesStep(out: map<string, Snapshot>, rows: seq<Point>, p: Point)
    requires Named(out, rows) && forall c :: c in out ==> out[c].container == c
    requires forall i :: 0 <= i < |rows| ==> WorkloadMetric(rows[i].metric)
    requires Container(p) !in out ==> Container(p) == "" || RowUsage(rows, Container(p)).None?
    ensures Named(out, rows + [p])
    ensures var name := Container(p);
            name != "" ==> forall s: Snapshot, u: Usage :: s == (if name in out then out[name] else Snapshot(name, p.entity, p.labels, s.usage)) ==>
                             Named(out[name := s.(usage := u)], rows + [p])
  {
    hide RowUsage, Container, NamedByFirst, First;
    var name := Container(p);
    forall c | c in out ensures NamedByFirst(out[c], rows + [p]) {
      NamedStill(out[c], rows, p);
    }
    if name != "" {
      forall s: Snapshot, u: Usage | s == (if name in out then out[name] else Snapshot(name, p.entity, p.labels, s.usage))
        ensures Named(out[name := s.(usage := u)], rows + [p])
      {
        if name in out {
          NamedStill(out[name], rows, p);
        } else {
          UnknownContainer(rows, name);
          NamedByNew(s.(usage := u), rows, p);
        }
      }
    }
  }

  predicate NamedBy(s: Snapshot, p: Point) {
    Container(p) == s.container && s.entity == p.entity && s.labels == p.labels
  }

  lemma NamedStill(s: Snapshot, rows: seq<Point>, p: Point)
    requires NamedByFirst(s, rows)
    ensures NamedByFirst(s, rows + [p])
    ensures forall u :: NamedByFirst(s.(usage := u), rows + [p])
  {
    hide Container;
    var more := rows + [p];
    var i :| 0 <= i < |rows| && NamedBy(s, rows[i]) && forall j :: 0 <= j < i ==> Container(rows[j]) != s.container;
    assert more[i] == rows[i] && forall j :: 0 <= j < i ==> more[j] == rows[j];
    forall u ensures NamedByFirst(s.(usage := u), more) {
      assert NamedBy(s.(usage := u), more[i]);
    }
  }

  lemma NamedByNew(s: Snapshot, rows: seq<Point>, p: Point)
    requires NamedBy(s, p) && forall j :: 0 <= j < |rows| ==> Container(rows[j]) != s.container
    ensures NamedByFirst(s, rows + [p])
  {
    hide Container;
    var more := rows + [p];
    assert more[|rows|] == p && forall j :: 0 <= j < |rows| ==> more[j] == rows[j];
  }

  /** A container without an answer has had no row. */
  lemma UnknownContainer(rows: seq<Point>, c: string)
    requires RowUsage(rows, c).None? && forall i :: 0 <= i < |rows| ==> WorkloadMetric(rows[i].metric)
    ensures forall j :: 0 <= j < |rows| ==> Container(rows[j]) != c
  {
    forall j | 0 <= j < |rows| ensures Container(rows[j]) != c {
      FirstSome(rows, j);
    }
  }

  lemma {:induction false} FirstSome(rows: seq<Point>, i: nat)
    requires i < |rows|
    ensures First(rows, KeyOf(rows[i])).Some?
  {
    if i < |rows| - 1 {
      FirstSome(rows[..|rows| - 1], i);
    }
  }

  lemma {:induction false} FirstIsRow(rows: seq<Point>, k: Key)
    ensures First(rows, k).Some? ==> First(rows, k).value in rows
  {
    if rows != [] {
      FirstIsRow(rows[..|rows| - 1], k);
    }
  }

  /** Entity and labels are those of a visible row of the container with the newest stamp. */
  ghost predicate NamedByNewest(s: Snapshot, view: map<Key, Point>, since: string) {
    exists k :: k in view && k.0 == s.container && s.entity == view[k].entity && s.labels == view[k].labels
                && AtMost(since, Stamp(view[k].ts)) && NewestRow(view, k)
  }

  ghost predicate NewestRow(view: map<Key, Point>, k: Key)
    requires k in view
  {
    forall m :: m in view && m.0 == k.0 ==> AtMost(Stamp(view[m].ts), Stamp(view[k].ts))
  }

  /** In rows sorted by stamp, newest first, the first row of a container is its newest. */
  lemma FirstIsNewest(s: Snapshot, rows: seq<Point>, view: map<Key, Point>, since: string)
    requires NamedByFirst(s, rows) && Sorting.Sorted(rows, NewestFirst)
    requires forall k :: k in view ==> KeyOf(view[k]) == k
    requires forall i :: 0 <= i < |rows| ==> VisibleRow(view, rows[i], since)
    requires forall k :: First(rows, k) == Visible(view, k, since)
    ensures NamedByNewest(s, view, since)
  {
    hide Stamp, Less, First;
    var i :| 0 <= i < |rows| && NamedBy(s, rows[i]) && forall j :: 0 <= j < i ==> Container(rows[j]) != s.container;
    var p, k := rows[i], KeyOf(rows[i]);
    assert VisibleRow(view, p, since);
    forall m | m in view && m.0 == k.0 ensures AtMost(Stamp(view[m].ts), Stamp(p.ts)) {
      FirstIsRow(rows, m);
      OrderFacts(Stamp(view[m].ts), since, Stamp(p.ts));
      OrderFacts(since, Stamp(view[m].ts), "");
      OrderFacts(Stamp(p.ts), Stamp(p.ts), "");
      if Visible(view, m, since).Some? {
        var j :| 0 <= j < |rows| && rows[j] == view[m];
        assert j != i ==> NewestFirst(rows[i], rows[j]);
      }
    }
  }

  predicate VisibleRow(view: map<Key, Point>, p: Point, since: string) {
    KeyOf(p) in view && p == view[KeyOf(p)] && AtMost(since, Stamp(p.ts))
  }

  lemma NoRows()
    ensures forall k: Key :: First([], k) == None
    ensures forall c :: RowUsage([], c) == None
    ensures Named(map[], [])
  {
  }

  lemma LaterSwap(a: Option<Instant>, p: Point, q: Option<Point>)
    ensures LaterOf(LaterOf(a, Some(p)), q) == LaterOf(LaterOf(a, q), Some(p))
  {
  }

  /** One more row for a container adds its value and can only move its time forward. */
  lemma SummaryStep(rows: seq<Point>, p: Point, c: string)
    requires WorkloadMetric(p.metric) && Container(p) == c && First(rows, KeyOf(p)) == None
    ensures var before, after := RowUsage(rows, c), RowUsage(rows + [p], c);
            var base := if before.Some? then before.value else Usage(0.0, 0.0, 0.0, p.ts);
            && after.Some?
            && after.value.cpu == (if p.metric == "cpu.usage" then p.value else base.cpu)
            && after.value.memory == (if p.metric == "memory.usage" then p.value else base.memory)
            && after.value.limit == (if p.metric == "memory.limit" then p.value else base.limit)
            && after.value.updatedAt == (if Before(base.updatedAt, p.ts) then p.ts else base.updatedAt)
  {
    hide Before, First;
    RowNew(rows, p);
    TimeTotal(p.ts, p.ts);
    var x, y, z := First(rows, (c, "cpu.usage")), First(rows, (c, "memory.usage")), First(rows, (c, "memory.limit"));
    match p.metric
    case "cpu.usage" =>
      LaterSwap(None, p, y);
      LaterSwap(LaterOf(None, y), p, z);
    case "memory.usage" =>
      LaterSwap(LaterOf(None, x), p, z);
    case _ =>
  }

  /** The view after upserting only some keys of the batch. */
  ghost function MergeSome(view: map<Key, Point>, batch: map<Key, Point>, done: set<Key>): map<Key, Point>
    requires done <= batch.Keys
  {
    map k | k in view.Keys + done :: if k in done && Replaces(batch[k], view, k) then batch[k] else view[k]
  }

  lemma MergeOne(view: map<Key, Point>, batch: map<Key, Point>, done: set<Key>, k: Key)
    requires done <= batch.Keys && k in batch && k !in done
    ensures var m := MergeSome(view, batch, done);
            MergeSome(view, batch, done + {k}) == if Replaces(batch[k], m, k) then m[k := batch[k]] else m
  {
    hide Stamp, Less;
    var m, n := MergeSome(view, batch, done), MergeSome(view, batch, done + {k});
    assert Replaces(batch[k], m, k) == Replaces(batch[k], view, k);
    assert n.Keys == m.Keys + {k};
  }

  lemma MergeEnds(view: map<Key, Point>, batch: map<Key, Point>)
    ensures MergeSome(view, batch, {}) == view
    ensures MergeSome(view, batch, batch.Keys) == Merge(view, batch)
  {
    hide Stamp, Less;
  }

  lemma RunStep(history: seq<Event>, e: Event)
    ensures Run(history + [e]) == Apply(Run(history), e)
  {
    assert (history + [e])[..|history|] == history;
  }

  lemma CandidateStart()
    ensures BatchLatest([]) == map[]
  {
  }

  lemma CandidateStep(ps: seq<Point>, p: Point)
    ensures var m := BatchLatest(ps);
            BatchLatest(ps + [p]) ==
            if Tracked(p) && (KeyOf(p) !in m || !Before(p.ts, m[KeyOf(p)].ts)) then m[KeyOf(p) := p] else m
  {
    assert (ps + [p])[..|ps|] == ps;
  }

  class Store {
    var points: seq<Point>
    var latest: map<Key, Point>
    ghost var history: seq<Event>

    /** The tables are what the recorded history of statements produces. */
    ghost predicate Valid()
      reads this
    {
      Db(points, latest) == Run(history)
    }

    constructor ()
      ensures Valid() && points == [] && latest == map[] && history == []
    {
      points, latest, history := [], map[], [];
    }

    /** insertMetrics inside its transaction. The rows of the view are written,
        and so locked, in the order returned. */
    method WriteMetrics(ps: seq<Point>) returns (locked: seq<Key>)
      requires Valid()
      modifies this
      ensures Valid() && history == old(history) + [Commit(ps)]
      ensures points == old(points) + ps
      ensures LockOrdered(locked) && forall k :: k in locked <==> k in BatchLatest(ps)
      ensures forall c, metric :: (c, metric) in locked <==> exists i :: 0 <= i < |ps| && InView(ps[i], c, metric)
    {
      hide Run, BatchLatest, Before, Merge;
      var candidates: map<Key, Point> := map[];
      CandidateStart();
      for i := 0 to |ps|
        invariant points == old(points) + ps[..i]
        invariant latest == old(latest) && history == old(history)
        invariant candidates == BatchLatest(ps[..i])
      {
        var p := ps[i];
        points := points + [p];
        assert ps[..i + 1] == ps[..i] + [p];
        CandidateStep(ps[..i], p);
        if !WorkloadMetric(p.metric) || Container(p) == "" {
          continue;
        }
        var k := (Container(p), p.metric);
        if k !in candidates || !Before(p.ts, candidates[k].ts) {
          candidates := candidates[k := p];
        }
      }
      assert ps[..|ps|] == ps;
      locked := UpsertWorkloadLatest(candidates);
      forall c, metric ensures (c, metric) in locked <==> exists i :: 0 <= i < |ps| && InView(ps[i], c, metric) {
        BatchPicksLastLatest(ps, c, metric);
      }
      RunStep(history, Commit(ps));
      history := history + [Commit(ps)];
    }

    method UpsertWorkloadLatest(batch: map<Key, Point>) returns (keys: seq<Key>)
      modifies this`latest
      ensures latest == Merge(old(latest), batch)
      ensures LockOrdered(keys) && forall k :: k in keys <==> k in batch
    {
      keys := SortedKeys(batch.Keys);
      hide Stamp, Less, Sorting.Sorted, MergeSome, Merge;
      ghost var before, done := latest, {};
      MergeEnds(before, batch);
      for i := 0 to |keys|
        invariant done <= batch.Keys && forall k :: k in done <==> k in keys[..i]
        invariant latest == MergeSome(before, batch, done)
      {
        var k := keys[i];
        assert k !in keys[..i];
        MergeOne(before, batch, done, k);
        done := done + {k};
        if k !in latest || AtMost(Stamp(latest[k].ts), Stamp(batch[k].ts)) {
          latest := latest[k := batch[k]];
        }
      }
      assert done == batch.Keys;
    }

    /** One bounded DELETE of metric_points. */
    method DeleteRound(cutoff: Instant) returns (n: nat)
      requires Valid()
      modifies this
      ensures Valid() && history == old(history) + [PurgePoints(cutoff, PurgeBatchSize)]
      ensures points == DeleteFirst(old(points), cutoff, PurgeBatchSize) && latest == old(latest)
      ensures n == |old(points)| - |points|
    {
      n := |points| - |DeleteFirst(points, cutoff, PurgeBatchSize)|;
      points := DeleteFirst(points, cutoff, PurgeBatchSize);
      RunStep(history, PurgePoints(cutoff, PurgeBatchSize));
      history := history + [PurgePoints(cutoff, PurgeBatchSize)];
    }

    /** purgeBefore on metric_points. The context ends after `patience` rounds. */
    method PurgeMetricPoints(cutoff: Instant, patience: nat) returns (total: nat, completed: bool)
      requires Valid()
      modifies this
      ensures Valid() && latest == old(latest)
      ensures exists rounds :: history == old(history) + Rounds(cutoff, rounds)
      ensures total == |old(points)| - |points|
      ensures completed ==> points == Survivors(old(points), cutoff)
      ensures !completed ==> points == DeleteFirst(old(points), cutoff, total) && total == PurgeBatchSize * patience
      ensures completed ==> OlderGone(old(points), points, cutoff)
      ensures !completed ==> FirstOlderGone(old(points), points, cutoff, total)
    {
      hide Run, Stamp, Less, Survivors, DeleteFirst;
      total := 0;
      var rounds := 0;
      DeleteNone(points, cutoff);
      assert history == old(history) + Rounds(cutoff, 0);
      while true
        invariant Valid() && latest == old(latest)
        invariant rounds <= patience && total == PurgeBatchSize * rounds
        invariant history == old(history) + Rounds(cutoff, rounds)
        invariant points == DeleteFirst(old(points), cutoff, total) && total == |old(points)| - |points|
        decreases patience - rounds
      {
        if rounds == patience {
          FirstGone(old(points), cutoff, total);
          return total, false;
        }
        ghost var before := points;
        var n := DeleteRound(cutoff);
        DeleteTwice(old(points), cutoff, total, PurgeBatchSize);
        rounds := rounds + 1;
        assert history == old(history) + Rounds(cutoff, rounds) by {
          assert Rounds(cutoff, rounds) == Rounds(cutoff, rounds - 1) + [PurgePoints(cutoff, PurgeBatchSize)];
        }
        total := total + n;
        if n < PurgeBatchSize {
          ShortRoundIsLast(before, cutoff, PurgeBatchSize);
          SurvivorsAfterDelete(old(points), cutoff, total - n);
          SurvivorsExactly(old(points), cutoff);
          return total, true;
        }
      }
    }

    /** purgeBefore on workload_latest: one unbounded DELETE. */
    method PurgeWorkloadLatest(cutoff: Instant)
      requires Valid()
      modifies this
      ensures Valid() && history == old(history) + [PurgeView(cutoff)]
      ensures latest == Keep(old(latest), cutoff) && points == old(points)
      ensures OlderRowsGone(old(latest), latest, cutoff)
    {
      latest := map k | k in latest && !Less(Stamp(latest[k].ts), Stamp(cutoff)) :: latest[k];
      RunStep(history, PurgeView(cutoff));
      history := history + [PurgeView(cutoff)];
    }

    /** Purge: the points first, then the view, unless something in between fails. A context
        that ends only after the last delete makes it truncated, with everything done. */
    method Purge(metricsBefore: Instant, patience: nat, othersOk: bool, endsLate: bool)
      returns (deleted: nat, ok: bool, truncated: bool)
      requires Valid()
      modifies this
      ensures Valid() && deleted == |old(points)| - |points|
      ensures exists rounds :: history == old(history) + Rounds(metricsBefore, rounds)
                               + (if ok || truncated then [PurgeView(metricsBefore)] else [])
      ensures ok ==> othersOk && !endsLate
      ensures truncated ==> othersOk && endsLate
      ensures ok || truncated ==> points == Survivors(old(points), metricsBefore) && latest == Keep(old(latest), metricsBefore)
      ensures ok || truncated ==>
                OlderGone(old(points), points, metricsBefore) && OlderRowsGone(old(latest), latest, metricsBefore)
      ensures ok || truncated ==> forall p :: p in points ==> !Less(Stamp(p.ts), Stamp(metricsBefore))
      ensures !ok && !truncated ==>
                && latest == old(latest)
                && ((!othersOk && OlderGone(old(points), points, metricsBefore))
                    || (deleted == PurgeBatchSize * patience && FirstOlderGone(old(points), points, metricsBefore, deleted)))
    {
      var done;
      deleted, done := PurgeMetricPoints(metricsBefore, patience);
      ghost var rounds :| history == old(history) + Rounds(metricsBefore, rounds);
      if !done || !othersOk {
        assert history == old(history) + Rounds(metricsBefore, rounds) + [];
        return deleted, false, false;
      }
      PurgeWorkloadLatest(metricsBefore);
      NothingOlder(old(points), points, metricsBefore);
      return deleted, !endsLate, endsLate;
    }

    /** ListWorkloads: one snapshot per visible container. For a faithful history whose deletes all used cutoffs at
        or before since, the answer is the one a full scan would give. */
    method ListWorkloads(since: Instant) returns (out: map<string, Snapshot>)
      requires Valid()
      ensures forall c :: c in out ==> c != "" && out[c].container == c
      ensures forall c :: c != "" ==> (c in out <==> ViewUsage(latest, c, Stamp(since)).Some?)
      ensures forall c :: c in out ==> out[c].usage == ViewUsage(latest, c, Stamp(since)).value
      ensures forall c :: c != "" ==> (c in out <==> exists metric :: RowAt(latest, (c, metric), Stamp(since)))
      ensures forall c :: c in out ==> Plainly(out[c].usage, Visible(latest, (c, "cpu.usage"), Stamp(since)),
                                               Visible(latest, (c, "memory.usage"), Stamp(since)),
                                               Visible(latest, (c, "memory.limit"), Stamp(since)))
      ensures forall c :: c in out ==> NamedByNewest(out[c], latest, Stamp(since))
      ensures FaithfulHistory(history) && CutoffsBefore(history, Stamp(since)) ==>
                && (forall c :: c != "" ==> (c in out <==> ScanUsage(points, c, Stamp(since)).Some?))
                && (forall c :: c in out ==> out[c].usage == ScanUsage(points, c, Stamp(since)).value)
    {
      KeysMatch(history);
      hide Stamp, Less, Run, FaithfulHistory, CutoffsBefore, First, Newest, Summary, Plainly, RowAt, NamedByNewest, NamedByFirst;
      var rows := SelectSince(Stamp(since));
      out := Snapshots(rows);
      assert forall c :: RowUsage(rows, c) == ViewUsage(latest, c, Stamp(since));
      ViewPlainly(latest, out, Stamp(since));
      forall c | c in out ensures NamedByNewest(out[c], latest, Stamp(since)) {
        FirstIsNewest(out[c], rows, latest, Stamp(since));
      }
      if FaithfulHistory(history) && CutoffsBefore(history, Stamp(since)) {
        ViewAnswersLikeScan(history, Stamp(since));
        assert forall k: Key :: First(rows, k) == Newest(points, k, Stamp(since));
        assert forall c :: RowUsage(rows, c) == ScanUsage(points, c, Stamp(since));
      }
    }

    /** The query: the view's rows at or after since, newest text first, ties in any order. */
    method SelectSince(since: string) returns (rows: seq<Point>)
      requires forall k :: k in latest ==> Tracked(latest[k]) && KeyOf(latest[k]) == k
      ensures Sorting.Sorted(rows, NewestFirst)
      ensures forall i :: 0 <= i < |rows| ==> WorkloadMetric(rows[i].metric)
      ensures forall i :: 0 <= i < |rows| ==> VisibleRow(latest, rows[i], since)
      ensures forall k :: First(rows, k) == Visible(latest, k, since)
    {
      var keys := CollectKeys(set k | k in latest.Keys && AtMost(since, Stamp(latest[k].ts)));
      hide Stamp, Less;
      assert forall i :: 0 <= i < |keys| ==> keys[i] in keys;
      var found := RowsOf(latest, keys);
      rows := Sorting.Sort(found, NewestFirst);
      NewestFirstIsPreorder();
      Sorting.SortCorrect(found, NewestFirst);
      RowsShowView(latest, keys, found, rows, since);
    }
  }

  function RowsOf(view: map<Key, Point>, keys: seq<Key>): (rows: seq<Point>)
    requires forall i :: 0 <= i < |keys| ==> keys[i] in view
    ensures |rows| == |keys| && forall i :: 0 <= i < |keys| ==> rows[i] == view[keys[i]]
  {
    if keys == [] then [] else RowsOf(view, keys[..|keys| - 1]) + [view[keys[|keys| - 1]]]
  }

  /** A permutation of the visible rows answers every key as the view does. */
  lemma RowsShowView(view: map<Key, Point>, keys: seq<Key>, found: seq<Point>, rows: seq<Point>, since: string)
    requires forall k :: k in view ==> Tracked(view[k]) && KeyOf(view[k]) == k
    requires Sorting.NoDuplicates(keys) && |found| == |keys| && multiset(rows) == multiset(found)
    requires forall k :: k in keys <==> k in view && AtMost(since, Stamp(view[k].ts))
    requires forall i :: 0 <= i < |keys| ==> keys[i] in view && found[i] == view[keys[i]]
    ensures forall i :: 0 <= i < |rows| ==> WorkloadMetric(rows[i].metric) && VisibleRow(view, rows[i], since)
    ensures forall k :: First(rows, k) == Visible(view, k, since)
  {
    hide Stamp, Less, First;
    DistinctRows(view, keys, found);
    Sorting.NoDuplicatesPermuted(found, rows);
    SameMembers(found, rows);
    forall i, m | 0 <= i < |rows| && 0 <= m < |rows| && m != i ensures KeyOf(rows[m]) != KeyOf(rows[i]) {
      OtherRow(view, keys, found, rows, m, i);
    }
    forall i | 0 <= i < |rows| ensures WorkloadMetric(rows[i].metric) && VisibleRow(view, rows[i], since) {
      assert rows[i] in rows;
      var j :| 0 <= j < |found| && found[j] == rows[i];
      assert keys[j] in keys;
    }
    forall k ensures First(rows, k) == Visible(view, k, since) {
      if k in keys {
        var j :| 0 <= j < |keys| && keys[j] == k;
        assert found[j] in found;
        var i :| 0 <= i < |rows| && rows[i] == view[k];
        FirstOfDistinct(rows, i);
      } else {
        forall i | 0 <= i < |rows| ensures KeyOf(rows[i]) != k {
          assert rows[i] in rows;
          var j :| 0 <= j < |found| && found[j] == rows[i];
          assert keys[j] in keys;
        }
        FirstNone(rows, k);
      }
    }
  }

  lemma SameMembers(a: seq<Point>, b: seq<Point>)
    requires multiset(a) == multiset(b)
    ensures forall p :: p in a <==> p in b
  {
    forall p ensures p in a <==> p in b {
      assert p in a <==> p in multiset(a);
      assert p in b <==> p in multiset(b);
    }
  }

  lemma DistinctRows(view: map<Key, Point>, keys: seq<Key>, found: seq<Point>)
    requires forall k :: k in view ==> KeyOf(view[k]) == k
    requires Sorting.NoDuplicates(keys) && |found| == |keys|
    requires forall j :: 0 <= j < |keys| ==> keys[j] in view && found[j] == view[keys[j]]
    ensures Sorting.NoDuplicates(found)
  {
    forall i, j | 0 <= i < j < |found| ensures found[i] != found[j] {
      assert KeyOf(found[i]) == keys[i] && KeyOf(found[j]) == keys[j];
    }
  }

  lemma OtherRow(view: map<Key, Point>, keys: seq<Key>, found: seq<Point>, rows: seq<Point>, m: nat, i: nat)
    requires forall k :: k in view ==> KeyOf(view[k]) == k
    requires |found| == |keys| && forall j :: 0 <= j < |keys| ==> keys[j] in view && found[j] == view[keys[j]]
    requires Sorting.NoDuplicates(rows) && m < |rows| && i < |rows| && m != i
    requires rows[m] in found && rows[i] in found
    ensures KeyOf(rows[m]) != KeyOf(rows[i])
  {
    var a :| 0 <= a < |found| && found[a] == rows[m];
    var b :| 0 <= b < |found| && found[b] == rows[i];
    assert rows[m] != rows[i];
  }

  /** ORDER BY ts DESC. */
  predicate NewestFirst(a: Point, b: Point) {
    AtMost(Stamp(b.ts), Stamp(a.ts))
  }

  lemma NewestFirstIsPreorder()
    ensures Sorting.TotalPreorder(NewestFirst)
  {
    forall x: Point, y: Point, z: Point
      ensures NewestFirst(x, y) || NewestFirst(y, x)
      ensures NewestFirst(x, y) && NewestFirst(y, z) ==> NewestFirst(x, z)
    {
      OrderFacts(Stamp(x.ts), Stamp(y.ts), Stamp(z.ts));
      OrderFacts(Stamp(z.ts), Stamp(y.ts), Stamp(x.ts));
    }
  }

  /** Reading a Go map into a slice: every key once, in some order. */
  method CollectKeys(keys: set<Key>) returns (out: seq<Key>)
    ensures Sorting.NoDuplicates(out) && forall k :: k in out <==> k in keys
  {
    out := [];
    var rest := keys;
    while rest != {}
      invariant rest <= keys && Sorting.NoDuplicates(out)
      invariant forall k :: k in out <==> k in keys && k !in rest
      decreases rest
    {
      var k :| k in rest;
      out := out + [k];
      rest := rest - {k};
    }
  }

  /** The keys of a map in lock order, whatever order the map is read in. */
  method SortedKeys(keys: set<Key>) returns (out: seq<Key>)
    ensures LockOrdered(out) && forall k :: k in out <==> k in keys
  {
    var collected := CollectKeys(keys);
    out := Sorting.Sort(collected, KeyAtMost);
    KeyOrderIsTotal();
    Sorting.SortCorrect(collected, KeyAtMost);
    Sorting.NoDuplicatesPermuted(collected, out);
    forall k ensures k in out <==> k in keys {
      assert k in out <==> k in multiset(out);
      assert k in collected <==> k in multiset(collected);
    }
  }

  // ---- the batched delete ----

  /** The rows a complete purge leaves. */
  function Survivors(ps: seq<Point>, cutoff: Instant): seq<Point> {
    if ps == [] then []
    else (if Less(Stamp(ps[0].ts), Stamp(cutoff)) then [] else [ps[0]]) + Survivors(ps[1..], cutoff)
  }

  /** The rows of the view that are older than the cutoff are gone, the others are as they were. */
  ghost predicate OlderRowsGone(all: map<Key, Point>, left: map<Key, Point>, cutoff: Instant) {
    && (forall k :: k in left <==> k in all && !Less(Stamp(all[k].ts), Stamp(cutoff)))
    && forall k :: k in left && k in all ==> left[k] == all[k]
  }

  lemma {:induction false} SurvivorsAreLeft(ps: seq<Point>, cutoff: Instant)
    ensures Survivors(ps, cutoff) == DeleteFirst(ps, cutoff, CountOlder(ps, cutoff))
  {
    hide Stamp, Less;
    if ps != [] {
      SurvivorsAreLeft(ps[1..], cutoff);
      NoneOlder(ps, cutoff);
      NoneOlder(ps[1..], cutoff);
      if CountOlder(ps, cutoff) == 0 {
        DeleteNone(ps[1..], cutoff);
        assert ps == [ps[0]] + ps[1..];
      }
    }
  }

  lemma NoneOlder(ps: seq<Point>, cutoff: Instant)
    ensures ps != [] && CountOlder(ps, cutoff) == 0 ==> !Older(ps[0].ts, cutoff) && CountOlder(ps[1..], cutoff) == 0
  {
    hide Older;
  }

  lemma SurvivorsExactly(ps: seq<Point>, cutoff: Instant)
    ensures OlderGone(ps, Survivors(ps, cutoff), cutoff)
  {
    SurvivorsAreLeft(ps, cutoff);
    DeleteAllExactly(ps, cutoff, CountOlder(ps, cutoff));
  }

  lemma FirstGone(ps: seq<Point>, cutoff: Instant, n: nat)
    ensures FirstOlderGone(ps, DeleteFirst(ps, cutoff, n), cutoff, n)
  {
    var places := DeleteFirstExactly(ps, cutoff, n);
  }

  lemma NothingOlder(all: seq<Point>, left: seq<Point>, cutoff: Instant)
    requires OlderGone(all, left, cutoff)
    ensures forall p :: p in left ==> !Less(Stamp(p.ts), Stamp(cutoff))
  {
    hide Stamp, Less;
    var places :| Picked(all, left, places) && forall j :: 0 <= j < |all| ==> (j in places <==> !Older(all[j].ts, cutoff));
    forall p | p in left ensures !Less(Stamp(p.ts), Stamp(cutoff)) {
      var i :| 0 <= i < |left| && left[i] == p;
      assert places[i] in places;
    }
  }

  function Rounds(cutoff: Instant, n: nat): seq<Event> {
    seq(n, i => PurgePoints(cutoff, PurgeBatchSize))
  }

  lemma {:induction false} DeleteNone(ps: seq<Point>, cutoff: Instant)
    ensures DeleteFirst(ps, cutoff, 0) == ps
  {
  }

  /** Deleting m and then n more is deleting m + n when the first round was full. */
  lemma {:induction false} DeleteTwice(ps: seq<Point>, cutoff: Instant, m: nat, n: nat)
    ensures DeleteFirst(DeleteFirst(ps, cutoff, m), cutoff, n) == DeleteFirst(ps, cutoff, m + n)
  {
    hide Stamp, Less;
    if ps != [] && m > 0 {
      if Less(Stamp(ps[0].ts), Stamp(cutoff)) {
        DeleteTwice(ps[1..], cutoff, m - 1, n);
      } else {
        DeleteTwice(ps[1..], cutoff, m, n);
        var r := DeleteFirst(ps[1..], cutoff, m);
        assert ([ps[0]] + r)[1..] == r;
      }
    }
  }

  /** A round that deletes fewer rows than its limit leaves nothing to delete. */
  lemma {:induction false} ShortRoundIsLast(ps: seq<Point>, cutoff: Instant, limit: nat)
    requires |ps| - |DeleteFirst(ps, cutoff, limit)| < limit
    ensures DeleteFirst(ps, cutoff, limit) == Survivors(ps, cutoff)
  {
    hide Stamp, Less;
    if ps != [] {
      if Less(Stamp(ps[0].ts), Stamp(cutoff)) {
        ShortRoundIsLast(ps[1..], cutoff, limit - 1);
      } else {
        ShortRoundIsLast(ps[1..], cutoff, limit);
      }
    }
  }

  lemma {:induction false} SurvivorsAfterDelete(ps: seq<Point>, cutoff: Instant, m: nat)
    ensures Survivors(DeleteFirst(ps, cutoff, m), cutoff) == Survivors(ps, cutoff)
  {
    hide Stamp, Less;
    if ps != [] && m > 0 {
      if Less(Stamp(ps[0].ts), Stamp(cutoff)) {
        SurvivorsAfterDelete(ps[1..], cutoff, m - 1);
      } else {
        SurvivorsAfterDelete(ps[1..], cutoff, m);
        var r := DeleteFirst(ps[1..], cutoff, m);
        assert ([ps[0]] + r)[1..] == r;
      }
    }
  }
}
