/** workload_latest: one row per container and metric, kept by an upsert in the
    transaction that writes metric_points, in place of a scan over those points. */
module WorkloadLatest {
  import opened Wrappers
  import opened Text
  import opened Rfc3339
  import Sorting

  datatype Point = Point(metric: string, ts: Instant, value: real, entity: string, labels: map<string, string>)

  /** (container, metric name) */
  type Key = (string, string)

  predicate WorkloadMetric(name: string) {
    name == "cpu.usage" || name == "memory.usage" || name == "memory.limit"
  }

  function Container(p: Point): string {
    if "container" in p.labels then p.labels["container"] else ""
  }

  predicate Tracked(p: Point) {
    WorkloadMetric(p.metric) && Container(p) != ""
  }

  function KeyOf(p: Point): Key {
    (Container(p), p.metric)
  }

  // ---- what a batch and a purge do to the two tables ----

  datatype Db = Db(points: seq<Point>, latest: map<Key, Point>)

  datatype Event =
    | Commit(batch: seq<Point>)
    | PurgePoints(cutoff: Instant, limit: nat)
    | PurgeView(cutoff: Instant)

  /** The candidate rows of one batch, picked by time; ties go to the later point. */
  function BatchLatest(ps: seq<Point>): (m: map<Key, Point>)
    ensures forall k :: k in m ==> Tracked(m[k]) && KeyOf(m[k]) == k
  {
    if ps == [] then map[] else
      var m := BatchLatest(ps[..|ps| - 1]);
      var p := ps[|ps| - 1];
      if Tracked(p) && (KeyOf(p) !in m || !Before(p.ts, m[KeyOf(p)].ts)) then m[KeyOf(p) := p] else m
  }

  /** Whether the conditional upsert writes: the texts are compared. */
  predicate Replaces(p: Point, view: map<Key, Point>, k: Key) {
    k !in view || AtMost(Stamp(view[k].ts), Stamp(p.ts))
  }

  function Merge(view: map<Key, Point>, batch: map<Key, Point>): map<Key, Point> {
    map k | k in view.Keys + batch.Keys ::
      if k in batch && Replaces(batch[k], view, k) then batch[k] else view[k]
  }

  /** DELETE of the oldest ids among the rows before the cutoff, at most limit of them. */
  function DeleteFirst(ps: seq<Point>, cutoff: Instant, limit: nat): (r: seq<Point>)
    ensures |r| <= |ps| && |ps| - |r| <= limit
  {
    if ps == [] || limit == 0 then ps
    else if Less(Stamp(ps[0].ts), Stamp(cutoff)) then DeleteFirst(ps[1..], cutoff, limit - 1)
    else [ps[0]] + DeleteFirst(ps[1..], cutoff, limit)
  }

  function Keep(view: map<Key, Point>, cutoff: Instant): map<Key, Point> {
    map k | k in view && !Less(Stamp(view[k].ts), Stamp(cutoff)) :: view[k]
  }

  function Apply(db: Db, e: Event): Db {
    match e
    case Commit(ps) => Db(db.points + ps, Merge(db.latest, BatchLatest(ps)))
    case PurgePoints(cutoff, limit) => db.(points := DeleteFirst(db.points, cutoff, limit))
    case PurgeView(cutoff) => db.(latest := Keep(db.latest, cutoff))
  }

  /** The tables after any history of commits and deletes, from empty tables. */
  function Run(events: seq<Event>): Db {
    if events == [] then Db([], map[]) else Apply(Run(events[..|events| - 1]), events[|events| - 1])
  }

  // ---- the scan that the view replaces ----

  /** One row of the scan: p when it matches the key and the window. */
  function Match(p: Point, k: Key, since: string): Option<Point> {
    if Tracked(p) && KeyOf(p) == k && AtMost(since, Stamp(p.ts)) then Some(p) else None
  }

  /** Of two rows the textually newer, and the second one on ties. */
  function Prefer(x: Option<Point>, y: Option<Point>): Option<Point> {
    if y.Some? && (x.None? || AtMost(Stamp(x.value.ts), Stamp(y.value.ts))) then y else x
  }

  /** The newest point of a key at or after since, by text; the last written one on ties. */
  function Newest(ps: seq<Point>, k: Key, since: string): Option<Point> {
    if ps == [] then None
    else Prefer(Newest(ps[..|ps| - 1], k, since), Match(ps[|ps| - 1], k, since))
  }

  /** The view's row of a key, if it is at or after since. */
  function Visible(view: map<Key, Point>, k: Key, since: string): Option<Point> {
    if k in view && AtMost(since, Stamp(view[k].ts)) then Some(view[k]) else None
  }

  /** The point picked by time is not beaten by text: what one batch must satisfy. */
  ghost predicate Faithful(ps: seq<Point>) {
    forall i :: 0 <= i < |ps| && Tracked(ps[i]) ==>
      KeyOf(ps[i]) in BatchLatest(ps) && AtMost(Stamp(ps[i].ts), Stamp(BatchLatest(ps)[KeyOf(ps[i])].ts))
  }

  /** No two points of one key within the batch have texts that sort against time. */
  ghost predicate NoInversion(ps: seq<Point>) {
    forall i, j :: 0 <= i < |ps| && 0 <= j < |ps| && Tracked(ps[i]) && Tracked(ps[j]) && KeyOf(ps[i]) == KeyOf(ps[j])
      ==> !Inverted(ps[i].ts, ps[j].ts)
  }

  ghost predicate FaithfulHistory(events: seq<Event>) {
    forall e :: e in events && e.Commit? ==> Faithful(e.batch)
  }

  /** Every delete so far used a cutoff at or before since. */
  ghost predicate CutoffsBefore(events: seq<Event>, since: string) {
    forall e :: e in events && !e.Commit? ==> AtMost(Stamp(e.cutoff), since)
  }

  // ---- BatchLatest ----

  lemma {:induction false} BatchLatestIsTimeMaximum(ps: seq<Point>)
    ensures forall i :: 0 <= i < |ps| && Tracked(ps[i]) ==>
              KeyOf(ps[i]) in BatchLatest(ps) && !Before(BatchLatest(ps)[KeyOf(ps[i])].ts, ps[i].ts)
    ensures forall k :: k in BatchLatest(ps) ==> BatchLatest(ps)[k] in ps
  {
    if ps != [] {
      var init := ps[..|ps| - 1];
      BatchLatestIsTimeMaximum(init);
      forall i | 0 <= i < |ps| && Tracked(ps[i])
        ensures KeyOf(ps[i]) in BatchLatest(ps) && !Before(BatchLatest(ps)[KeyOf(ps[i])].ts, ps[i].ts)
      {
        if i < |ps| - 1 {
          assert init[i] == ps[i];
        }
      }
    }
  }

  /** The three metrics the view keeps, of points that name a container. */
  predicate InView(p: Point, container: string, metric: string) {
    && p.metric == metric && (metric == "cpu.usage" || metric == "memory.usage" || metric == "memory.limit")
    && container != "" && "container" in p.labels && p.labels["container"] == container
  }

  /** The answer is the last of the points latest in time, if there are any. */
  ghost predicate LastPick(ps: seq<Point>, w: Option<Point>, container: string, metric: string) {
    if w.None? then forall i :: 0 <= i < |ps| ==> !InView(ps[i], container, metric)
    else exists i :: 0 <= i < |ps| && ps[i] == w.value && InView(ps[i], container, metric)
                     && LastLatest(ps, i, container, metric)
  }

  function Candidate(ps: seq<Point>, k: Key): Option<Point> {
    if k in BatchLatest(ps) then Some(BatchLatest(ps)[k]) else None
  }

  /** A batch picks, for each container and metric it has points of, the latest in
      time, and of equally late ones the last. */
  lemma {:induction false} BatchPicksLastLatest(ps: seq<Point>, container: string, metric: string)
    ensures LastPick(ps, Candidate(ps, (container, metric)), container, metric)
    ensures (container, metric) in BatchLatest(ps) <==> exists i :: 0 <= i < |ps| && InView(ps[i], container, metric)
  {
    hide Before;
    if ps != [] {
      var init, p := ps[..|ps| - 1], ps[|ps| - 1];
      BatchPicksLastLatest(init, container, metric);
      assert ps == init + [p];
      CandidateOf(init, p, (container, metric));
      hide BatchLatest;
      LastPickStep(init, p, Candidate(init, (container, metric)), container, metric);
    }
  }

  lemma CandidateOf(ps: seq<Point>, p: Point, k: Key)
    ensures Candidate(ps + [p], k) ==
            if InView(p, k.0, k.1) && (Candidate(ps, k).None? || !Before(p.ts, Candidate(ps, k).value.ts)) then Some(p)
            else Candidate(ps, k)
  {
    hide Before;
    assert (ps + [p])[..|ps|] == ps;
  }

  lemma LastPickStep(ps: seq<Point>, p: Point, w: Option<Point>, container: string, metric: string)
    requires LastPick(ps, w, container, metric)
    ensures LastPick(ps + [p], if InView(p, container, metric) && (w.None? || !Before(p.ts, w.value.ts)) then Some(p) else w,
                     container, metric)
  {
    hide InView, Before;
    var more, n := ps + [p], |ps|;
    assert more[n] == p && forall j :: 0 <= j < n ==> more[j] == ps[j];
    TimeTotal(p.ts, p.ts);
    if w.Some? {
      var i :| 0 <= i < n && ps[i] == w.value && InView(ps[i], container, metric) && LastLatest(ps, i, container, metric);
      LongerBatch(ps, p, i, container, metric);
      assert more[i] == ps[i];
    } else if InView(p, container, metric) {
      assert LastLatest(more, n, container, metric);
    }
  }

  /** No point of the key is later in time than the i-th, and none after it is as late. */
  ghost predicate LastLatest(ps: seq<Point>, i: nat, container: string, metric: string)
    requires i < |ps|
  {
    forall j :: 0 <= j < |ps| && InView(ps[j], container, metric) ==>
      if j <= i then !Before(ps[i].ts, ps[j].ts) else Before(ps[j].ts, ps[i].ts)
  }

  lemma LongerBatch(ps: seq<Point>, p: Point, i: nat, container: string, metric: string)
    requires i < |ps| && LastLatest(ps, i, container, metric)
    ensures !InView(p, container, metric) || Before(p.ts, ps[i].ts) ==> LastLatest(ps + [p], i, container, metric)
    ensures !Before(p.ts, ps[i].ts) ==> LastLatest(ps + [p], |ps|, container, metric)
  {
    hide InView;
    var more := ps + [p];
    assert more[|ps|] == p && forall j :: 0 <= j < |ps| ==> more[j] == ps[j];
    if !Before(p.ts, ps[i].ts) {
      forall j | 0 <= j < |ps| && InView(more[j], container, metric) ensures !Before(p.ts, more[j].ts) {
        assert InView(ps[j], container, metric);
        TimeChains(p.ts, ps[i].ts, ps[j].ts);
      }
      TimeTotal(p.ts, p.ts);
    }
  }

  lemma TimeChains(a: Instant, b: Instant, c: Instant)
    ensures !Before(a, b) && !Before(b, c) ==> !Before(a, c)
  {
  }

  /** Stamps of one key without inversions make a batch faithful. */
  lemma NoInversionIsFaithful(ps: seq<Point>)
    requires NoInversion(ps)
    ensures Faithful(ps)
  {
    hide Stamp;
    BatchLatestIsTimeMaximum(ps);
    forall i | 0 <= i < |ps| && Tracked(ps[i])
      ensures AtMost(Stamp(ps[i].ts), Stamp(BatchLatest(ps)[KeyOf(ps[i])].ts))
    {
      var w := BatchLatest(ps)[KeyOf(ps[i])];
      var j :| 0 <= j < |ps| && ps[j] == w;
      OrderFacts(Stamp(ps[i].ts), Stamp(w.ts), "");
      if Before(ps[i].ts, w.ts) {
        StampOrder(ps[i].ts, w.ts);
      } else {
        TimeTotal(ps[i].ts, w.ts);
      }
    }
  }

  // ---- the scan ----

  lemma PreferAssociative(x: Option<Point>, y: Option<Point>, z: Option<Point>)
    ensures Prefer(Prefer(x, y), z) == Prefer(x, Prefer(y, z))
  {
    hide Stamp;
    if x.Some? && y.Some? && z.Some? {
      OrderFacts(Stamp(x.value.ts), Stamp(y.value.ts), Stamp(z.value.ts));
      OrderFacts(Stamp(y.value.ts), Stamp(z.value.ts), Stamp(x.value.ts));
      OrderFacts(Stamp(x.value.ts), Stamp(z.value.ts), Stamp(y.value.ts));
      OrderFacts(Stamp(y.value.ts), Stamp(x.value.ts), Stamp(z.value.ts));
    }
  }

  lemma {:induction false} NewestAppend(a: seq<Point>, b: seq<Point>, k: Key, since: string)
    ensures Newest(a + b, k, since) == Prefer(Newest(a, k, since), Newest(b, k, since))
  {
    if b == [] {
      assert a + b == a;
    } else {
      var c, p := b[..|b| - 1], b[|b| - 1];
      NewestAppend(a, c, k, since);
      assert (a + b)[..|a + b| - 1] == a + c && (a + b)[|a + b| - 1] == p;
      PreferAssociative(Newest(a, k, since), Newest(c, k, since), Match(p, k, since));
    }
  }

  lemma {:induction false} NewestIsMaximum(ps: seq<Point>, k: Key, since: string)
    ensures Newest(ps, k, since).Some? ==>
              var w := Newest(ps, k, since).value;
              w in ps && Tracked(w) && KeyOf(w) == k && AtMost(since, Stamp(w.ts))
    ensures forall i :: 0 <= i < |ps| && Tracked(ps[i]) && KeyOf(ps[i]) == k && AtMost(since, Stamp(ps[i].ts)) ==>
              Newest(ps, k, since).Some? && AtMost(Stamp(ps[i].ts), Stamp(Newest(ps, k, since).value.ts))
  {
    hide Stamp;
    if ps != [] {
      var init, p := ps[..|ps| - 1], ps[|ps| - 1];
      NewestIsMaximum(init, k, since);
      forall i | 0 <= i < |ps| && Tracked(ps[i]) && KeyOf(ps[i]) == k && AtMost(since, Stamp(ps[i].ts))
        ensures Newest(ps, k, since).Some? && AtMost(Stamp(ps[i].ts), Stamp(Newest(ps, k, since).value.ts))
      {
        OrderFacts(Stamp(p.ts), Stamp(p.ts), "");
        if i < |ps| - 1 {
          assert init[i] == ps[i];
          OrderFacts(Stamp(ps[i].ts), Stamp(Newest(init, k, since).value.ts), Stamp(p.ts));
        }
        if Newest(init, k, since).Some? {
          OrderFacts(Stamp(p.ts), Stamp(Newest(init, k, since).value.ts), "");
        }
      }
    }
  }

  /** The answer is the last of the rows with the greatest visible stamp, if there are any. */
  ghost predicate LastWins(ps: seq<Point>, w: Option<Point>, container: string, metric: string, since: string) {
    if w.None? then forall i :: 0 <= i < |ps| ==> !Seen(ps[i], container, metric, since)
    else exists i :: 0 <= i < |ps| && ps[i] == w.value && Seen(ps[i], container, metric, since)
                     && LastGreatest(ps, i, container, metric, since)
  }

  /** Of the rows with the greatest visible stamp the scan takes the last. */
  lemma {:induction false} NewestIsLastMaximum(ps: seq<Point>, container: string, metric: string, since: string)
    ensures LastWins(ps, Newest(ps, (container, metric), since), container, metric, since)
  {
    hide Stamp;
    if ps != [] {
      var init, p := ps[..|ps| - 1], ps[|ps| - 1];
      NewestIsLastMaximum(init, container, metric, since);
      assert ps == init + [p];
      assert Match(p, (container, metric), since) == if Seen(p, container, metric, since) then Some(p) else None;
      hide LastWins, Newest, Seen;
      if !Seen(p, container, metric, since) {
        UnseenRow(init, p, Newest(init, (container, metric), since), container, metric, since);
      } else {
        SeenRow(init, p, Newest(init, (container, metric), since), container, metric, since);
      }
    }
  }

  lemma UnseenRow(ps: seq<Point>, p: Point, w: Option<Point>, container: string, metric: string, since: string)
    requires LastWins(ps, w, container, metric, since) && !Seen(p, container, metric, since)
    ensures LastWins(ps + [p], w, container, metric, since)
  {
    hide Seen, LastGreatest;
    var more := ps + [p];
    if w.Some? {
      var i :| 0 <= i < |ps| && ps[i] == w.value && Seen(ps[i], container, metric, since) && LastGreatest(ps, i, container, metric, since);
      LongerTable(ps, p, i, container, metric, since);
      assert more[i] == ps[i];
    }
  }

  lemma SeenRow(ps: seq<Point>, p: Point, w: Option<Point>, container: string, metric: string, since: string)
    requires LastWins(ps, w, container, metric, since) && Seen(p, container, metric, since)
    ensures LastWins(ps + [p], Prefer(w, Some(p)), container, metric, since)
  {
    hide Seen, Stamp, Less;
    var more, n := ps + [p], |ps|;
    assert more[n] == p && forall j :: 0 <= j < n ==> more[j] == ps[j];
    if w.Some? {
      var i :| 0 <= i < n && ps[i] == w.value && Seen(ps[i], container, metric, since) && LastGreatest(ps, i, container, metric, since);
      LongerTable(ps, p, i, container, metric, since);
      assert more[i] == ps[i];
    } else {
      OrderFacts(Stamp(p.ts), Stamp(p.ts), "");
      assert LastGreatest(more, n, container, metric, since);
    }
  }

  predicate Seen(p: Point, container: string, metric: string, since: string) {
    InView(p, container, metric) && AtMost(since, Stamp(p.ts))
  }

  /** No visible row of the key has a greater stamp than the i-th, and none after it as great a one. */
  ghost predicate LastGreatest(ps: seq<Point>, i: nat, container: string, metric: string, since: string)
    requires i < |ps|
  {
    forall j :: 0 <= j < |ps| && Seen(ps[j], container, metric, since) ==>
      if j <= i then AtMost(Stamp(ps[j].ts), Stamp(ps[i].ts)) else Less(Stamp(ps[j].ts), Stamp(ps[i].ts))
  }

  lemma LongerTable(ps: seq<Point>, p: Point, i: nat, container: string, metric: string, since: string)
    requires i < |ps| && LastGreatest(ps, i, container, metric, since)
    ensures !Seen(p, container, metric, since) || !AtMost(Stamp(ps[i].ts), Stamp(p.ts)) ==>
              LastGreatest(ps + [p], i, container, metric, since)
    ensures AtMost(Stamp(ps[i].ts), Stamp(p.ts)) ==> LastGreatest(ps + [p], |ps|, container, metric, since)
  {
    hide Seen, Stamp, Less;
    var more := ps + [p];
    assert more[|ps|] == p && forall j :: 0 <= j < |ps| ==> more[j] == ps[j];
    if AtMost(Stamp(ps[i].ts), Stamp(p.ts)) {
      forall j | 0 <= j < |more| && Seen(more[j], container, metric, since) ensures AtMost(Stamp(more[j].ts), Stamp(p.ts)) {
        if j < |ps| {
          assert Seen(ps[j], container, metric, since);
          OrderFacts(Stamp(ps[j].ts), Stamp(ps[i].ts), Stamp(p.ts));
          OrderFacts(Stamp(ps[i].ts), Stamp(ps[j].ts), "");
        } else {
          OrderFacts(Stamp(p.ts), Stamp(p.ts), "");
        }
      }
    }
  }

  /** For a faithful batch the time pick is the scan's pick. */
  lemma {:induction false} PickIsNewest(ps: seq<Point>, k: Key)
    requires k in BatchLatest(ps)
    requires forall i :: 0 <= i < |ps| && Tracked(ps[i]) && KeyOf(ps[i]) == k ==>
               AtMost(Stamp(ps[i].ts), Stamp(BatchLatest(ps)[k].ts))
    ensures Newest(ps, k, "") == Some(BatchLatest(ps)[k])
  {
    hide Stamp;
    var init, p, w := ps[..|ps| - 1], ps[|ps| - 1], BatchLatest(ps)[k];
    BatchLatestIsTimeMaximum(ps);
    NewestIsMaximum(init, k, "");
    if Tracked(p) && KeyOf(p) == k {
      if Newest(init, k, "").Some? {
        var o := Newest(init, k, "").value;
        var j :| 0 <= j < |init| && init[j] == o;
        assert ps[j] == o;
      }
      if w != p {
        // an earlier point won although p is not textually later
        assert k in BatchLatest(init) && BatchLatest(init)[k] == w && Before(p.ts, w.ts);
        assert forall i :: 0 <= i < |init| ==> init[i] == ps[i];
        PickIsNewest(init, k);
        assert AtMost(Stamp(p.ts), Stamp(w.ts));
        OrderFacts(Stamp(p.ts), Stamp(w.ts), "");
        StampInjective(p.ts, w.ts);
      }
    } else {
      assert forall i :: 0 <= i < |init| ==> init[i] == ps[i];
      PickIsNewest(init, k);
    }
  }

  /** Raising since only hides the winner, it never changes it. */
  lemma {:induction false} NewestSince(ps: seq<Point>, k: Key, since: string)
    ensures var w := Newest(ps, k, "");
            Newest(ps, k, since) == if w.Some? && AtMost(since, Stamp(w.value.ts)) then w else None
  {
    hide Stamp;
    if ps != [] {
      var init, p := ps[..|ps| - 1], ps[|ps| - 1];
      NewestSince(init, k, since);
      var o := Newest(init, k, "");
      if o.Some? {
        OrderFacts(since, Stamp(o.value.ts), Stamp(p.ts));
        OrderFacts(Stamp(o.value.ts), Stamp(p.ts), since);
        OrderFacts(since, Stamp(p.ts), Stamp(o.value.ts));
      }
    }
  }

  // ---- one event ----

  lemma CommitAgrees(db: Db, ps: seq<Point>, ever: seq<Point>, k: Key, since: string)
    requires Faithful(ps)
    requires Visible(db.latest, k, since) == Newest(ever, k, since)
    requires k in db.latest ==> KeyOf(db.latest[k]) == k
    ensures Visible(Merge(db.latest, BatchLatest(ps)), k, since) == Newest(ever + ps, k, since)
  {
    hide Stamp;
    NewestAppend(ever, ps, k, since);
    NewestSince(ps, k, since);
    BatchLatestIsTimeMaximum(ps);
    if k in BatchLatest(ps) {
      var q := BatchLatest(ps)[k];
      PickIsNewest(ps, k);
      if k in db.latest {
        var r := db.latest[k];
        OrderFacts(since, Stamp(r.ts), Stamp(q.ts));
        OrderFacts(since, Stamp(q.ts), Stamp(r.ts));
        OrderFacts(Stamp(r.ts), Stamp(q.ts), since);
      }
    } else {
      NewestIsMaximum(ps, k, "");
    }
  }

  lemma {:induction false} DeleteKeepsNewest(ps: seq<Point>, cutoff: Instant, limit: nat, k: Key, since: string)
    requires AtMost(Stamp(cutoff), since)
    ensures Newest(DeleteFirst(ps, cutoff, limit), k, since) == Newest(ps, k, since)
  {
    hide Stamp;
    if ps != [] && limit > 0 {
      var head, tail := [ps[0]], ps[1..];
      assert ps == head + tail;
      NewestAppend(head, tail, k, since);
      OneRow(ps[0], k, since);
      if Less(Stamp(ps[0].ts), Stamp(cutoff)) {
        DeleteKeepsNewest(tail, cutoff, limit - 1, k, since);
        OrderFacts(Stamp(cutoff), since, Stamp(ps[0].ts));
        assert DeleteFirst(ps, cutoff, limit) == DeleteFirst(tail, cutoff, limit - 1);
        hide Newest, DeleteFirst;
      } else {
        DeleteKeepsNewest(tail, cutoff, limit, k, since);
        assert DeleteFirst(ps, cutoff, limit) == head + DeleteFirst(tail, cutoff, limit);
        hide Newest, DeleteFirst;
        NewestAppend(head, DeleteFirst(tail, cutoff, limit), k, since);
      }
    }
  }

  lemma OneRow(p: Point, k: Key, since: string)
    ensures Newest([p], k, since) == Match(p, k, since)
  {
    assert [p][..0] == [];
    assert Newest([p][..0], k, since) == None;
  }

  /** The text of a stamp is before that of the cutoff. */
  predicate Older(t: Instant, cutoff: Instant) {
    Less(Stamp(t), Stamp(cutoff))
  }

  /** What is left of a table: the rows at these places, in their order. */
  ghost predicate Picked(all: seq<Point>, left: seq<Point>, places: seq<nat>) {
    && |places| == |left|
    && (forall i, j :: 0 <= i < j < |places| ==> places[i] < places[j])
    && forall i :: 0 <= i < |places| ==> places[i] < |all| && left[i] == all[places[i]]
  }

  function CountOlder(ps: seq<Point>, cutoff: Instant): nat {
    if ps == [] then 0 else (if Older(ps[0].ts, cutoff) then 1 else 0) + CountOlder(ps[1..], cutoff)
  }

  /** Exactly the first n rows that are older than the cutoff are gone. */
  ghost predicate FirstOlderGone(all: seq<Point>, left: seq<Point>, cutoff: Instant, n: nat) {
    exists places :: Picked(all, left, places) &&
      forall j :: 0 <= j < |all| ==> (j in places <==> !Older(all[j].ts, cutoff) || CountOlder(all[..j], cutoff) >= n)
  }

  /** Exactly the rows that are older than the cutoff are gone. */
  ghost predicate OlderGone(all: seq<Point>, left: seq<Point>, cutoff: Instant) {
    exists places :: Picked(all, left, places) &&
      forall j :: 0 <= j < |all| ==> (j in places <==> !Older(all[j].ts, cutoff))
  }

  function Shifted(places: seq<nat>): seq<nat> {
    seq(|places|, i requires 0 <= i < |places| => places[i] + 1)
  }

  lemma ShiftedIn(places: seq<nat>, j: nat)
    ensures j + 1 in Shifted(places) <==> j in places
    ensures 0 !in Shifted(places)
  {
    if j in places {
      var i :| 0 <= i < |places| && places[i] == j;
      assert Shifted(places)[i] == j + 1;
    }
  }

  /** Putting a row in front that is gone. */
  lemma PickedBehind(p: Point, all: seq<Point>, left: seq<Point>, places: seq<nat>)
    requires Picked(all, left, places)
    ensures Picked([p] + all, left, Shifted(places)) && 0 !in Shifted(places)
  {
    assert forall i :: 0 <= i < |all| ==> ([p] + all)[i + 1] == all[i];
  }

  /** Keeping the first row as well. */
  lemma PickedFirst(all: seq<Point>, left: seq<Point>, places: seq<nat>)
    requires Picked(all, left, places) && all != [] && 0 !in places
    ensures Picked(all, [all[0]] + left, [0] + places)
  {
    var more := [0] + places;
    forall i, j | 0 <= i < j < |more| ensures more[i] < more[j] {
      assert more[j] == places[j - 1] && places[j - 1] in places;
      if i > 0 {
        assert more[i] == places[i - 1];
      }
    }
  }

  /** A bounded delete takes the first older rows, at most its limit, and no others. */
  lemma {:induction false} DeleteFirstExactly(ps: seq<Point>, cutoff: Instant, limit: nat) returns (places: seq<nat>)
    ensures Picked(ps, DeleteFirst(ps, cutoff, limit), places)
    ensures forall j :: 0 <= j < |ps| ==> (j in places <==> !Older(ps[j].ts, cutoff) || CountOlder(ps[..j], cutoff) >= limit)
  {
    hide Stamp, Less;
    if ps == [] {
      places := [];
    } else if limit == 0 {
      places := seq(|ps|, i => i);
      forall j: nat | j < |ps| ensures j in places {
        assert places[j] == j;
      }
    } else {
      var older := Older(ps[0].ts, cutoff);
      var rest := DeleteFirstExactly(ps[1..], cutoff, if older then limit - 1 else limit);
      assert ps == [ps[0]] + ps[1..];
      var left := DeleteFirst(ps[1..], cutoff, if older then limit - 1 else limit);
      PickedBehind(ps[0], ps[1..], left, rest);
      places := Shifted(rest);
      if !older {
        PickedFirst(ps, left, places);
        places := [0] + places;
      }
      hide Picked, DeleteFirst, Older, CountOlder, Shifted;
      forall j | 0 <= j < |ps|
        ensures j in places <==> !Older(ps[j].ts, cutoff) || CountOlder(ps[..j], cutoff) >= limit
      {
        PlaceOf(ps, cutoff, rest, j);
      }
    }
  }

  /** A place of the whole list is the place before it of the tail. */
  lemma PlaceOf(ps: seq<Point>, cutoff: Instant, rest: seq<nat>, j: nat)
    requires j < |ps|
    ensures 0 !in Shifted(rest)
    ensures j > 0 ==> (j in Shifted(rest) <==> j - 1 in rest)
    ensures j > 0 ==> CountOlder(ps[..j], cutoff) == CountOlder(ps[1..][..j - 1], cutoff) + (if Older(ps[0].ts, cutoff) then 1 else 0)
    ensures j == 0 ==> CountOlder(ps[..j], cutoff) == 0
  {
    hide Older;
    ShiftedIn(rest, 0);
    if j > 0 {
      ShiftedIn(rest, j - 1);
      assert ps[..j][1..] == ps[1..][..j - 1];
      assert ps[..j][0] == ps[0];
    }
  }

  lemma {:induction false} CountWithin(ps: seq<Point>, j: nat, cutoff: Instant)
    requires j < |ps|
    ensures CountOlder(ps[..j], cutoff) + (if Older(ps[j].ts, cutoff) then 1 else 0) <= CountOlder(ps, cutoff)
  {
    hide Older;
    if j > 0 {
      CountWithin(ps[1..], j - 1, cutoff);
      assert ps[..j][1..] == ps[1..][..j - 1];
    }
  }

  /** A delete whose limit covers all older rows takes exactly those. */
  lemma DeleteAllExactly(ps: seq<Point>, cutoff: Instant, limit: nat)
    requires CountOlder(ps, cutoff) <= limit
    ensures OlderGone(ps, DeleteFirst(ps, cutoff, limit), cutoff)
  {
    hide Older;
    var places := DeleteFirstExactly(ps, cutoff, limit);
    forall j | 0 <= j < |ps| ensures j in places <==> !Older(ps[j].ts, cutoff) {
      CountWithin(ps, j, cutoff);
    }
  }

  lemma KeepAgrees(view: map<Key, Point>, cutoff: Instant, k: Key, since: string)
    requires AtMost(Stamp(cutoff), since)
    ensures Visible(Keep(view, cutoff), k, since) == Visible(view, k, since)
  {
    hide Stamp;
    if k in view {
      OrderFacts(Stamp(cutoff), since, Stamp(view[k].ts));
    }
  }

  // ---- whole histories ----

  /** Every point ever committed, in insertion order, as if nothing was purged. */
  function Ever(events: seq<Event>): seq<Point> {
    if events == [] then [] else
      Ever(events[..|events| - 1]) + (match events[|events| - 1] case Commit(ps) => ps case _ => [])
  }

  lemma {:induction false} KeysMatch(events: seq<Event>)
    ensures forall k :: k in Run(events).latest ==> Tracked(Run(events).latest[k]) && KeyOf(Run(events).latest[k]) == k
  {
    if events != [] {
      KeysMatch(events[..|events| - 1]);
    }
  }

  lemma {:induction false} BothSidesSeeEver(events: seq<Event>, k: Key, since: string)
    requires FaithfulHistory(events) && CutoffsBefore(events, since)
    ensures Visible(Run(events).latest, k, since) == Newest(Ever(events), k, since)
    ensures Newest(Run(events).points, k, since) == Newest(Ever(events), k, since)
  {
    hide Stamp;
    if events != [] {
      var init, e := events[..|events| - 1], events[|events| - 1];
      BothSidesSeeEver(init, k, since);
      KeysMatch(init);
      var db := Run(init);
      match e
      case Commit(ps) =>
        CommitAgrees(db, ps, Ever(init), k, since);
        NewestAppend(db.points, ps, k, since);
        NewestAppend(Ever(init), ps, k, since);
      case PurgePoints(cutoff, limit) =>
        DeleteKeepsNewest(db.points, cutoff, limit, k, since);
        assert Ever(events) == Ever(init) + [] == Ever(init);
      case PurgeView(cutoff) =>
        KeepAgrees(db.latest, cutoff, k, since);
        assert Ever(events) == Ever(init) + [] == Ever(init);
    }
  }

  /** What each commit picked for a key, in order. */
  function Picks(events: seq<Event>, k: Key): seq<Point> {
    if events == [] then [] else
      Picks(events[..|events| - 1], k) +
      (match events[|events| - 1]
       case Commit(ps) => if k in BatchLatest(ps) then [BatchLatest(ps)[k]] else []
       case _ => [])
  }

  lemma PickMerges(view: map<Key, Point>, batch: map<Key, Point>, picks: seq<Point>, k: Key, since: string)
    requires Visible(view, k, since) == Newest(picks, k, since)
    requires k in batch ==> Tracked(batch[k]) && KeyOf(batch[k]) == k
    ensures Visible(Merge(view, batch), k, since) == Newest(picks + (if k in batch then [batch[k]] else []), k, since)
  {
    hide Stamp;
    if k in batch {
      assert (picks + [batch[k]])[..|picks|] == picks;
      if k in view {
        OrderFacts(since, Stamp(view[k].ts), Stamp(batch[k].ts));
        OrderFacts(since, Stamp(batch[k].ts), Stamp(view[k].ts));
        OrderFacts(Stamp(view[k].ts), Stamp(batch[k].ts), since);
      }
    } else {
      assert picks + [] == picks;
    }
  }

  /** With or without faithful batches, the view shows the newest of the picks and
      the table the newest of all points. */
  lemma {:induction false} BothSidesSeePicks(events: seq<Event>, k: Key, since: string)
    requires CutoffsBefore(events, since)
    ensures Visible(Run(events).latest, k, since) == Newest(Picks(events, k), k, since)
    ensures Newest(Run(events).points, k, since) == Newest(Ever(events), k, since)
  {
    hide Stamp, Merge;
    if events != [] {
      var init, e := events[..|events| - 1], events[|events| - 1];
      BothSidesSeePicks(init, k, since);
      var db := Run(init);
      match e
      case Commit(ps) =>
        PickMerges(db.latest, BatchLatest(ps), Picks(init, k), k, since);
        NewestAppend(db.points, ps, k, since);
        NewestAppend(Ever(init), ps, k, since);
      case PurgePoints(cutoff, limit) =>
        DeleteKeepsNewest(db.points, cutoff, limit, k, since);
        assert Ever(events) == Ever(init) + [] == Ever(init) && Picks(events, k) == Picks(init, k) + [] == Picks(init, k);
      case PurgeView(cutoff) =>
        KeepAgrees(db.latest, cutoff, k, since);
        assert Ever(events) == Ever(init) + [] == Ever(init) && Picks(events, k) == Picks(init, k) + [] == Picks(init, k);
    }
  }

  /** For every history, faithful or not, view and scan agree on a key if and only if
      the newest of the batches' picks is the newest of all points. */
  lemma AgreementExactly(events: seq<Event>, k: Key, since: string)
    requires CutoffsBefore(events, since)
    ensures Visible(Run(events).latest, k, since) == Newest(Run(events).points, k, since) <==>
            Newest(Picks(events, k), k, since) == Newest(Ever(events), k, since)
  {
    BothSidesSeePicks(events, k, since);
  }

  /** Cutoffs that are no later in time, printed in as many digits, are no later as text. */
  lemma CutoffsByTime(events: seq<Event>, since: Instant)
    requires forall e :: e in events && !e.Commit? ==>
               |Fraction(e.cutoff)| == |Fraction(since)| && !Before(since, e.cutoff)
    ensures CutoffsBefore(events, Stamp(since))
  {
    hide Stamp, Fraction;
    forall e | e in events && !e.Commit? ensures AtMost(Stamp(e.cutoff), Stamp(since)) {
      TimeTotal(e.cutoff, since);
      if Before(e.cutoff, since) {
        EqualWidthNeverInverted(e.cutoff, since);
        StampOrder(e.cutoff, since);
        OrderFacts(Stamp(e.cutoff), Stamp(since), "");
      } else {
        OrderFacts(Stamp(since), Stamp(since), "");
      }
    }
  }

  /** The view answers like the scan, for every interleaving of commits with
      whole, partial or missing deletes on either table. */
  lemma ViewAnswersLikeScan(events: seq<Event>, since: string)
    requires FaithfulHistory(events) && CutoffsBefore(events, since)
    ensures forall k :: Visible(Run(events).latest, k, since) == Newest(Run(events).points, k, since)
  {
    forall k ensures Visible(Run(events).latest, k, since) == Newest(Run(events).points, k, since) {
      BothSidesSeeEver(events, k, since);
    }
  }

  lemma LeastText(s: string)
    ensures AtMost("", s)
  {
  }

  /** Without purges the view is exactly the newest point of every key, however late a batch arrives. */
  lemma ViewIsGlobalLatest(events: seq<Event>)
    requires FaithfulHistory(events) && forall e :: e in events ==> e.Commit?
    ensures Run(events).points == Ever(events)
    ensures forall k :: k in Run(events).latest <==> Newest(Ever(events), k, "").Some?
    ensures forall k :: k in Run(events).latest ==> Run(events).latest[k] == Newest(Ever(events), k, "").value
  {
    PointsAreEver(events);
    forall k
      ensures k in Run(events).latest <==> Newest(Ever(events), k, "").Some?
      ensures k in Run(events).latest ==> Run(events).latest[k] == Newest(Ever(events), k, "").value
    {
      BothSidesSeeEver(events, k, "");
      if k in Run(events).latest {
        LeastText(Stamp(Run(events).latest[k].ts));
      }
    }
  }

  lemma {:induction false} PointsAreEver(events: seq<Event>)
    requires forall e :: e in events ==> e.Commit?
    ensures Run(events).points == Ever(events)
  {
    if events != [] {
      PointsAreEver(events[..|events| - 1]);
    }
  }

  /** The condition on a batch is exact: committed to empty tables it leaves the
      view and the scan in agreement if and only if it is faithful. */
  lemma FaithfulIsNecessary(ps: seq<Point>)
    ensures Faithful(ps) <==>
            forall k :: Visible(Run([Commit(ps)]).latest, k, "") == Newest(Run([Commit(ps)]).points, k, "")
  {
    if Faithful(ps) {
      assert forall e :: e in [Commit(ps)] ==> e == Commit(ps);
      ViewAnswersLikeScan([Commit(ps)], "");
    } else {
      var k := UnfaithfulShows(ps);
    }
  }

  lemma OneCommit(ps: seq<Point>)
    ensures Run([Commit(ps)]) == Db(ps, BatchLatest(ps))
  {
    var h := [Commit(ps)];
    assert h[..0] == [] && Run(h) == Apply(Run([]), Commit(ps));
    assert [] + ps == ps;
    assert Merge(map[], BatchLatest(ps)) == BatchLatest(ps);
  }

  lemma UnfaithfulShows(ps: seq<Point>) returns (k: Key)
    requires !Faithful(ps)
    ensures Visible(Run([Commit(ps)]).latest, k, "") != Newest(Run([Commit(ps)]).points, k, "")
  {
    hide Stamp;
    OneCommit(ps);
    hide Run, Newest;
    BatchLatestIsTimeMaximum(ps);
    var i :| 0 <= i < |ps| && Tracked(ps[i]) && !AtMost(Stamp(ps[i].ts), Stamp(BatchLatest(ps)[KeyOf(ps[i])].ts));
    k := KeyOf(ps[i]);
    NewestIsMaximum(ps, k, "");
    LeastText(Stamp(ps[i].ts));
  }

  /** Any inverted pair of stamps breaks the agreement: reported in one batch,
      the view keeps the later instant and the scan the earlier one. */
  lemma InversionMisleads(a: Instant, b: Instant, container: string)
    requires Inverted(a, b) && container != ""
    ensures var labels := map["container" := container];
            var early := Point("cpu.usage", a, 1.0, "", labels);
            var late := Point("cpu.usage", b, 2.0, "", labels);
            var db := Run([Commit([early, late])]);
            && Visible(db.latest, (container, "cpu.usage"), "") == Some(late)
            && Newest(db.points, (container, "cpu.usage"), "") == Some(early)
  {
    hide Stamp;
    var labels := map["container" := container];
    var early := Point("cpu.usage", a, 1.0, "", labels);
    var late := Point("cpu.usage", b, 2.0, "", labels);
    var ps, k := [early, late], (container, "cpu.usage");
    OneCommit(ps);
    hide Run;
    assert ps[..1] == [early] && [early][..0] == [];
    assert BatchLatest([early]) == map[k := early];
    TimeTotal(a, b);
    assert BatchLatest(ps) == map[k := late];
    StampOrder(a, b);
    LeastText(Stamp(a));
    LeastText(Stamp(b));
    assert Newest([early], k, "") == Some(early);
  }
}
