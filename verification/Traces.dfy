/** The trace list: span rows and log rows merged into one summary per trace, and
    the pages cut from it. */
module Traces {
  import opened Wrappers
  import Sorting

  /** Rows a source returns at most. */
  const ScanLimit: nat := 5000

  /** A span row under its normalised trace key; `inferred` is the service its container suggests. */
  datatype Row = Row(key: string, id: string, root: bool, name: string, service: string, container: string,
                     inferred: string, start: int, end: int, error: bool)

  /** A log row that carries a trace id. */
  datatype LogRow = LogRow(key: string, id: string, name: string, service: string, container: string, ts: int, severe: bool)

  /** A log row as a span of one instant, never a root. */
  function AsRow(l: LogRow): Row {
    Row(l.key, l.id, false, l.name, l.service, l.container, "", l.ts, l.ts, l.severe)
  }

  function AsRows(logs: seq<LogRow>): (rows: seq<Row>)
    ensures |rows| == |logs|
  {
    if logs == [] then [] else AsRows(logs[..|logs| - 1]) + [AsRow(logs[|logs| - 1])]
  }

  /** The log rows, one span row for each, in order. */
  lemma {:induction false} LogRowsRead(logs: seq<LogRow>, i: nat)
    requires i < |logs|
    ensures var r, l := AsRows(logs)[i], logs[i];
            && r.key == l.key && r.id == l.id && !r.root && (r.error <==> l.severe)
            && r.name == l.name && r.service == l.service && r.container == l.container && r.inferred == ""
            && r.start == l.ts && r.end == l.ts
  {
    if i < |logs| - 1 {
      LogRowsRead(logs[..|logs| - 1], i);
    }
  }

  datatype Source = Otlp | Logs

  datatype Summary = Summary(source: Source, id: string, count: nat, start: int, end: int, error: bool,
                             name: string, service: string, container: string)

  datatype Entry = Entry(key: string, summary: Summary, services: set<string>)

  // ---- what a summary says of its rows ----

  function Of(rows: seq<Row>, key: string): seq<Row> {
    if rows == [] then []
    else Of(rows[..|rows| - 1], key) + (if rows[|rows| - 1].key == key then [rows[|rows| - 1]] else [])
  }

  /** The row a trace is named after: its first root, or its last row when it has none. */
  ghost predicate NamedAfter(s: Summary, rows: seq<Row>) {
    exists i :: 0 <= i < |rows| && NamingRow(rows, i)
                && s.name == rows[i].name && s.service == rows[i].service && s.container == rows[i].container
  }

  predicate NamingRow(rows: seq<Row>, i: nat)
    requires i < |rows|
  {
    if rows[i].root then forall j :: 0 <= j < i ==> !rows[j].root
    else i == |rows| - 1 && forall j :: 0 <= j < |rows| ==> !rows[j].root
  }

  ghost predicate HasRoot(rows: seq<Row>) {
    exists i :: 0 <= i < |rows| && rows[i].root
  }

  /** Start and end are the least start and the greatest end, nothing is counted twice. */
  ghost predicate Describes(s: Summary, rows: seq<Row>) {
    && rows != [] && s.count == |rows| && s.id == rows[0].id
    && (forall i :: 0 <= i < |rows| ==> s.start <= rows[i].start && rows[i].end <= s.end)
    && (exists i :: 0 <= i < |rows| && rows[i].start == s.start)
    && (exists i :: 0 <= i < |rows| && rows[i].end == s.end)
    && (s.error <==> exists i :: 0 <= i < |rows| && rows[i].error)
    && NamedAfter(s, rows)
  }

  /** The services a trace touches. */
  function Touched(rows: seq<Row>): set<string> {
    (set r | r in rows && r.service != "" :: r.service) + (set r | r in rows && r.inferred != "" :: r.inferred)
  }

  /** A summary after one more row. */
  function Grown(s: Summary, r: Row, named: bool): Summary {
    s.(count := s.count + 1,
       start := if r.start < s.start then r.start else s.start,
       end := if r.end > s.end then r.end else s.end,
       error := s.error || r.error,
       name := if named then s.name else r.name,
       service := if named then s.service else r.service,
       container := if named then s.container else r.container)
  }

  function Fresh(source: Source, r: Row): Summary {
    Summary(source, r.id, 1, r.start, r.end, r.error, r.name, r.service, r.container)
  }

  lemma FreshDescribes(source: Source, r: Row)
    ensures Describes(Fresh(source, r), [r])
  {
    assert [r][0] == r;
    assert NamingRow([r], 0);
  }

  lemma GrownDescribes(s: Summary, rows: seq<Row>, r: Row)
    requires Describes(s, rows)
    ensures Describes(Grown(s, r, HasRoot(rows)), rows + [r])
  {
    var t, more := Grown(s, r, HasRoot(rows)), rows + [r];
    assert more[|rows|] == r && forall i :: 0 <= i < |rows| ==> more[i] == rows[i];
    var a :| 0 <= a < |rows| && rows[a].start == s.start;
    var b :| 0 <= b < |rows| && rows[b].end == s.end;
    assert more[if r.start < s.start then |rows| else a].start == t.start;
    assert more[if r.end > s.end then |rows| else b].end == t.end;
    GrownError(s, rows, r);
    GrownName(s, rows, r);
  }

  lemma GrownError(s: Summary, rows: seq<Row>, r: Row)
    requires s.error <==> exists i :: 0 <= i < |rows| && rows[i].error
    ensures s.error || r.error <==> exists i :: 0 <= i < |rows| + 1 && (rows + [r])[i].error
  {
    var more := rows + [r];
    if r.error {
      assert more[|rows|].error;
    }
    if i :| 0 <= i < |rows| && rows[i].error {
      assert more[i].error;
    }
  }

  lemma GrownName(s: Summary, rows: seq<Row>, r: Row)
    requires NamedAfter(s, rows)
    ensures NamedAfter(Grown(s, r, HasRoot(rows)), rows + [r])
  {
    var more := rows + [r];
    var i :| 0 <= i < |rows| && NamingRow(rows, i)
             && s.name == rows[i].name && s.service == rows[i].service && s.container == rows[i].container;
    if HasRoot(rows) {
      assert rows[i].root;
      assert NamingRow(more, i);
    } else {
      assert NamingRow(more, |rows|);
    }
  }

  // ---- the two scans ----

  /** The summary of a key: from its spans if it has any, else from its log rows. */
  ghost predicate Slot(byKey: map<string, Summary>, k: string, spans: seq<Row>, logs: seq<Row>) {
    if spans != [] then k in byKey && byKey[k].source == Otlp && Describes(byKey[k], spans)
    else if k != "" && logs != [] then k in byKey && byKey[k].source == Logs && Describes(byKey[k], logs)
    else k !in byKey
  }

  ghost predicate Merged(byKey: map<string, Summary>, spans: seq<Row>, logs: seq<Row>) {
    forall k :: Slot(byKey, k, Of(spans, k), Of(logs, k))
  }

  /** The rows that reach the summary of a key. */
  function Counted(spans: seq<Row>, logs: seq<Row>, k: string): seq<Row> {
    if Of(spans, k) != [] then Of(spans, k) else if k != "" then Of(logs, k) else []
  }

  ghost predicate ServicesMatch(services: map<string, set<string>>, spans: seq<Row>, logs: seq<Row>) {
    forall k :: At(services, k) == Touched(Counted(spans, logs, k))
  }

  function At(services: map<string, set<string>>, k: string): set<string> {
    if k in services then services[k] else {}
  }

  ghost predicate RootsMatch(hasRoot: set<string>, spans: seq<Row>) {
    forall k :: k in hasRoot <==> HasRoot(Of(spans, k))
  }

  lemma OfSnoc(rows: seq<Row>, r: Row)
    ensures forall k :: Of(rows + [r], k) == if k == r.key then Of(rows, k) + [r] else Of(rows, k)
  {
    assert (rows + [r])[..|rows|] == rows;
    forall k ensures Of(rows + [r], k) == if k == r.key then Of(rows, k) + [r] else Of(rows, k) {
      assert Of(rows, k) + [] == Of(rows, k);
    }
  }

  lemma TouchedSnoc(rows: seq<Row>, r: Row)
    ensures Touched(rows + [r]) ==
            Touched(rows) + (if r.service != "" then {r.service} else {}) + (if r.inferred != "" then {r.inferred} else {})
  {
    forall x ensures x in Touched(rows + [r]) <==>
      x in Touched(rows) || (x == r.service && x != "") || (x == r.inferred && x != "")
    {
      assert forall y: Row :: y in rows + [r] <==> y in rows || y == r;
    }
  }

  method AddService(services: map<string, set<string>>, key: string, service: string) returns (after: map<string, set<string>>)
    ensures forall k :: At(after, k) == At(services, k) + (if k == key && service != "" then {service} else {})
  {
    after := services;
    if service == "" {
      return;
    }
    after := services[key := (if key in services then services[key] else {}) + {service}];
  }

  lemma OtherSlot(byKey: map<string, Summary>, key: string, s: Summary, k: string, spans: seq<Row>, logs: seq<Row>)
    requires k != key
    ensures Slot(byKey[key := s], k, spans, logs) <==> Slot(byKey, k, spans, logs)
  {
    hide Describes;
  }

  lemma OwnSlot(byKey: map<string, Summary>, r: Row, s: Summary, spans: seq<Row>, logs: seq<Row>)
    requires spans != [] || (r.key != "" && logs != [])
    requires s.source == if spans != [] then Otlp else Logs
    requires Describes(s, if spans != [] then spans else logs)
    ensures Slot(byKey[r.key := s], r.key, spans, logs)
  {
    hide Describes;
  }

  lemma SlotAt(byKey: map<string, Summary>, k: string, spans: seq<Row>, logs: seq<Row>)
    requires Merged(byKey, spans, logs)
    ensures Slot(byKey, k, Of(spans, k), Of(logs, k))
  {
  }

  /** A summary that takes one more row, or starts with it. */
  function Taken(byKey: map<string, Summary>, r: Row, source: Source, named: bool): Summary {
    if r.key in byKey then Grown(byKey[r.key], r, named) else Fresh(source, r)
  }

  lemma TakenDescribes(byKey: map<string, Summary>, rows: seq<Row>, r: Row, source: Source, named: bool)
    requires if rows == [] then r.key !in byKey
             else r.key in byKey && byKey[r.key].source == source && Describes(byKey[r.key], rows) && (named <==> HasRoot(rows))
    ensures Describes(Taken(byKey, r, source, named), rows + [r]) && Taken(byKey, r, source, named).source == source
  {
    hide Describes, HasRoot;
    if rows == [] {
      FreshDescribes(source, r);
      assert rows + [r] == [r];
    } else {
      GrownDescribes(byKey[r.key], rows, r);
    }
  }

  lemma SpanStep(byKey: map<string, Summary>, spans: seq<Row>, r: Row, named: bool)
    requires Merged(byKey, spans, []) && (named <==> HasRoot(Of(spans, r.key)))
    ensures Merged(byKey[r.key := Taken(byKey, r, Otlp, named)], spans + [r], [])
  {
    hide Describes, HasRoot, Taken, Of;
    var before, s := Of(spans, r.key), Taken(byKey, r, Otlp, named);
    OfSnoc(spans, r);
    NoRows();
    SlotAt(byKey, r.key, spans, []);
    TakenDescribes(byKey, before, r, Otlp, named);
    forall k ensures Slot(byKey[r.key := s], k, Of(spans + [r], k), Of([], k)) {
      if k == r.key {
        OwnSlot(byKey, r, s, before + [r], []);
      } else {
        SlotAt(byKey, k, spans, []);
        OtherSlot(byKey, r.key, s, k, Of(spans, k), []);
      }
    }
  }

  lemma RootStep(hasRoot: set<string>, spans: seq<Row>, r: Row)
    requires RootsMatch(hasRoot, spans)
    ensures RootsMatch(if r.root then hasRoot + {r.key} else hasRoot, spans + [r])
  {
    hide Of, HasRoot;
    OfSnoc(spans, r);
    RootSnoc(Of(spans, r.key), r);
  }

  /** Adding both services of a counted row. */
  lemma ServiceStep(services: map<string, set<string>>, mid: map<string, set<string>>, after: map<string, set<string>>,
                    rows: seq<Row>, more: seq<Row>, r: Row, k: string)
    requires At(services, k) == Touched(rows)
    requires At(mid, k) == At(services, k) + (if k == r.key && r.service != "" then {r.service} else {})
    requires At(after, k) == At(mid, k) + (if k == r.key && r.inferred != "" then {r.inferred} else {})
    requires more == if k == r.key then rows + [r] else rows
    ensures At(after, k) == Touched(more)
  {
    TouchedSnoc(rows, r);
  }

  /** The loop over span rows. */
  method ScanSpans(rows: seq<Row>) returns (byKey: map<string, Summary>, services: map<string, set<string>>)
    ensures Merged(byKey, rows, []) && ServicesMatch(services, rows, [])
  {
    hide Of, Describes, Touched, Taken, Merged, RootsMatch, HasRoot;
    byKey, services := map[], map[];
    var hasRoot: set<string> := {};
    NoRows();
    assert rows[..0] == [];
    for i := 0 to |rows|
      invariant Merged(byKey, rows[..i], []) && ServicesMatch(services, rows[..i], [])
      invariant RootsMatch(hasRoot, rows[..i])
    {
      var r := rows[i];
      assert rows[..i + 1] == rows[..i] + [r];
      Rooted(hasRoot, rows[..i], r.key);
      SpanStep(byKey, rows[..i], r, r.key in hasRoot);
      RootStep(hasRoot, rows[..i], r);
      byKey := byKey[r.key := Taken(byKey, r, Otlp, r.key in hasRoot)];
      if r.root {
        hasRoot := hasRoot + {r.key};
      }
      var mid := AddService(services, r.key, r.service);
      var after := AddService(mid, r.key, r.inferred);
      OfSnoc(rows[..i], r);
      forall k ensures At(after, k) == Touched(Counted(rows[..i + 1], [], k)) {
        ServiceStep(services, mid, after, Counted(rows[..i], [], k), Counted(rows[..i + 1], [], k), r, k);
      }
      services := after;
    }
    assert rows[..|rows|] == rows;
  }

  lemma Rooted(hasRoot: set<string>, spans: seq<Row>, k: string)
    requires RootsMatch(hasRoot, spans)
    ensures k in hasRoot <==> HasRoot(Of(spans, k))
  {
  }

  lemma RootSnoc(rows: seq<Row>, r: Row)
    ensures HasRoot(rows + [r]) <==> HasRoot(rows) || r.root
  {
    var more := rows + [r];
    if r.root {
      assert more[|rows|].root;
    }
    if i :| 0 <= i < |rows| && rows[i].root {
      assert more[i].root;
    }
  }

  lemma NoRows()
    ensures forall k :: Of([], k) == []
    ensures Touched([]) == {} && !HasRoot([])
    ensures Merged(map[], [], []) && RootsMatch({}, [])
  {
  }

  lemma LogStep(byKey: map<string, Summary>, spans: seq<Row>, logs: seq<Row>, r: Row)
    requires Merged(byKey, spans, logs) && !HasRoot(Of(logs, r.key)) && r.key != "" && Of(spans, r.key) == []
    ensures Merged(byKey[r.key := Taken(byKey, r, Logs, false)], spans, logs + [r])
  {
    hide Describes, HasRoot, Taken, Of;
    var before, s := Of(logs, r.key), Taken(byKey, r, Logs, false);
    OfSnoc(logs, r);
    SlotAt(byKey, r.key, spans, logs);
    TakenDescribes(byKey, before, r, Logs, false);
    forall k ensures Slot(byKey[r.key := s], k, Of(spans, k), Of(logs + [r], k)) {
      SlotAt(byKey, k, spans, logs);
      if k == r.key {
        OwnSlot(byKey, r, s, [], before + [r]);
      } else {
        OtherSlot(byKey, r.key, s, k, Of(spans, k), Of(logs, k));
      }
    }
  }

  lemma IdleLog(byKey: map<string, Summary>, spans: seq<Row>, logs: seq<Row>, r: Row)
    requires Merged(byKey, spans, logs) && (r.key == "" || Of(spans, r.key) != [])
    ensures Merged(byKey, spans, logs + [r])
  {
    hide Describes, Of;
    OfSnoc(logs, r);
    forall k ensures Slot(byKey, k, Of(spans, k), Of(logs + [r], k)) {
      SlotAt(byKey, k, spans, logs);
    }
  }

  lemma {:induction false} LogsHaveNoRoot(logs: seq<LogRow>, k: string)
    ensures !HasRoot(Of(AsRows(logs), k))
  {
    if logs != [] {
      var init, l := logs[..|logs| - 1], logs[|logs| - 1];
      LogsHaveNoRoot(init, k);
      OfSnoc(AsRows(init), AsRow(l));
      hide HasRoot, Of;
      RootSnoc(Of(AsRows(init), k), AsRow(l));
    } else {
      NoRows();
    }
  }

  /** The loop over log rows; a trace that has spans is left alone. */
  method ScanLogs(logs: seq<LogRow>, byKey: map<string, Summary>, services: map<string, set<string>>, ghost spans: seq<Row>)
    returns (byKey': map<string, Summary>, services': map<string, set<string>>)
    requires Merged(byKey, spans, []) && ServicesMatch(services, spans, [])
    ensures Merged(byKey', spans, AsRows(logs)) && ServicesMatch(services', spans, AsRows(logs))
  {
    hide Of, Describes, Touched, Taken, Merged, HasRoot;
    byKey', services' := byKey, services;
    assert logs[..0] == [];
    for i := 0 to |logs|
      invariant Merged(byKey', spans, AsRows(logs[..i])) && ServicesMatch(services', spans, AsRows(logs[..i]))
    {
      var l := logs[i];
      ghost var rows, r := AsRows(logs[..i]), AsRow(l);
      assert logs[..i + 1][..i] == logs[..i];
      assert AsRows(logs[..i + 1]) == rows + [r];
      OfSnoc(rows, r);
      SlotAt(byKey', l.key, spans, rows);
      if l.key == "" || (l.key in byKey' && byKey'[l.key].source == Otlp) {
        IdleLog(byKey', spans, rows, r);
        continue;
      }
      LogsHaveNoRoot(logs[..i], l.key);
      LogStep(byKey', spans, rows, r);
      byKey' := byKey'[l.key := Taken(byKey', AsRow(l), Logs, false)];
      var after := AddService(services', l.key, l.service);
      forall k ensures At(after, k) == Touched(Counted(spans, rows + [r], k)) {
        ServiceStep(services', after, after, Counted(spans, rows, k), Counted(spans, rows + [r], k), r, k);
      }
      services' := after;
    }
    assert logs[..|logs|] == logs;
  }

  // ---- the list and its pages ----

  predicate Later(a: Entry, b: Entry) {
    a.summary.start >= b.summary.start
  }

  function EffectiveLimit(limit: int): nat {
    if limit <= 0 then 50 else if limit > 200 then 200 else limit
  }

  /** The window of a fixed list. */
  function Page(all: seq<Entry>, offset: int, limit: int): seq<Entry> {
    var from := if offset < 0 then 0 else if offset > |all| then |all| else offset;
    var rest := all[from..];
    if |rest| > EffectiveLimit(limit) then rest[..EffectiveLimit(limit)] else rest
  }

  /** Every trace once: the ones with the wanted service, newest start first, each described by its rows. */
  ghost predicate Lists(all: seq<Entry>, spans: seq<Row>, logs: seq<Row>, service: string) {
    && Sorting.Sorted(all, Later)
    && (forall i, j :: 0 <= i < j < |all| ==> all[i].key != all[j].key)
    && (forall i :: 0 <= i < |all| ==> Shown(all[i], spans, logs, service))
    && (forall k :: Counted(spans, logs, k) != [] && (service == "" || service in Touched(Counted(spans, logs, k))) ==>
          exists i :: 0 <= i < |all| && all[i].key == k)
  }

  ghost predicate Shown(e: Entry, spans: seq<Row>, logs: seq<Row>, service: string) {
    var rows := Counted(spans, logs, e.key);
    && Describes(e.summary, rows)
    && e.summary.source == (if Of(spans, e.key) != [] then Otlp else Logs)
    && e.services == Touched(rows)
    && (service == "" || service in e.services)
  }

  lemma LaterIsPreorder()
    ensures Sorting.TotalPreorder(Later)
  {
  }

  /** ListTraces on what the two scans returned. `all` is the whole ordered list the page is cut from. */
  method ListTraces(spans: seq<Row>, logs: seq<LogRow>, service: string, limit: int, offset: int)
    returns (page: seq<Entry>, total: nat, truncated: bool, ghost all: seq<Entry>)
    ensures Lists(all, spans, AsRows(logs), service)
    ensures page == Page(all, offset, limit) && total == |all|
    ensures truncated <==> |spans| == ScanLimit || |logs| == ScanLimit
  {
    hide Of, Describes, Touched, Grown;
    var byKey, services := ScanSpans(spans);
    byKey, services := ScanLogs(logs, byKey, services, spans);
    var out := Collect(byKey, services, service, spans, AsRows(logs));
    var sorted := Sorting.Sort(out, Later);
    SortedLists(out, byKey.Keys, spans, AsRows(logs), service);
    all := sorted;
    total := |sorted|;
    var from := offset;
    if from < 0 {
      from := 0;
    }
    if from > total {
      from := total;
    }
    page := sorted[from..];
    if |page| > EffectiveLimit(limit) {
      page := page[..EffectiveLimit(limit)];
    }
    truncated := |spans| == ScanLimit || |logs| == ScanLimit;
  }

  ghost predicate Collected(out: seq<Entry>, keys: set<string>, spans: seq<Row>, logs: seq<Row>, service: string) {
    && (forall i, j :: 0 <= i < j < |out| ==> out[i].key != out[j].key)
    && (forall i :: 0 <= i < |out| ==> Shown(out[i], spans, logs, service) && out[i].key in keys)
    && (forall k :: k in keys && (service == "" || service in Touched(Counted(spans, logs, k))) ==>
          exists i :: 0 <= i < |out| && out[i].key == k)
  }

  /** Reading the map into a list, in whatever order the map gives. */
  method Collect(byKey: map<string, Summary>, services: map<string, set<string>>, service: string,
                 ghost spans: seq<Row>, ghost logs: seq<Row>) returns (out: seq<Entry>)
    requires Merged(byKey, spans, logs) && ServicesMatch(services, spans, logs)
    ensures Collected(out, byKey.Keys, spans, logs, service)
    ensures forall k :: k in byKey <==> Counted(spans, logs, k) != []
  {
    hide Of, Describes, Touched;
    assert forall k :: Slot(byKey, k, Of(spans, k), Of(logs, k));
    hide Merged;
    out := [];
    var rest := byKey.Keys;
    while rest != {}
      invariant rest <= byKey.Keys && Collected(out, byKey.Keys - rest, spans, logs, service)
      decreases rest
    {
      var k :| k in rest;
      assert Slot(byKey, k, Of(spans, k), Of(logs, k));
      var touched := if k in services then services[k] else {};
      assert touched == At(services, k);
      ghost var done := byKey.Keys - rest;
      rest := rest - {k};
      assert byKey.Keys - rest == done + {k};
      if service != "" && service !in touched {
        SkippedEntry(out, done, k, spans, logs, service);
        continue;
      }
      OneMoreEntry(out, done, Entry(k, byKey[k], touched), spans, logs, service);
      out := out + [Entry(k, byKey[k], touched)];
    }
    assert byKey.Keys - rest == byKey.Keys;
  }

  lemma OneMoreEntry(out: seq<Entry>, keys: set<string>, e: Entry, spans: seq<Row>, logs: seq<Row>, service: string)
    requires Collected(out, keys, spans, logs, service) && e.key !in keys && Shown(e, spans, logs, service)
    ensures Collected(out + [e], keys + {e.key}, spans, logs, service)
  {
    hide Shown, Touched, Counted;
    var more := out + [e];
    forall k | k in keys + {e.key} && (service == "" || service in Touched(Counted(spans, logs, k)))
      ensures exists i :: 0 <= i < |more| && more[i].key == k
    {
      if k == e.key {
        assert more[|out|].key == k;
      } else {
        var i :| 0 <= i < |out| && out[i].key == k;
        assert more[i].key == k;
      }
    }
  }

  lemma SkippedEntry(out: seq<Entry>, keys: set<string>, k: string, spans: seq<Row>, logs: seq<Row>, service: string)
    requires Collected(out, keys, spans, logs, service)
    requires service != "" && service !in Touched(Counted(spans, logs, k))
    ensures Collected(out, keys + {k}, spans, logs, service)
  {
    hide Shown, Touched, Counted;
  }

  lemma SortedLists(out: seq<Entry>, keys: set<string>, spans: seq<Row>, logs: seq<Row>, service: string)
    requires Collected(out, keys, spans, logs, service) && forall k :: k in keys <==> Counted(spans, logs, k) != []
    ensures Lists(Sorting.Sort(out, Later), spans, logs, service)
    ensures multiset(Sorting.Sort(out, Later)) == multiset(out)
  {
    var sorted := Sorting.Sort(out, Later);
    LaterIsPreorder();
    Sorting.SortCorrect(out, Later);
    Sorting.SortMembers(out, Later);
    hide Shown, Touched, Counted, Sorting.Sort, Later;
    assert Sorting.NoDuplicates(out);
    forall i, j | 0 <= i < j < |sorted| ensures sorted[i].key != sorted[j].key {
      KeysDiffer(out, sorted[i], sorted[j]);
    }
    forall k | Counted(spans, logs, k) != [] && (service == "" || service in Touched(Counted(spans, logs, k)))
      ensures exists i :: 0 <= i < |sorted| && sorted[i].key == k
    {
      assert k in keys;
      var i :| 0 <= i < |out| && out[i].key == k;
      assert out[i] in sorted;
    }
    forall i | 0 <= i < |sorted| ensures Shown(sorted[i], spans, logs, service) {
      assert sorted[i] in out;
    }
  }

  lemma KeysDiffer(out: seq<Entry>, a: Entry, b: Entry)
    requires forall i, j :: 0 <= i < j < |out| ==> out[i].key != out[j].key
    requires a in out && b in out && a != b
    ensures a.key != b.key
  {
  }

  // ---- counting ----

  function CountOf(): Entry -> nat {
    (e: Entry) => e.summary.count
  }

  /** The log rows that count: with a key, of a trace without spans. */
  function Unshadowed(spans: seq<Row>, logs: seq<Row>): seq<Row> {
    if logs == [] then []
    else
      var r := logs[|logs| - 1];
      Unshadowed(spans, logs[..|logs| - 1]) + (if r.key != "" && Of(spans, r.key) == [] then [r] else [])
  }

  /** How many of the rows belong to one of the keys. */
  function RowsWith(rows: seq<Row>, keys: set<string>): nat {
    if rows == [] then 0
    else RowsWith(rows[..|rows| - 1], keys) + (if rows[|rows| - 1].key in keys then 1 else 0)
  }

  lemma {:induction false} OneMoreKey(rows: seq<Row>, keys: set<string>, k: string)
    requires k !in keys
    ensures RowsWith(rows, keys + {k}) == RowsWith(rows, keys) + |Of(rows, k)|
  {
    if rows != [] {
      OneMoreKey(rows[..|rows| - 1], keys, k);
    }
  }

  lemma {:induction false} NoKeys(rows: seq<Row>)
    ensures RowsWith(rows, {}) == 0
  {
    if rows != [] {
      NoKeys(rows[..|rows| - 1]);
    }
  }

  lemma {:induction false} AllKeys(rows: seq<Row>, keys: set<string>)
    requires forall i :: 0 <= i < |rows| ==> rows[i].key in keys
    ensures RowsWith(rows, keys) == |rows|
  {
    if rows != [] {
      AllKeys(rows[..|rows| - 1], keys);
    }
  }

  lemma {:induction false} UnshadowedOf(spans: seq<Row>, logs: seq<Row>, k: string)
    ensures Of(Unshadowed(spans, logs), k) == if k != "" && Of(spans, k) == [] then Of(logs, k) else []
  {
    if logs != [] {
      var init, r := logs[..|logs| - 1], logs[|logs| - 1];
      UnshadowedOf(spans, init, k);
      assert logs == init + [r];
      var before := Unshadowed(spans, init);
      assert Unshadowed(spans, logs) == if r.key != "" && Of(spans, r.key) == [] then before + [r] else before;
      OfSnoc(init, r);
      OfSnoc(before, r);
      hide Of, Unshadowed;
    }
  }

  lemma OwnRows(spans: seq<Row>, logs: seq<Row>, k: string)
    ensures |Counted(spans, logs, k)| == |Of(spans, k)| + |Of(Unshadowed(spans, logs), k)|
  {
    UnshadowedOf(spans, logs, k);
  }

  lemma {:induction false} OfHas(rows: seq<Row>, i: nat)
    requires i < |rows|
    ensures Of(rows, rows[i].key) != []
  {
    if i < |rows| - 1 {
      OfHas(rows[..|rows| - 1], i);
    }
  }

  function KeysOf(all: seq<Entry>): set<string> {
    set e | e in all :: e.key
  }

  lemma {:induction false} CountsAddUp(all: seq<Entry>, spans: seq<Row>, logs: seq<Row>)
    requires forall i, j :: 0 <= i < j < |all| ==> all[i].key != all[j].key
    requires forall i :: 0 <= i < |all| ==> all[i].summary.count == |Counted(spans, logs, all[i].key)|
    ensures Sorting.Sum(all, CountOf()) == RowsWith(spans, KeysOf(all)) + RowsWith(Unshadowed(spans, logs), KeysOf(all))
  {
    hide Counted, Unshadowed, Of;
    if all == [] {
      assert KeysOf(all) == {};
      NoKeys(spans);
      NoKeys(Unshadowed(spans, logs));
    } else {
      var e, rest := all[0], all[1..];
      CountsAddUp(rest, spans, logs);
      assert all == [e] + rest;
      assert KeysOf(all) == KeysOf(rest) + {e.key};
      OwnRows(spans, logs, e.key);
      OneMoreKey(spans, KeysOf(rest), e.key);
      OneMoreKey(Unshadowed(spans, logs), KeysOf(rest), e.key);
    }
  }

  /** Without a service filter every scanned span row, and every log row that has a
      key and no spans shadowing it, is counted in exactly one trace. */
  lemma EveryRowCountedOnce(all: seq<Entry>, spans: seq<Row>, logs: seq<Row>)
    requires Lists(all, spans, logs, "")
    ensures Sorting.Sum(all, CountOf()) == |spans| + |Unshadowed(spans, logs)|
  {
    hide Describes, Touched, Sorting.Sorted;
    forall i | 0 <= i < |all| ensures all[i].summary.count == |Counted(spans, logs, all[i].key)| {
      assert Shown(all[i], spans, logs, "");
      CountIsSize(all[i].summary, Counted(spans, logs, all[i].key));
    }
    CountsAddUp(all, spans, logs);
    var left := Unshadowed(spans, logs);
    hide Unshadowed, Of, Shown;
    forall i | 0 <= i < |spans| ensures spans[i].key in KeysOf(all) {
      OfHas(spans, i);
      Present(all, spans, logs, spans[i].key);
    }
    forall i | 0 <= i < |left| ensures left[i].key in KeysOf(all) {
      OfHas(left, i);
      Present(all, spans, logs, left[i].key);
    }
    AllKeys(spans, KeysOf(all));
    AllKeys(left, KeysOf(all));
  }

  lemma CountIsSize(s: Summary, rows: seq<Row>)
    requires Describes(s, rows)
    ensures s.count == |rows|
  {
  }

  lemma Present(all: seq<Entry>, spans: seq<Row>, logs: seq<Row>, k: string)
    requires Lists(all, spans, logs, "")
    requires Of(spans, k) != [] || Of(Unshadowed(spans, logs), k) != []
    ensures k in KeysOf(all)
  {
    hide Of, Unshadowed, Shown, Touched;
    OwnRows(spans, logs, k);
    var i :| 0 <= i < |all| && all[i].key == k;
    assert all[i] in all;
  }

  // ---- paging ----

  /** The first n pages of a fixed list, one after the other. */
  function Pages(all: seq<Entry>, limit: int, n: nat): seq<Entry> {
    if n == 0 then [] else Pages(all, limit, n - 1) + Page(all, (n - 1) * EffectiveLimit(limit), limit)
  }

  /** On a fixed list the pages at multiples of the limit tile it: n of them are its
      first n times limit entries, without gap or overlap. */
  lemma {:induction false} PagesTile(all: seq<Entry>, limit: int, n: nat)
    ensures var taken := n * EffectiveLimit(limit);
            Pages(all, limit, n) == if taken <= |all| then all[..taken] else all
  {
    if n > 0 {
      var size := EffectiveLimit(limit);
      var from := (n - 1) * size;
      PagesTile(all, limit, n - 1);
      assert n * size == from + size;
      NextPage(all, from, limit);
    }
  }

  /** The list starts with the trace that started last. */
  lemma NewestStartFirst(all: seq<Entry>, spans: seq<Row>, logs: seq<Row>, service: string, i: nat, j: nat)
    requires Lists(all, spans, logs, service) && i < j < |all|
    ensures all[i].summary.start >= all[j].summary.start
  {
    hide Shown, Counted, Touched;
    assert Later(all[i], all[j]);
  }

  /** A page holds what follows the offset, 50 entries when no limit is given and at
      most 200 in any case. */
  lemma PageWindow(all: seq<Entry>, offset: int, limit: int)
    ensures var page, from := Page(all, offset, limit), if offset > 0 then offset else 0;
            && (forall i :: 0 <= i < |page| ==> from + i < |all| && page[i] == all[from + i])
            && (limit <= 0 ==> |page| == 50 || (|page| < 50 && |page| == |all| - from) || (page == [] && from >= |all|))
            && (limit > 200 ==> |page| == 200 || (|page| < 200 && |page| == |all| - from) || (page == [] && from >= |all|))
            && (0 < limit <= 200 ==> |page| == limit || (|page| < limit && |page| == |all| - from) || (page == [] && from >= |all|))
  {
  }

  lemma NextPage(all: seq<Entry>, from: nat, limit: int)
    ensures (if from <= |all| then all[..from] else all) + Page(all, from, limit) ==
            if from + EffectiveLimit(limit) <= |all| then all[..from + EffectiveLimit(limit)] else all
  {
  }
}
