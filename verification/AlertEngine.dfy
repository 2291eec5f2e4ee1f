/** The alert engine: a few mutable fields that answer for the whole history of
    evaluations. */
module AlertEngine {
  import opened Wrappers

  /** An instant; 0 is the zero time, which marks a tracker without a start. */
  type Time = int

  datatype Rule = Rule(id: string, metric: string, threshold: real, duration: int)

  datatype Workload = Workload(entity: string, cpu: real, memory: real, limit: real)

  /** What one evaluation of a rule saw. */
  datatype Reading = Reading(above: bool, at: Time, duration: int, value: real)

  datatype Kind = Fired | Threshold | Resolved

  datatype Event = Event(kind: Kind, key: string, rule: string, entity: string, at: Time, value: real)

  datatype Tracker = Tracker(since: Time, fired: bool)

  datatype Alert = Alert(rule: string, entity: string, firedAt: Time, value: real)

  function KeyOf(rule: string, entity: string): string {
    rule + ":" + entity
  }

  /** Rules whose ids hold no colon never share a key. */
  lemma KeyIsUnambiguous(r: string, e: string, s: string, f: string)
    requires ':' !in r && ':' !in s
    ensures KeyOf(r, e) == KeyOf(s, f) <==> r == s && e == f
  {
    var k, l := KeyOf(r, e), KeyOf(s, f);
    assert k[|r|] == ':' && forall i :: 0 <= i < |r| ==> k[i] != ':';
    assert l[|s|] == ':' && forall i :: 0 <= i < |s| ==> l[i] != ':';
    if k == l {
      assert |r| == |s|;
      assert r == k[..|r|] && s == l[..|s|];
      assert e == k[|r| + 1..] && f == l[|s| + 1..];
    }
  }

  // ---- what a history means ----

  /** The readings since the last one below the threshold. */
  function Streak(h: seq<Reading>): seq<Reading> {
    if h == [] || !h[|h| - 1].above then [] else Streak(h[..|h| - 1]) + [h[|h| - 1]]
  }

  /** When a streak began; the zero time cannot be told from none. */
  function Since(s: seq<Reading>): Time {
    if s == [] then 0
    else
      var before := Since(s[..|s| - 1]);
      if before == 0 then s[|s| - 1].at else before
  }

  /** Reading j comes at least its duration after the streak began. */
  predicate Triggers(s: seq<Reading>, j: nat)
    requires j < |s|
  {
    s[j].at - Since(s[..j + 1]) >= s[j].duration
  }

  predicate Firing(s: seq<Reading>) {
    exists j :: 0 <= j < |s| && Triggers(s, j)
  }

  /** The reading that raised the alert. */
  predicate RaisedBy(s: seq<Reading>, j: nat)
    requires j < |s|
  {
    Triggers(s, j) && forall i :: 0 <= i < j ==> !Triggers(s, i)
  }

  /** The alert events a history calls for. */
  function Changes(h: seq<Reading>): seq<Kind> {
    if h == [] then []
    else
      var init := h[..|h| - 1];
      var before, after := Firing(Streak(init)), Firing(Streak(h));
      Changes(init) + (if !before && after then [Fired] else if before && !after then [Resolved] else [])
  }

  lemma {:induction false} SinceFirst(s: seq<Reading>)
    requires s != [] && forall i :: 0 <= i < |s| ==> s[i].at != 0
    ensures Since(s) == s[0].at
  {
    if |s| > 1 {
      SinceFirst(s[..|s| - 1]);
    } else {
      assert s[..0] == [];
    }
  }

  /** With real clock readings: an alert is up if and only if some reading of the
      streak comes at least its duration after the first one. */
  lemma FiringPlainly(s: seq<Reading>)
    requires forall i :: 0 <= i < |s| ==> s[i].at != 0
    ensures Firing(s) <==> exists j :: 0 <= j < |s| && s[j].at - s[0].at >= s[j].duration
  {
    forall j | 0 <= j < |s| ensures Triggers(s, j) <==> s[j].at - s[0].at >= s[j].duration {
      SinceFirst(s[..j + 1]);
    }
    if j :| 0 <= j < |s| && s[j].at - s[0].at >= s[j].duration {
      assert Triggers(s, j);
    }
  }

  /** The streak is the longest suffix of readings above the threshold. */
  lemma {:induction false} StreakIsLongestSuffix(h: seq<Reading>)
    ensures var s := Streak(h);
            && |s| <= |h| && s == h[|h| - |s|..]
            && (forall i :: 0 <= i < |s| ==> s[i].above)
            && (|s| < |h| ==> !h[|h| - |s| - 1].above)
  {
    if h != [] && h[|h| - 1].above {
      var init, last := h[..|h| - 1], h[|h| - 1];
      StreakIsLongestSuffix(init);
      var t := Streak(init);
      assert Streak(h) == t + [last];
      hide Streak;
      assert h == init + [last];
      assert h[|h| - |t| - 1..] == init[|init| - |t|..] + [last];
      if |t| < |init| {
        assert h[|h| - |t| - 2] == init[|init| - |t| - 1];
      }
    }
  }

  lemma TriggersEarly(s: seq<Reading>, r: Reading, j: nat)
    requires j < |s|
    ensures Triggers(s + [r], j) <==> Triggers(s, j)
  {
    assert (s + [r])[..j + 1] == s[..j + 1];
  }

  lemma OneMoreReading(s: seq<Reading>, r: Reading)
    ensures Since(s + [r]) == if Since(s) == 0 then r.at else Since(s)
    ensures forall j :: 0 <= j < |s| ==> (Triggers(s + [r], j) <==> Triggers(s, j))
    ensures Triggers(s + [r], |s|) <==> r.at - Since(s + [r]) >= r.duration
    ensures Firing(s + [r]) <==> Firing(s) || Triggers(s + [r], |s|)
  {
    var t := s + [r];
    assert t[..|s|] == s && t[..|s| + 1] == t;
    forall j | 0 <= j < |s| ensures Triggers(t, j) <==> Triggers(s, j) {
      TriggersEarly(s, r, j);
    }
    hide Triggers, Since;
    if j :| 0 <= j < |s| && Triggers(s, j) {
      assert Triggers(t, j);
    }
    if j :| 0 <= j < |t| && Triggers(t, j) {
      assert j < |s| ==> Triggers(s, j);
    }
  }

  lemma LongerHistory(h: seq<Reading>, r: Reading)
    ensures Streak(h + [r]) == if r.above then Streak(h) + [r] else []
    ensures Changes(h + [r]) == Changes(h) +
              (var before, after := Firing(Streak(h)), Firing(Streak(h + [r]));
               if !before && after then [Fired] else if before && !after then [Resolved] else [])
  {
    assert (h + [r])[..|h|] == h;
  }

  /** Fired and resolved strictly alternate, starting with fired; the last one says
      whether the alert is up. */
  lemma {:induction false} ChangesAlternate(h: seq<Reading>)
    ensures forall i :: 0 <= i < |Changes(h)| ==> Changes(h)[i] == if i % 2 == 0 then Fired else Resolved
    ensures Firing(Streak(h)) <==> |Changes(h)| % 2 == 1
  {
    hide Firing, Streak;
    if h == [] {
      NothingFires();
    } else {
      ChangesAlternate(h[..|h| - 1]);
    }
  }

  lemma NothingFires()
    ensures !Firing(Streak([])) && !Firing([])
  {
  }

  /** The alert events of one key, in order. */
  function Published(events: seq<Event>, key: string): seq<Kind> {
    if events == [] then []
    else
      var e := events[|events| - 1];
      Published(events[..|events| - 1], key) + (if e.key == key && e.kind != Threshold then [e.kind] else [])
  }

  lemma PublishedMore(events: seq<Event>, e: Event)
    ensures forall key :: Published(events + [e], key) ==
              Published(events, key) + (if e.key == key && e.kind != Threshold then [e.kind] else [])
  {
    assert (events + [e])[..|events|] == events;
  }

  function HistoryOf(history: map<string, seq<Reading>>, key: string): seq<Reading> {
    if key in history then history[key] else []
  }

  function Extended(history: map<string, seq<Reading>>, key: string, r: Reading): map<string, seq<Reading>> {
    history[key := HistoryOf(history, key) + [r]]
  }

  // ---- an evaluation ----

  function ValueFor(rule: Rule, w: Workload): real {
    if rule.metric == "memory.usage_pct" then (if w.limit > 0.0 then w.memory / w.limit * 100.0 else 0.0) else w.cpu
  }

  function ReadingOf(rule: Rule, w: Workload, now: Time): Reading {
    Reading(ValueFor(rule, w) >= rule.threshold, now, rule.duration, ValueFor(rule, w))
  }

  function AfterRules(history: map<string, seq<Reading>>, w: Workload, rules: seq<Rule>, now: Time): map<string, seq<Reading>> {
    if rules == [] then history
    else
      var rule := rules[|rules| - 1];
      Extended(AfterRules(history, w, rules[..|rules| - 1], now), KeyOf(rule.id, w.entity), ReadingOf(rule, w, now))
  }

  function AfterWorkloads(history: map<string, seq<Reading>>, ws: seq<Workload>, rules: seq<Rule>, now: Time): map<string, seq<Reading>> {
    if ws == [] then history
    else AfterRules(AfterWorkloads(history, ws[..|ws| - 1], rules, now), ws[|ws| - 1], rules, now)
  }

  lemma NoRules(history: map<string, seq<Reading>>, w: Workload, now: Time)
    ensures AfterRules(history, w, [], now) == history
  {
  }

  lemma NothingRead(history: map<string, seq<Reading>>, rules: seq<Rule>, now: Time)
    ensures AfterWorkloads(history, [], rules, now) == history
  {
  }

  lemma OneMoreRule(history: map<string, seq<Reading>>, w: Workload, rules: seq<Rule>, rule: Rule, now: Time)
    ensures AfterRules(history, w, rules + [rule], now) ==
            Extended(AfterRules(history, w, rules, now), KeyOf(rule.id, w.entity), ReadingOf(rule, w, now))
  {
    assert (rules + [rule])[..|rules|] == rules;
  }

  lemma OneMoreWorkload(history: map<string, seq<Reading>>, ws: seq<Workload>, w: Workload, rules: seq<Rule>, now: Time)
    ensures AfterWorkloads(history, ws + [w], rules, now) == AfterRules(AfterWorkloads(history, ws, rules, now), w, rules, now)
  {
    assert (ws + [w])[..|ws|] == ws;
  }

  /** Memory is measured in percent of the limit, and is nothing without a limit; every
      other metric is the CPU reading. */
  lemma ValueIs(rule: Rule, w: Workload, now: Time)
    ensures var r := ReadingOf(rule, w, now);
            && r.at == now && r.duration == rule.duration
            && (rule.metric != "memory.usage_pct" ==> r.value == w.cpu && (r.above <==> rule.threshold <= w.cpu))
            && (rule.metric == "memory.usage_pct" && w.limit <= 0.0 ==> r.value == 0.0 && (r.above <==> rule.threshold <= 0.0))
            && (rule.metric == "memory.usage_pct" && w.limit > 0.0 ==>
                  r.value * w.limit == 100.0 * w.memory && (r.above <==> rule.threshold * w.limit <= 100.0 * w.memory))
  {
    var r := ReadingOf(rule, w, now);
    if rule.metric == "memory.usage_pct" && w.limit > 0.0 {
      var share := w.memory / w.limit;
      assert share * w.limit == w.memory;
      assert r.value == share * 100.0;
      assert r.value * w.limit == 100.0 * w.memory;
      ScaledCompare(rule.threshold, r.value, w.limit);
    }
  }

  lemma ScaledCompare(a: real, b: real, c: real)
    requires c > 0.0
    ensures a <= b <==> a * c <= b * c
  {
    if a <= b {
      assert (b - a) * c >= 0.0;
    } else {
      assert (a - b) * c > 0.0;
    }
  }

  lemma {:induction false} RulesReadOnce(history: map<string, seq<Reading>>, w: Workload, rules: seq<Rule>, now: Time, j: nat, key: string)
    requires forall b :: 0 <= b < |rules| && b != j ==> KeyOf(rules[b].id, w.entity) != key
    requires j < |rules| ==> KeyOf(rules[j].id, w.entity) == key
    ensures HistoryOf(AfterRules(history, w, rules, now), key) ==
            HistoryOf(history, key) + (if j < |rules| then [ReadingOf(rules[j], w, now)] else [])
  {
    hide KeyOf, ReadingOf;
    if rules != [] {
      RulesReadOnce(history, w, rules[..|rules| - 1], now, j, key);
    }
  }

  lemma {:induction false} NobodyReads(history: map<string, seq<Reading>>, ws: seq<Workload>, rules: seq<Rule>, now: Time, key: string)
    requires forall a, b :: 0 <= a < |ws| && 0 <= b < |rules| ==> KeyOf(rules[b].id, ws[a].entity) != key
    ensures HistoryOf(AfterWorkloads(history, ws, rules, now), key) == HistoryOf(history, key)
  {
    hide KeyOf;
    if ws != [] {
      var init, w := ws[..|ws| - 1], ws[|ws| - 1];
      NobodyReads(history, init, rules, now, key);
      RulesReadOnce(AfterWorkloads(history, init, rules, now), w, rules, now, |rules|, key);
    }
  }

  /** In a round the rule j and the workload i, if no other pair shares their key, add
      exactly one reading to their history: that rule's of that workload. */
  lemma {:induction false} PairReadsOnce(history: map<string, seq<Reading>>, ws: seq<Workload>, rules: seq<Rule>, now: Time, i: nat, j: nat)
    requires i < |ws| && j < |rules|
    requires forall a, b :: 0 <= a < |ws| && 0 <= b < |rules| && KeyOf(rules[b].id, ws[a].entity) == KeyOf(rules[j].id, ws[i].entity)
               ==> a == i && b == j
    ensures var key := KeyOf(rules[j].id, ws[i].entity);
            HistoryOf(AfterWorkloads(history, ws, rules, now), key) == HistoryOf(history, key) + [ReadingOf(rules[j], ws[i], now)]
  {
    hide KeyOf, ReadingOf;
    var init, w, key := ws[..|ws| - 1], ws[|ws| - 1], KeyOf(rules[j].id, ws[i].entity);
    if i == |ws| - 1 {
      NobodyReads(history, init, rules, now, key);
      RulesReadOnce(AfterWorkloads(history, init, rules, now), w, rules, now, j, key);
    } else {
      PairReadsOnce(history, init, rules, now, i, j);
      RulesReadOnce(AfterWorkloads(history, init, rules, now), w, rules, now, |rules|, key);
    }
  }

  /** Rules with ids of their own and without colons, and workloads with entities of
      their own: one round is one reading for every rule and workload. */
  lemma OneReadingEach(history: map<string, seq<Reading>>, ws: seq<Workload>, rules: seq<Rule>, now: Time)
    requires forall b :: 0 <= b < |rules| ==> ':' !in rules[b].id
    requires forall b, c :: 0 <= b < c < |rules| ==> rules[b].id != rules[c].id
    requires forall a, c :: 0 <= a < c < |ws| ==> ws[a].entity != ws[c].entity
    ensures forall i, j :: 0 <= i < |ws| && 0 <= j < |rules| ==>
              var key := KeyOf(rules[j].id, ws[i].entity);
              HistoryOf(AfterWorkloads(history, ws, rules, now), key) ==
              HistoryOf(history, key) + [ReadingOf(rules[j], ws[i], now)]
  {
    hide KeyOf, ReadingOf, HistoryOf, AfterWorkloads;
    forall i, j | 0 <= i < |ws| && 0 <= j < |rules|
      ensures var key := KeyOf(rules[j].id, ws[i].entity);
              HistoryOf(AfterWorkloads(history, ws, rules, now), key) ==
              HistoryOf(history, key) + [ReadingOf(rules[j], ws[i], now)]
    {
      forall a, b | 0 <= a < |ws| && 0 <= b < |rules| && KeyOf(rules[b].id, ws[a].entity) == KeyOf(rules[j].id, ws[i].entity)
        ensures a == i && b == j
      {
        KeyIsUnambiguous(rules[b].id, ws[a].entity, rules[j].id, ws[i].entity);
      }
      PairReadsOnce(history, ws, rules, now, i, j);
    }
  }

  /** The fields answer for the history of a key. */
  ghost predicate Answers(track: map<string, Tracker>, active: map<string, Alert>, events: seq<Event>, key: string, h: seq<Reading>) {
    var s := Streak(h);
    && (key in track <==> s != [])
    && (key in track ==> track[key].since == Since(s) && (track[key].fired <==> Firing(s)))
    && (key in active <==> Firing(s))
    && (key in active ==> Explains(active[key], s))
    && Published(events, key) == Changes(h)
  }

  /** An alert carries the time and value of the reading that raised it. */
  ghost predicate Explains(a: Alert, s: seq<Reading>) {
    exists j :: 0 <= j < |s| && RaisedBy(s, j) && a.firedAt == s[j].at && a.value == s[j].value
  }

  class Engine {
    var track: map<string, Tracker>
    var active: map<string, Alert>
    var published: seq<Event>
    const rules: seq<Rule>
    ghost var history: map<string, seq<Reading>>

    ghost predicate Valid()
      reads this
    {
      forall key :: Answers(track, active, published, key, HistoryOf(history, key))
    }

    constructor (rules: seq<Rule>)
      ensures Valid() && history == map[] && this.rules == rules && published == []
    {
      track, active, published, this.rules := map[], map[], [], rules;
      history := map[];
      NothingFires();
    }

    /** Evaluate; `listed` is what the store returned, or None when it failed. */
    method Evaluate(listed: Option<seq<Workload>>, now: Time)
      requires Valid()
      modifies this
      ensures Valid()
      ensures history == match listed
                         case None => old(history)
                         case Some(ws) => AfterWorkloads(old(history), ws, rules, now)
    {
      if listed.None? {
        return;
      }
      hide Answers, AfterRules, AfterWorkloads, Extended;
      NothingRead(old(history), rules, now);
      var ws := listed.value;
      for i := 0 to |ws|
        invariant Valid() && history == AfterWorkloads(old(history), ws[..i], rules, now)
      {
        var w := ws[i];
        assert ws[..i + 1] == ws[..i] + [w];
        OneMoreWorkload(old(history), ws[..i], w, rules, now);
        NoRules(history, w, now);
        var pct := 0.0;
        if w.limit > 0.0 {
          pct := w.memory / w.limit * 100.0;
        }
        ghost var before := history;
        for j := 0 to |rules|
          invariant Valid() && history == AfterRules(before, w, rules[..j], now)
        {
          var rule := rules[j];
          assert rules[..j + 1] == rules[..j] + [rule];
          OneMoreRule(before, w, rules[..j], rule, now);
          var val := w.cpu;
          if rule.metric == "memory.usage_pct" {
            val := pct;
          }
          EvalRule(rule, w.entity, val, now);
        }
        assert rules[..|rules|] == rules;
      }
      assert ws[..|ws|] == ws;
    }

    method EvalRule(rule: Rule, entity: string, value: real, now: Time)
      requires Valid()
      modifies this
      ensures Valid()
      ensures history == Extended(old(history), KeyOf(rule.id, entity), Reading(value >= rule.threshold, now, rule.duration, value))
    {
      hide Answers, KeyOf, Published, Streak, Since, Firing, Changes;
      var key := KeyOf(rule.id, entity);
      var above := value >= rule.threshold;
      ghost var r := Reading(above, now, rule.duration, value);
      ghost var h := HistoryOf(history, key);
      assert Answers(track, active, published, key, h);
      var tr := if key in track then track[key] else Tracker(0, false);
      TrackerKnows(track, active, published, key, h);
      OneMoreReading(Streak(h), r);
      history := Extended(history, key, r);
      if above {
        if tr.since == 0 {
          tr := tr.(since := now);
        }
        if !tr.fired && now - tr.since >= rule.duration {
          tr := tr.(fired := true);
          Fire(rule, entity, value, now);
        }
        track := track[key := tr];
        StillAbove(old(track), old(active), old(published), track, active, published, key, h, r);
      } else {
        if tr.fired {
          Resolve(rule, entity, value, now);
        }
        track := track - {key};
        BackBelow(old(track), old(active), old(published), track, active, published, key, h, r);
      }
      forall k ensures Answers(track, active, published, k, HistoryOf(history, k)) {
        if k != key {
          assert Answers(old(track), old(active), old(published), k, HistoryOf(old(history), k));
          SameForOthers(old(track), old(active), old(published), track, active, published, k, HistoryOf(history, k));
        }
      }
    }

    /** fire: the alert becomes active and is announced. */
    method Fire(rule: Rule, entity: string, value: real, now: Time)
      modifies this`active, this`published
      ensures active == old(active)[KeyOf(rule.id, entity) := Alert(rule.id, entity, now, value)]
      ensures forall k :: Published(published, k) ==
                Published(old(published), k) + (if k == KeyOf(rule.id, entity) then [Fired] else [])
      ensures var key := KeyOf(rule.id, entity);
              published == old(published) + [Event(Fired, key, rule.id, entity, now, value), Event(Threshold, key, rule.id, entity, now, value)]
    {
      hide Published, KeyOf;
      var key := KeyOf(rule.id, entity);
      active := active[key := Alert(rule.id, entity, now, value)];
      PublishedMore(published, Event(Fired, key, rule.id, entity, now, value));
      published := published + [Event(Fired, key, rule.id, entity, now, value)];
      PublishedMore(published, Event(Threshold, key, rule.id, entity, now, value));
      published := published + [Event(Threshold, key, rule.id, entity, now, value)];
    }

    /** resolve: the alert is taken back and announced. */
    method Resolve(rule: Rule, entity: string, value: real, now: Time)
      modifies this`active, this`published
      ensures active == old(active) - {KeyOf(rule.id, entity)}
      ensures forall k :: Published(published, k) ==
                Published(old(published), k) + (if k == KeyOf(rule.id, entity) then [Resolved] else [])
      ensures published == old(published) + [Event(Resolved, KeyOf(rule.id, entity), rule.id, entity, now, value)]
    {
      hide Published, KeyOf;
      var key := KeyOf(rule.id, entity);
      active := active - {key};
      PublishedMore(published, Event(Resolved, key, rule.id, entity, now, value));
      published := published + [Event(Resolved, key, rule.id, entity, now, value)];
    }
  }

  lemma TrackerKnows(track: map<string, Tracker>, active: map<string, Alert>, events: seq<Event>, key: string, h: seq<Reading>)
    requires Answers(track, active, events, key, h)
    ensures var tr := if key in track then track[key] else Tracker(0, false);
            tr.since == Since(Streak(h)) && (tr.fired <==> Firing(Streak(h))) && (key in active <==> tr.fired)
  {
  }

  /** A reading above the threshold: the streak grows and may raise the alert. */
  lemma StillAbove(track: map<string, Tracker>, active: map<string, Alert>, events: seq<Event>,
                   track': map<string, Tracker>, active': map<string, Alert>, events': seq<Event>,
                   key: string, h: seq<Reading>, r: Reading)
    requires Answers(track, active, events, key, h) && r.above
    requires var s := Streak(h) + [r];
             && key in track' && track'[key] == Tracker(Since(s), Firing(s))
             && if Firing(s) && !Firing(Streak(h)) then
                  && key in active' && active'[key].firedAt == r.at && active'[key].value == r.value
                  && Published(events', key) == Published(events, key) + [Fired]
                else
                  && (key in active' <==> key in active) && (key in active ==> active'[key] == active[key])
                  && Published(events', key) == Published(events, key)
    ensures Answers(track', active', events', key, h + [r])
  {
    hide Since, Firing, Changes, Published, Triggers;
    var before, s := Streak(h), Streak(h) + [r];
    LongerHistory(h, r);
    OneMoreReading(before, r);
    if Firing(s) && !Firing(before) {
      NeverTriggered(before);
      assert RaisedBy(s, |before|);
      assert s[|before|] == r;
    } else if key in active {
      var j :| 0 <= j < |before| && RaisedBy(before, j) && active[key].firedAt == before[j].at && active[key].value == before[j].value;
      assert RaisedBy(s, j) && s[j] == before[j];
    }
  }

  lemma NeverTriggered(s: seq<Reading>)
    ensures !Firing(s) <==> forall j :: 0 <= j < |s| ==> !Triggers(s, j)
  {
  }

  /** A reading below the threshold ends the streak and the alert. */
  lemma BackBelow(track: map<string, Tracker>, active: map<string, Alert>, events: seq<Event>,
                  track': map<string, Tracker>, active': map<string, Alert>, events': seq<Event>,
                  key: string, h: seq<Reading>, r: Reading)
    requires Answers(track, active, events, key, h) && !r.above
    requires key !in track' && key !in active'
    requires Published(events', key) == Published(events, key) + (if Firing(Streak(h)) then [Resolved] else [])
    ensures Answers(track', active', events', key, h + [r])
  {
    hide Since, Changes, Published, Triggers;
    LongerHistory(h, r);
  }

  lemma SameForOthers(track: map<string, Tracker>, active: map<string, Alert>, events: seq<Event>,
                      track': map<string, Tracker>, active': map<string, Alert>, events': seq<Event>,
                      k: string, h: seq<Reading>)
    requires Answers(track, active, events, k, h)
    requires (k in track' <==> k in track) && (k in track ==> track'[k] == track[k])
    requires (k in active' <==> k in active) && (k in active ==> active'[k] == active[k])
    requires Published(events', k) == Published(events, k)
    ensures Answers(track', active', events', k, h)
  {
    hide Since, Streak, Firing, Changes, Published;
  }

  /** What the fields of a valid engine mean, with real clock readings: an alert is
      active exactly when some reading came at least its duration after the first of
      the unbroken streak above the threshold, and its events alternate. */
  lemma EngineMeaning(track: map<string, Tracker>, active: map<string, Alert>, events: seq<Event>, key: string, h: seq<Reading>)
    requires Answers(track, active, events, key, h) && forall i :: 0 <= i < |h| ==> h[i].at != 0
    ensures var s := Streak(h);
            && (key in active <==> exists j :: 0 <= j < |s| && s[j].at - s[0].at >= s[j].duration)
            && (key in active <==> key in track && track[key].fired)
            && (key in active <==> |Published(events, key)| % 2 == 1)
            && forall i :: 0 <= i < |Published(events, key)| ==>
                 Published(events, key)[i] == if i % 2 == 0 then Fired else Resolved
  {
    PlainStreak(h);
    NeverFiresEmpty();
    hide Streak, Firing, Changes, Published, Since, Explains;
    ChangesAlternate(h);
  }

  lemma PlainStreak(h: seq<Reading>)
    requires forall i :: 0 <= i < |h| ==> h[i].at != 0
    ensures var s := Streak(h);
            Firing(s) <==> exists j :: 0 <= j < |s| && s[j].at - s[0].at >= s[j].duration
  {
    StreakIsLongestSuffix(h);
    var s := Streak(h);
    hide Streak, Firing;
    forall i | 0 <= i < |s| ensures s[i].at != 0 {
      assert s[i] == h[|h| - |s| + i];
    }
    FiringPlainly(s);
  }

  lemma NeverFiresEmpty()
    ensures !Firing([])
  {
  }
}
