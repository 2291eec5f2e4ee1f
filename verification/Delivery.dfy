/** Exactly-once delivery: an agent that retries, spools and replays batches
    under one fixed id, and a hub that claims the id and writes the rows in one
    transaction. Any number of requests, for the same id or for different ids,
    may be travelling, executing or answered at the same time. */
module Delivery {
  import opened Wrappers
  import Sorting

  type BatchId = string

  /** (source, target, port) of a topology link. */
  type LinkKey = (string, string, nat)

  /** One statement of a batch: a row to insert, or a link count to add. */
  datatype Stmt = Row(text: string) | Link(key: LinkKey, count: nat)

  /** Where a request is. An executing request is an open transaction: it has run
      the first `done` statements and holds its new rows, and the new values of
      the link rows it has locked, to itself. */
  datatype Phase =
    | Travelling
    | Executing(done: nat, rows: seq<string>, links: map<LinkKey, nat>)
    | Answered(status: nat)

  datatype Request = Request(id: BatchId, phase: Phase)

  /** Why the agent no longer keeps a batch that was not acknowledged. */
  datatype Reason = Permanent | Cancelled | NoSpool | PutFailed | Unlisted | Evicted | Damaged | Crashed

  datatype World = World(
    payload: map<BatchId, seq<Stmt>>,
    requests: seq<Request>,
    committed: seq<BatchId>,
    rows: seq<string>,
    links: map<LinkKey, nat>,
    announced: seq<BatchId>,
    sending: set<BatchId>,
    spooled: set<BatchId>,
    acked: set<BatchId>,
    dropped: map<BatchId, Reason>)

  datatype Event =
    // the agent
    | Create(id: BatchId, stmts: seq<Stmt>)
    | Send(id: BatchId)
    | Acknowledge(r: nat)
    | Store(id: BatchId)
    | Unspool(id: BatchId)
    | Drop(id: BatchId, reason: Reason)
    | Evict(ids: set<BatchId>)
    | Crash
    // the hub
    | Refuse(r: nat, status: nat)
    | Begin(r: nat)
    | Exec(r: nat)
    | Abort(r: nat)
    | Commit(r: nat, reported: bool)

  const Initial: World := World(map[], [], [], [], map[], [], {}, {}, {}, map[])

  function Get(links: map<LinkKey, nat>, k: LinkKey): nat {
    if k in links then links[k] else 0
  }

  function StmtsOf(w: World, id: BatchId): seq<Stmt> {
    if id in w.payload then w.payload[id] else []
  }

  predicate IsExecuting(w: World, r: nat) {
    r < |w.requests| && w.requests[r].phase.Executing?
  }

  /** Another open transaction holds the id. */
  predicate IdHeld(w: World, id: BatchId) {
    exists s :: 0 <= s < |w.requests| && IsExecuting(w, s) && w.requests[s].id == id
  }

  /** Another open transaction holds the link row. */
  predicate LinkHeld(w: World, k: LinkKey, r: nat) {
    exists s :: 0 <= s < |w.requests| && s != r && IsExecuting(w, s) && k in w.requests[s].phase.links
  }

  predicate Enabled(w: World, e: Event) {
    match e
    case Create(id, stmts) => id != "" && id !in w.payload
    case Send(id) => id in w.sending || id in w.spooled
    case Acknowledge(r) => r < |w.requests| && w.requests[r].phase.Answered? && w.requests[r].phase.status < 300
    case Store(id) => id in w.sending
    case Unspool(id) => id in w.spooled && (id in w.acked || id in w.dropped)
    case Drop(id, reason) => id in w.sending || id in w.spooled
    case Evict(ids) => true
    case Crash => true
    case Refuse(r, status) => r < |w.requests| && w.requests[r].phase.Travelling? && status >= 300
    case Begin(r) =>
      && r < |w.requests| && w.requests[r].phase.Travelling?
      && (w.requests[r].id in w.committed || !IdHeld(w, w.requests[r].id))
    case Exec(r) =>
      && IsExecuting(w, r) && w.requests[r].phase.done < |StmtsOf(w, w.requests[r].id)|
      && var s := StmtsOf(w, w.requests[r].id)[w.requests[r].phase.done];
         s.Link? ==> !LinkHeld(w, s.key, r)
    case Abort(r) => IsExecuting(w, r)
    case Commit(r, reported) => IsExecuting(w, r) && w.requests[r].phase.done == |StmtsOf(w, w.requests[r].id)|
  }

  function SetPhase(w: World, r: nat, p: Phase): World
    requires r < |w.requests|
  {
    w.(requests := w.requests[r := w.requests[r].(phase := p)])
  }

  /** One statement inside the transaction; the upsert adds to the value it sees. */
  function Execute(w: World, p: Phase, s: Stmt): Phase
    requires p.Executing?
  {
    match s
    case Row(text) => p.(done := p.done + 1, rows := p.rows + [text])
    case Link(k, n) =>
      var current := if k in p.links then p.links[k] else Get(w.links, k);
      p.(done := p.done + 1, links := p.links[k := current + n])
  }

  function Apply(w: World, e: Event): World
    requires Enabled(w, e)
  {
    match e
    case Create(id, stmts) => w.(payload := w.payload[id := stmts], sending := w.sending + {id})
    case Send(id) => w.(requests := w.requests + [Request(id, Travelling)])
    case Acknowledge(r) =>
      w.(acked := w.acked + {w.requests[r].id}, sending := w.sending - {w.requests[r].id})
    case Store(id) => w.(sending := w.sending - {id}, spooled := w.spooled + {id})
    case Unspool(id) => w.(spooled := w.spooled - {id})
    case Drop(id, reason) =>
      w.(sending := w.sending - {id}, spooled := w.spooled - {id}, dropped := w.dropped[id := reason])
    case Evict(ids) =>
      w.(spooled := w.spooled - ids,
         dropped := map id | id in w.dropped.Keys + (w.spooled * ids - w.acked) ::
           if id in w.dropped then w.dropped[id] else Evicted)
    case Crash =>
      w.(sending := {}, dropped := map id | id in w.dropped.Keys + w.sending ::
           if id in w.dropped then w.dropped[id] else Crashed)
    case Refuse(r, status) => SetPhase(w, r, Answered(status))
    case Begin(r) =>
      if w.requests[r].id in w.committed then SetPhase(w, r, Answered(202))
      else SetPhase(w, r, Executing(0, [], map[]))
    case Exec(r) =>
      var p := w.requests[r].phase;
      SetPhase(w, r, Execute(w, p, StmtsOf(w, w.requests[r].id)[p.done]))
    case Abort(r) => SetPhase(w, r, Answered(500))
    case Commit(r, reported) =>
      var p := w.requests[r].phase;
      SetPhase(w, r, Answered(if reported then 202 else 500)).(
        committed := w.committed + [w.requests[r].id],
        rows := w.rows + p.rows,
        links := w.links + p.links,
        announced := if reported then w.announced + [w.requests[r].id] else w.announced)
  }

  function Step(w: World, e: Event): World {
    if Enabled(w, e) then Apply(w, e) else w
  }

  /** The world after a run, and after a run from the start. */
  function RunFrom(w: World, es: seq<Event>): World {
    if es == [] then w else Step(RunFrom(w, es[..|es| - 1]), es[|es| - 1])
  }

  // ---- what the committed ids mean, independently of how they got there ----

  function RowsOf(stmts: seq<Stmt>): seq<string> {
    if stmts == [] then []
    else RowsOf(stmts[..|stmts| - 1]) + (match stmts[|stmts| - 1] case Row(t) => [t] case Link(_, _) => [])
  }

  function LinkSum(stmts: seq<Stmt>, k: LinkKey): nat {
    if stmts == [] then 0
    else
      var s := stmts[|stmts| - 1];
      LinkSum(stmts[..|stmts| - 1], k) + (if s.Link? && s.key == k then s.count else 0)
  }

  function LedgerRows(ids: seq<BatchId>, payload: map<BatchId, seq<Stmt>>): seq<string> {
    if ids == [] then []
    else
      var id := ids[|ids| - 1];
      LedgerRows(ids[..|ids| - 1], payload) + (if id in payload then RowsOf(payload[id]) else [])
  }

  function LedgerSum(ids: seq<BatchId>, payload: map<BatchId, seq<Stmt>>, k: LinkKey): nat {
    if ids == [] then 0
    else
      var id := ids[|ids| - 1];
      LedgerSum(ids[..|ids| - 1], payload, k) + (if id in payload then LinkSum(payload[id], k) else 0)
  }

  // ---- the invariant ----

  /** The tables hold each committed batch once and in full, and nothing else. */
  ghost predicate ExactLedger(w: World) {
    && Sorting.NoDuplicates(w.committed)
    && (forall id :: id in w.committed ==> id in w.payload)
    && w.rows == LedgerRows(w.committed, w.payload)
    && forall k: LinkKey :: Get(w.links, k) == LedgerSum(w.committed, w.payload, k)
  }

  /** What an open transaction holds is what its executed statements produced. */
  ghost predicate OpenTx(w: World, id: BatchId, p: Phase)
    requires p.Executing?
  {
    var stmts := StmtsOf(w, id);
    && id !in w.committed
    && p.done <= |stmts|
    && p.rows == RowsOf(stmts[..p.done])
    && forall k: LinkKey ::
         if k in p.links then p.links[k] == Get(w.links, k) + LinkSum(stmts[..p.done], k)
         else LinkSum(stmts[..p.done], k) == 0
  }

  ghost predicate OpenTxs(w: World) {
    && (forall r :: 0 <= r < |w.requests| ==> w.requests[r].id in w.payload)
    && (forall r :: 0 <= r < |w.requests| && w.requests[r].phase.Executing? ==>
          OpenTx(w, w.requests[r].id, w.requests[r].phase))
  }

  /** Locks are exclusive: one open transaction per id and per link row. */
  ghost predicate ExclusiveLocks(w: World) {
    forall r: nat, s: nat :: r != s && IsExecuting(w, r) && IsExecuting(w, s) ==>
      && w.requests[r].id != w.requests[s].id
      && w.requests[r].phase.links.Keys !! w.requests[s].phase.links.Keys
  }

  /** No false acknowledgement: a success status means the id is committed. */
  ghost predicate HonestAnswers(w: World) {
    && (forall r :: 0 <= r < |w.requests| && w.requests[r].phase.Answered? && w.requests[r].phase.status < 300 ==>
          w.requests[r].id in w.committed)
    && (forall id :: id in w.acked ==> id in w.committed)
  }

  /** No silent loss: every batch created is somewhere. */
  ghost predicate Accounted(w: World) {
    && (forall id :: id in w.payload <==> id in w.sending || id in w.spooled || id in w.acked || id in w.dropped)
    && (forall id :: id in w.payload ==> id != "")
  }

  /** What follows a commit, such as publishing an event, happens at most once per id. */
  ghost predicate AnnouncedOnce(w: World) {
    && Sorting.NoDuplicates(w.announced)
    && forall id :: id in w.announced ==> id in w.committed
  }

  ghost predicate Inv(w: World) {
    && ExactLedger(w) && OpenTxs(w) && ExclusiveLocks(w)
    && HonestAnswers(w) && Accounted(w) && AnnouncedOnce(w)
  }

  // ---- ledger lemmas ----

  lemma {:induction false} LedgerFrame(ids: seq<BatchId>, p: map<BatchId, seq<Stmt>>, q: map<BatchId, seq<Stmt>>)
    requires forall id :: id in ids ==> id in p && id in q && p[id] == q[id]
    ensures LedgerRows(ids, p) == LedgerRows(ids, q)
    ensures forall k: LinkKey :: LedgerSum(ids, p, k) == LedgerSum(ids, q, k)
  {
    if ids != [] {
      LedgerFrame(ids[..|ids| - 1], p, q);
    }
  }

  lemma LedgerSnoc(ids: seq<BatchId>, id: BatchId, p: map<BatchId, seq<Stmt>>)
    requires id in p
    ensures LedgerRows(ids + [id], p) == LedgerRows(ids, p) + RowsOf(p[id])
    ensures forall k: LinkKey :: LedgerSum(ids + [id], p, k) == LedgerSum(ids, p, k) + LinkSum(p[id], k)
  {
    assert (ids + [id])[..|ids|] == ids;
  }

  // ---- one event ----

  lemma CreateKeeps(w: World, id: BatchId, stmts: seq<Stmt>)
    requires Inv(w) && Enabled(w, Create(id, stmts))
    ensures Inv(Apply(w, Create(id, stmts)))
  {
    var w' := Apply(w, Create(id, stmts));
    LedgerFrame(w.committed, w.payload, w'.payload);
    forall r | 0 <= r < |w'.requests| && w'.requests[r].phase.Executing?
      ensures OpenTx(w', w'.requests[r].id, w'.requests[r].phase)
    {
      assert OpenTx(w, w.requests[r].id, w.requests[r].phase);
    }
  }

  /** Events that touch neither tables, payloads nor transactions. */
  lemma AgentStepKeeps(w: World, e: Event)
    requires Inv(w) && Enabled(w, e)
    requires e.Send? || e.Acknowledge? || e.Store? || e.Unspool? || e.Drop? || e.Evict? || e.Crash?
    ensures Inv(Apply(w, e))
  {
    AgentSideKeeps(w, e);
    AgentEventFrame(w, e);
    hide ExactLedger, OpenTxs, ExclusiveLocks, HonestAnswers, Accounted, AnnouncedOnce, Apply;
    HubSideFrame(w, Apply(w, e));
  }

  lemma AgentEventFrame(w: World, e: Event)
    requires Accounted(w) && Enabled(w, e)
    requires e.Send? || e.Acknowledge? || e.Store? || e.Unspool? || e.Drop? || e.Evict? || e.Crash?
    ensures var w' := Apply(w, e);
            && w'.payload == w.payload && w'.committed == w.committed && w'.announced == w.announced
            && w'.rows == w.rows && w'.links == w.links
            && (w'.requests == w.requests ||
                exists id :: id in w.payload && w'.requests == w.requests + [Request(id, Travelling)])
  {
  }

  lemma AgentSideKeeps(w: World, e: Event)
    requires HonestAnswers(w) && Accounted(w) && Enabled(w, e)
    requires forall r :: 0 <= r < |w.requests| ==> w.requests[r].id in w.payload
    requires e.Send? || e.Acknowledge? || e.Store? || e.Unspool? || e.Drop? || e.Evict? || e.Crash?
    ensures HonestAnswers(Apply(w, e)) && Accounted(Apply(w, e))
  {
  }

  lemma HubSideFrame(w: World, w': World)
    requires ExactLedger(w) && OpenTxs(w) && ExclusiveLocks(w) && AnnouncedOnce(w)
    requires w'.payload == w.payload && w'.committed == w.committed && w'.announced == w.announced
    requires w'.rows == w.rows && w'.links == w.links
    requires w'.requests == w.requests ||
             exists id :: id in w.payload && w'.requests == w.requests + [Request(id, Travelling)]
    ensures ExactLedger(w') && OpenTxs(w') && ExclusiveLocks(w') && AnnouncedOnce(w')
  {
    forall r | 0 <= r < |w'.requests| && w'.requests[r].phase.Executing?
      ensures OpenTx(w', w'.requests[r].id, w'.requests[r].phase)
    {
      assert OpenTx(w, w.requests[r].id, w.requests[r].phase);
    }
    forall r: nat, s: nat | r != s && IsExecuting(w', r) && IsExecuting(w', s)
      ensures w'.requests[r].id != w'.requests[s].id
      ensures w'.requests[r].phase.links.Keys !! w'.requests[s].phase.links.Keys
    {
      assert IsExecuting(w, r) && IsExecuting(w, s);
    }
  }

  /** Moving one request to a phase that fits the tables and the other locks. */
  lemma PhaseChangeKeeps(w: World, r: nat, p: Phase)
    requires Inv(w) && r < |w.requests|
    requires p.Answered? && p.status < 300 ==> w.requests[r].id in w.committed
    requires p.Executing? ==> OpenTx(w, w.requests[r].id, p)
    requires p.Executing? ==> forall s: nat :: s != r && IsExecuting(w, s) ==>
               w.requests[s].id != w.requests[r].id && w.requests[s].phase.links.Keys !! p.links.Keys
    ensures Inv(SetPhase(w, r, p))
  {
    hide LedgerRows, LedgerSum, RowsOf, LinkSum;
    var w' := SetPhase(w, r, p);
    forall s | 0 <= s < |w'.requests| && w'.requests[s].phase.Executing?
      ensures OpenTx(w', w'.requests[s].id, w'.requests[s].phase)
    {
      assert s != r ==> OpenTx(w, w.requests[s].id, w.requests[s].phase);
    }
    forall i: nat, j: nat | i != j && IsExecuting(w', i) && IsExecuting(w', j)
      ensures w'.requests[i].id != w'.requests[j].id
      ensures w'.requests[i].phase.links.Keys !! w'.requests[j].phase.links.Keys
    {
      assert i != r ==> IsExecuting(w, i);
      assert j != r ==> IsExecuting(w, j);
    }
  }

  lemma ClaimKeeps(w: World, r: nat)
    requires Inv(w) && Enabled(w, Begin(r)) && w.requests[r].id !in w.committed
    ensures Inv(Apply(w, Begin(r)))
  {
    assert StmtsOf(w, w.requests[r].id)[..0] == [];
    PhaseChangeKeeps(w, r, Executing(0, [], map[]));
  }

  lemma ExecKeeps(w: World, r: nat)
    requires Inv(w) && Enabled(w, Exec(r))
    ensures Inv(Apply(w, Exec(r)))
  {
    hide LedgerRows, LedgerSum, RowsOf, LinkSum;
    var id, p := w.requests[r].id, w.requests[r].phase;
    var s := StmtsOf(w, id)[p.done];
    ExecutedStatement(w, id, p);
    forall t: nat | t != r && IsExecuting(w, t)
      ensures w.requests[t].id != id && w.requests[t].phase.links.Keys !! Execute(w, p, s).links.Keys
    {
      assert IsExecuting(w, r);
    }
    PhaseChangeKeeps(w, r, Execute(w, p, s));
  }

  lemma ExecutedStatement(w: World, id: BatchId, p: Phase)
    requires p.Executing? && OpenTx(w, id, p) && p.done < |StmtsOf(w, id)|
    ensures OpenTx(w, id, Execute(w, p, StmtsOf(w, id)[p.done]))
  {
    var stmts := StmtsOf(w, id);
    var q := Execute(w, p, stmts[p.done]);
    assert stmts[..p.done + 1][..p.done] == stmts[..p.done];
    forall k: LinkKey
      ensures if k in q.links then q.links[k] == Get(w.links, k) + LinkSum(stmts[..q.done], k)
              else LinkSum(stmts[..q.done], k) == 0
    {
    }
  }

  lemma CommitKeeps(w: World, r: nat, reported: bool)
    requires Inv(w) && Enabled(w, Commit(r, reported))
    ensures Inv(Apply(w, Commit(r, reported)))
  {
    var w' := Apply(w, Commit(r, reported));
    CommittedLedger(w, r, reported);
    CommittedLocks(w, r, reported);
    CommittedAgent(w, r, reported);
  }

  lemma CommittedLocks(w: World, r: nat, reported: bool)
    requires Inv(w) && Enabled(w, Commit(r, reported))
    ensures OpenTxs(Apply(w, Commit(r, reported))) && ExclusiveLocks(Apply(w, Commit(r, reported)))
  {
    hide LedgerRows, LedgerSum, RowsOf, LinkSum;
    var w' := Apply(w, Commit(r, reported));
    forall s | 0 <= s < |w'.requests| && w'.requests[s].phase.Executing?
      ensures OpenTx(w', w'.requests[s].id, w'.requests[s].phase)
    {
      OthersUntouched(w, r, s, w');
    }
    forall i: nat, j: nat | i != j && IsExecuting(w', i) && IsExecuting(w', j)
      ensures w'.requests[i].id != w'.requests[j].id
      ensures w'.requests[i].phase.links.Keys !! w'.requests[j].phase.links.Keys
    {
      assert IsExecuting(w, i) && IsExecuting(w, j);
    }
  }

  lemma CommittedAgent(w: World, r: nat, reported: bool)
    requires Inv(w) && Enabled(w, Commit(r, reported))
    ensures var w' := Apply(w, Commit(r, reported)); HonestAnswers(w') && Accounted(w') && AnnouncedOnce(w')
  {
    hide LedgerRows, LedgerSum, RowsOf, LinkSum;
    assert OpenTx(w, w.requests[r].id, w.requests[r].phase);
    assert w.requests[r].id !in w.announced;
  }

  lemma CommittedLedger(w: World, r: nat, reported: bool)
    requires Inv(w) && Enabled(w, Commit(r, reported))
    ensures ExactLedger(Apply(w, Commit(r, reported)))
  {
    var w' := Apply(w, Commit(r, reported));
    var id, p := w.requests[r].id, w.requests[r].phase;
    assert OpenTx(w, id, p) && StmtsOf(w, id)[..p.done] == StmtsOf(w, id);
    LedgerSnoc(w.committed, id, w.payload);
    forall k: LinkKey ensures Get(w'.links, k) == LedgerSum(w'.committed, w'.payload, k) {
    }
  }

  /** A commit changes no row that another open transaction has locked. */
  lemma OthersUntouched(w: World, r: nat, s: nat, w': World)
    requires Inv(w) && IsExecuting(w, r) && IsExecuting(w, s) && r != s
    requires w'.payload == w.payload && w'.committed == w.committed + [w.requests[r].id]
    requires w'.links == w.links + w.requests[r].phase.links
    ensures OpenTx(w', w.requests[s].id, w.requests[s].phase)
  {
    var q := w.requests[s].phase;
    assert OpenTx(w, w.requests[s].id, q);
    assert w.requests[r].id != w.requests[s].id;
    forall k | k in q.links ensures Get(w'.links, k) == Get(w.links, k) {
      assert k !in w.requests[r].phase.links;
    }
  }

  lemma StepKeeps(w: World, e: Event)
    requires Inv(w)
    ensures Inv(Step(w, e))
  {
    if Enabled(w, e) {
      match e
      case Create(id, stmts) => CreateKeeps(w, id, stmts);
      case Refuse(r, status) => PhaseChangeKeeps(w, r, Answered(status));
      case Begin(r) =>
        if w.requests[r].id in w.committed { PhaseChangeKeeps(w, r, Answered(202)); } else { ClaimKeeps(w, r); }
      case Exec(r) => ExecKeeps(w, r);
      case Abort(r) => PhaseChangeKeeps(w, r, Answered(500));
      case Commit(r, reported) => CommitKeeps(w, r, reported);
      case _ => AgentStepKeeps(w, e);
    }
  }

  lemma {:induction false} RunKeeps(w: World, es: seq<Event>)
    requires Inv(w)
    ensures Inv(RunFrom(w, es))
  {
    if es != [] {
      RunKeeps(w, es[..|es| - 1]);
      StepKeeps(RunFrom(w, es[..|es| - 1]), es[|es| - 1]);
    }
  }

  lemma InitialIsFine()
    ensures Inv(Initial)
  {
  }

  // ---- the theorems about every run ----

  /** At most once and all or nothing: over every run the stored rows are the rows
      of the distinct committed batches, whole and in commit order, and nothing of
      any other batch, however often each was delivered. */
  lemma ExactlyOnce(es: seq<Event>)
    ensures var w := RunFrom(Initial, es);
            && Sorting.NoDuplicates(w.committed)
            && (forall id :: id in w.committed ==> id in w.payload)
            && w.rows == LedgerRows(w.committed, w.payload)
  {
    InitialIsFine();
    RunKeeps(Initial, es);
  }

  /** Link counts add up: although the upsert adds every time it runs, each count
      is the sum over the distinct committed batches. */
  lemma LinkCountsAddUp(es: seq<Event>, k: LinkKey)
    ensures var w := RunFrom(Initial, es);
            Get(w.links, k) == LedgerSum(w.committed, w.payload, k) && Sorting.NoDuplicates(w.committed)
  {
    InitialIsFine();
    RunKeeps(Initial, es);
  }

  /** A batch the agent considers delivered is committed, also when the success
      answered a duplicate. */
  lemma AcknowledgedIsCommitted(es: seq<Event>)
    ensures var w := RunFrom(Initial, es);
            && (forall id :: id in w.acked ==> id in w.committed)
            && (forall r :: 0 <= r < |w.requests| && w.requests[r].phase.Answered? && w.requests[r].phase.status < 300
                  ==> w.requests[r].id in w.committed)
  {
    InitialIsFine();
    RunKeeps(Initial, es);
  }

  /** At every point of every run each batch created is being sent, spooled,
      acknowledged, or dropped for a named reason. */
  lemma NoSilentLoss(es: seq<Event>, id: BatchId)
    requires id in RunFrom(Initial, es).payload
    ensures var w := RunFrom(Initial, es);
            id in w.sending || id in w.spooled || id in w.committed || id in w.dropped
  {
    InitialIsFine();
    RunKeeps(Initial, es);
  }

  /** What follows a reported commit, such as publishing an event or enqueueing log
      lines, happens at most once per batch and only for committed ones. */
  lemma FollowUpsHappenOnce(es: seq<Event>)
    ensures var w := RunFrom(Initial, es);
            Sorting.NoDuplicates(w.announced) && forall id :: id in w.announced ==> id in w.committed
  {
    InitialIsFine();
    RunKeeps(Initial, es);
  }

  lemma StepGrows(w: World, e: Event)
    ensures w.committed <= Step(w, e).committed && w.rows <= Step(w, e).rows
    ensures forall id :: id in w.payload ==> id in Step(w, e).payload && Step(w, e).payload[id] == w.payload[id]
  {
  }

  /** Nothing committed is ever taken back. */
  lemma {:induction false} CommitsAreFinal(w: World, es: seq<Event>)
    ensures w.committed <= RunFrom(w, es).committed && w.rows <= RunFrom(w, es).rows
    ensures forall id :: id in w.payload ==> id in RunFrom(w, es).payload && RunFrom(w, es).payload[id] == w.payload[id]
  {
    if es != [] {
      var before := RunFrom(w, es[..|es| - 1]);
      CommitsAreFinal(w, es[..|es| - 1]);
      StepGrows(before, es[|es| - 1]);
      hide Step;
      PrefixTransitive(w.committed, before.committed, RunFrom(w, es).committed);
      PrefixTransitive(w.rows, before.rows, RunFrom(w, es).rows);
    }
  }

  /** A rolled back attempt leaves the tables and the ledger as they were and
      frees its id and its rows. */
  lemma AbortLeavesNoTrace(w: World, r: nat)
    requires Inv(w) && IsExecuting(w, r)
    ensures var w' := Step(w, Abort(r));
            && w'.rows == w.rows && w'.links == w.links && w'.committed == w.committed
            && !IdHeld(w', w.requests[r].id)
            && w.requests[r].id !in w'.committed
            && forall k :: k in w.requests[r].phase.links ==> !LinkHeld(w', k, r)
  {
    assert OpenTx(w, w.requests[r].id, w.requests[r].phase);
  }

  lemma PrefixTransitive<T>(a: seq<T>, b: seq<T>, c: seq<T>)
    requires a <= b && b <= c
    ensures a <= c
  {
  }

  lemma {:induction false} RunSplit(w: World, es: seq<Event>, fs: seq<Event>)
    ensures RunFrom(w, es + fs) == RunFrom(RunFrom(w, es), fs)
  {
    if fs == [] {
      assert es + fs == es;
    } else {
      RunSplit(w, es, fs[..|fs| - 1]);
      assert (es + fs)[..|es + fs| - 1] == es + fs[..|fs| - 1];
    }
  }

  lemma AloneCanExec(w: World, r: nat)
    requires IsExecuting(w, r) && w.requests[r].phase.done < |StmtsOf(w, w.requests[r].id)|
    requires forall s: nat :: s != r ==> !IsExecuting(w, s)
    ensures Enabled(w, Exec(r))
  {
  }

  /** Running all statements of a claimed batch while nobody else is executing. */
  lemma {:induction false} ExecuteAll(w: World, r: nat, n: nat)
    requires Inv(w) && IsExecuting(w, r)
    requires forall s: nat :: s != r ==> !IsExecuting(w, s)
    requires w.requests[r].phase.done + n == |StmtsOf(w, w.requests[r].id)|
    ensures var w' := RunFrom(w, seq(n, i => Exec(r)));
            && Inv(w') && IsExecuting(w', r) && w'.requests[r].id == w.requests[r].id
            && w'.payload == w.payload && w'.committed == w.committed && w'.rows == w.rows
            && w'.requests[r].phase.done == |StmtsOf(w, w.requests[r].id)|
    decreases n
  {
    if n > 0 {
      ExecuteOne(w, r);
      ExecFirst(w, r, n);
      hide Inv, Step, IsExecuting, StmtsOf, RunFrom;
      ExecuteAll(Step(w, Exec(r)), r, n - 1);
    }
  }

  /** Executing n statements is executing one and then the others. */
  lemma ExecFirst(w: World, r: nat, n: nat)
    requires n > 0
    ensures RunFrom(w, seq(n, i => Exec(r))) == RunFrom(Step(w, Exec(r)), seq(n - 1, i => Exec(r)))
  {
    hide Step;
    var rest := seq(n - 1, i => Exec(r));
    assert seq(n, i => Exec(r)) == [Exec(r)] + rest;
    assert [Exec(r)][..0] == [];
    assert RunFrom(w, [Exec(r)]) == Step(w, Exec(r));
    RunSplit(w, [Exec(r)], rest);
  }

  lemma ExecuteOne(w: World, r: nat)
    requires Inv(w) && IsExecuting(w, r)
    requires forall s: nat :: s != r ==> !IsExecuting(w, s)
    requires w.requests[r].phase.done < |StmtsOf(w, w.requests[r].id)|
    ensures var first := Step(w, Exec(r));
            && Inv(first) && IsExecuting(first, r) && (forall s: nat :: s != r ==> !IsExecuting(first, s))
            && first.requests[r].id == w.requests[r].id && first.payload == w.payload
            && StmtsOf(first, w.requests[r].id) == StmtsOf(w, w.requests[r].id)
            && first.committed == w.committed && first.rows == w.rows
            && first.requests[r].phase.done == w.requests[r].phase.done + 1
  {
    AloneCanExec(w, r);
    StepKeeps(w, Exec(r));
    hide Inv;
    var first := Step(w, Exec(r));
    forall s: nat | s != r ensures !IsExecuting(first, s) {
      assert !IsExecuting(w, s);
    }
  }

  /** One more committed batch adds its link counts and no others. */
  lemma LinksFollowLedger(w: World, es: seq<Event>, id: BatchId)
    requires Inv(w) && id in w.payload && RunFrom(w, es).committed == w.committed + [id]
    ensures forall k: LinkKey :: Get(RunFrom(w, es).links, k) == Get(w.links, k) + LinkSum(w.payload[id], k)
  {
    var w' := RunFrom(w, es);
    RunKeeps(w, es);
    CommitsAreFinal(w, es);
    hide RunFrom, LedgerRows, LedgerSum, RowsOf, LinkSum;
    LedgerFrame(w.committed, w.payload, w'.payload);
    LedgerSnoc(w.committed, id, w'.payload);
  }

  /** The request was answered with success. */
  predicate Succeeded(w: World, r: nat, id: BatchId) {
    r < |w.requests| && w.requests[r].id == id && w.requests[r].phase.Answered? && w.requests[r].phase.status < 300
  }

  /** The events of an attempt that nothing disturbs: n statements between claim and commit. */
  function QuietAttempt(id: BatchId, r: nat, n: nat): seq<Event> {
    [Send(id)] + QuietHub(r, n)
  }

  function QuietHub(r: nat, n: nat): seq<Event> {
    [Begin(r)] + seq(n, i => Exec(r)) + [Commit(r, true)]
  }

  /** An undisturbed attempt of a batch the agent still keeps commits it, is answered
      with success, and its follow-ups take place. */
  lemma QuietAttemptApplies(w: World, id: BatchId) returns (es: seq<Event>)
    requires Inv(w) && (id in w.sending || id in w.spooled) && id !in w.committed
    requires forall s: nat :: !IsExecuting(w, s)
    ensures es == QuietAttempt(id, |w.requests|, |StmtsOf(w, id)|)
    ensures RunFrom(w, es).committed == w.committed + [id]
    ensures RunFrom(w, es).rows == w.rows + RowsOf(w.payload[id])
    ensures forall k: LinkKey :: Get(RunFrom(w, es).links, k) == Get(w.links, k) + LinkSum(w.payload[id], k)
    ensures Succeeded(RunFrom(w, es), |w.requests|, id) && id in RunFrom(w, es).announced
  {
    var r, n := |w.requests|, |StmtsOf(w, id)|;
    var begun := SendAndClaim(w, id);
    ExecuteAll(begun, r, n);
    var middle := seq(n, i => Exec(r));
    var done := RunFrom(begun, middle);
    FinalCommit(done, r);
    es := [Send(id), Begin(r)] + middle + [Commit(r, true)];
    assert es == QuietAttempt(id, r, n);
    RunSplit(w, [Send(id), Begin(r)], middle);
    RunSplit(w, [Send(id), Begin(r)] + middle, [Commit(r, true)]);
    OneStep(done, Commit(r, true));
    LinksFollowLedger(w, es, id);
  }

  /** A batch that is already committed is acknowledged when it is delivered again:
      the duplicate changes no table, is answered with success, and the agent takes it
      off its books as delivered. */
  lemma DuplicateIsAcknowledged(w: World, id: BatchId)
    requires Inv(w) && (id in w.sending || id in w.spooled) && id in w.committed
    ensures var r := |w.requests|;
            var answered := RunFrom(w, [Send(id), Begin(r)]);
            && Succeeded(answered, r, id) && answered.(requests := w.requests) == w
            && var told := Step(answered, Acknowledge(r));
               told.acked == w.acked + {id} && id !in told.sending && told.committed == w.committed
  {
    var r := |w.requests|;
    var sent := w.(requests := w.requests + [Request(id, Travelling)]);
    assert Step(w, Send(id)) == sent;
    DuplicateAnswer(sent, r);
    TwoSteps(w, Send(id), Begin(r));
    var answered := Step(sent, Begin(r));
    assert answered.(requests := w.requests) == w;
    hide Inv;
    AcknowledgedNow(answered, r);
  }

  lemma DuplicateAnswer(w: World, r: nat)
    requires r < |w.requests| && w.requests[r].phase.Travelling? && w.requests[r].id in w.committed
    ensures var w' := Step(w, Begin(r));
            w'.(requests := w.requests) == w && Succeeded(w', r, w.requests[r].id)
  {
  }

  lemma AcknowledgedNow(w: World, r: nat)
    requires r < |w.requests| && Succeeded(w, r, w.requests[r].id)
    ensures var w', id := Step(w, Acknowledge(r)), w.requests[r].id;
            w'.acked == w.acked + {id} && id !in w'.sending && w'.committed == w.committed
  {
  }

  /** What single statements contribute. */
  lemma StatementEffects(t: string, key: LinkKey, n: nat, k: LinkKey)
    ensures RowsOf([]) == [] && RowsOf([Row(t)]) == [t] && RowsOf([Link(key, n)]) == []
    ensures LinkSum([], k) == 0 && LinkSum([Row(t)], k) == 0 && LinkSum([Link(key, n)], k) == if k == key then n else 0
  {
    assert [Row(t)][..0] == [] && [Link(key, n)][..0] == [];
  }

  /** Contributions add up. */
  lemma {:induction false} StatementsAddUp(a: seq<Stmt>, b: seq<Stmt>, k: LinkKey)
    ensures LinkSum(a + b, k) == LinkSum(a, k) + LinkSum(b, k)
    ensures RowsOf(a + b) == RowsOf(a) + RowsOf(b)
  {
    if b == [] {
      assert a + b == a;
    } else {
      StatementsAddUp(a, b[..|b| - 1], k);
      assert (a + b)[..|a + b| - 1] == a + b[..|b| - 1];
    }
  }

  /** Aborting the open transactions among the first n requests. */
  lemma {:induction false} AbortAll(w: World, n: nat) returns (es: seq<Event>)
    requires Inv(w) && n <= |w.requests|
    ensures var w' := RunFrom(w, es);
            && Inv(w') && |w'.requests| == |w.requests|
            && w'.(requests := w.requests) == w
            && (forall s: nat :: s < n ==> !IsExecuting(w', s))
            && (forall s: nat :: n <= s < |w.requests| ==> w'.requests[s] == w.requests[s])
  {
    es := [];
    if n > 0 {
      var before := AbortAll(w, n - 1);
      var mid := RunFrom(w, before);
      es := before + [Abort(n - 1)];
      RunSplit(w, before, [Abort(n - 1)]);
      OneStep(mid, Abort(n - 1));
      StepKeeps(mid, Abort(n - 1));
      forall s: nat | s < n ensures !IsExecuting(RunFrom(w, es), s) {
        if s < n - 1 {
          assert !IsExecuting(mid, s);
        }
      }
    }
  }

  /** No attempt spoils a later one: from every reachable state, whatever is still
      executing then, a batch that the agent keeps and that is not committed can
      still be committed, exactly once and in full. */
  lemma LaterAttemptApplies(w: World, id: BatchId) returns (es: seq<Event>)
    requires Inv(w) && (id in w.sending || id in w.spooled) && id !in w.committed
    ensures RunFrom(w, es).committed == w.committed + [id]
    ensures RunFrom(w, es).rows == w.rows + RowsOf(w.payload[id])
    ensures forall k: LinkKey :: Get(RunFrom(w, es).links, k) == Get(w.links, k) + LinkSum(w.payload[id], k)
    ensures Succeeded(RunFrom(w, es), |w.requests|, id) && id in RunFrom(w, es).announced
  {
    var quiet := AbortAll(w, |w.requests|);
    var w' := RunFrom(w, quiet);
    var attempt := QuietAttemptApplies(w', id);
    es := quiet + attempt;
    RunSplit(w, quiet, attempt);
    LinksFollowLedger(w, es, id);
  }

  lemma SendAndClaim(w: World, id: BatchId) returns (begun: World)
    requires Inv(w) && (id in w.sending || id in w.spooled) && id !in w.committed
    requires forall s: nat :: !IsExecuting(w, s)
    ensures var r := |w.requests|;
            && begun == RunFrom(w, [Send(id), Begin(r)]) && Inv(begun)
            && begun.payload == w.payload && begun.committed == w.committed && begun.rows == w.rows
            && IsExecuting(begun, r) && begun.requests[r] == Request(id, Executing(0, [], map[]))
            && forall s: nat :: s != r ==> !IsExecuting(begun, s)
  {
    var r := |w.requests|;
    var sent := Step(w, Send(id));
    StepKeeps(w, Send(id));
    SentQuietly(w, id);
    begun := Step(sent, Begin(r));
    StepKeeps(sent, Begin(r));
    TwoSteps(w, Send(id), Begin(r));
    hide Inv;
    ClaimedQuietly(sent, r);
  }

  lemma SentQuietly(w: World, id: BatchId)
    requires (id in w.sending || id in w.spooled) && forall s: nat :: !IsExecuting(w, s)
    ensures var sent := Step(w, Send(id));
            && sent == w.(requests := w.requests + [Request(id, Travelling)])
            && forall s: nat :: !IsExecuting(sent, s)
  {
    var sent := Step(w, Send(id));
    forall s: nat ensures !IsExecuting(sent, s) {
      assert !IsExecuting(w, s);
    }
  }

  lemma ClaimedQuietly(w: World, r: nat)
    requires r < |w.requests| && w.requests[r].phase.Travelling? && w.requests[r].id !in w.committed
    requires forall s: nat :: !IsExecuting(w, s)
    ensures var begun := Step(w, Begin(r));
            && begun == w.(requests := w.requests[r := Request(w.requests[r].id, Executing(0, [], map[]))])
            && IsExecuting(begun, r) && forall s: nat :: s != r ==> !IsExecuting(begun, s)
  {
    var begun := Step(w, Begin(r));
    forall s: nat | s != r ensures !IsExecuting(begun, s) {
      assert !IsExecuting(w, s);
    }
  }

  lemma FinalCommit(w: World, r: nat)
    requires Inv(w) && IsExecuting(w, r) && w.requests[r].phase.done == |StmtsOf(w, w.requests[r].id)|
    ensures var w' := Step(w, Commit(r, true));
            && w'.committed == w.committed + [w.requests[r].id]
            && w'.rows == w.rows + RowsOf(StmtsOf(w, w.requests[r].id))
            && w'.announced == w.announced + [w.requests[r].id]
            && Succeeded(w', r, w.requests[r].id)
  {
    var stmts := StmtsOf(w, w.requests[r].id);
    assert OpenTx(w, w.requests[r].id, w.requests[r].phase);
    assert stmts[..|stmts|] == stmts;
  }

  lemma OneStep(w: World, e: Event)
    ensures RunFrom(w, [e]) == Step(w, e)
  {
    assert [e][..0] == [];
  }

  lemma TwoSteps(w: World, e: Event, f: Event)
    ensures RunFrom(w, [e, f]) == Step(Step(w, e), f)
  {
    assert [e, f][..1] == [e];
    OneStep(w, e);
  }
}
