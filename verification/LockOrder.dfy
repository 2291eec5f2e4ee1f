/** Locks taken by concurrent ingest transactions: the batch id first, then the
    workload_latest rows in sorted key order. Transactions that take their locks
    in one global order can never wait for each other in a circle. */
module LockOrder {
  import opened Text
  import opened WorkloadLatest
  import opened MetricStore
  import opened Delivery
  import Sorting

  datatype Lock = BatchLock(id: string) | RowLock(key: Key) | LinkLock(link: LinkKey)

  predicate LinkBefore(a: LinkKey, b: LinkKey) {
    if a.0 != b.0 then Less(a.0, b.0) else if a.1 != b.1 then Less(a.1, b.1) else a.2 < b.2
  }

  /** Batch ids come before rows; within each kind the texts decide. */
  predicate Precedes(a: Lock, b: Lock) {
    match (a, b)
    case (BatchLock(x), BatchLock(y)) => Less(x, y)
    case (BatchLock(_), _) => true
    case (_, BatchLock(_)) => false
    case (RowLock(x), RowLock(y)) => KeyAtMost(x, y) && x != y
    case (RowLock(_), LinkLock(_)) => true
    case (LinkLock(_), RowLock(_)) => false
    case (LinkLock(x), LinkLock(y)) => LinkBefore(x, y)
  }

  lemma LinkBeforeIsStrict(a: LinkKey, b: LinkKey, c: LinkKey)
    ensures !LinkBefore(a, a)
    ensures LinkBefore(a, b) && LinkBefore(b, c) ==> LinkBefore(a, c)
    ensures LinkBefore(a, b) || a == b || LinkBefore(b, a)
    ensures !(LinkBefore(a, b) && LinkBefore(b, a))
  {
    hide Less;
    OrderFacts(a.0, b.0, c.0);
    OrderFacts(b.0, c.0, a.0);
    OrderFacts(a.1, b.1, c.1);
    OrderFacts(b.1, c.1, a.1);
  }

  lemma PrecedesIsStrict(a: Lock, b: Lock, c: Lock)
    ensures !Precedes(a, a)
    ensures Precedes(a, b) && Precedes(b, c) ==> Precedes(a, c)
    ensures Precedes(a, b) || a == b || Precedes(b, a)
    ensures !(Precedes(a, b) && Precedes(b, a))
  {
    KeyOrderIsTotal();
    if a.LinkLock? {
      LinkBeforeIsStrict(a.link, if b.LinkLock? then b.link else a.link, if c.LinkLock? then c.link else a.link);
    }
    if a.BatchLock? {
      LessIrreflexive(a.id);
      if b.BatchLock? {
        OrderFacts(a.id, b.id, if c.BatchLock? then c.id else "");
      }
    }
  }

  /** Locks in strictly increasing order. */
  ghost predicate Ascending(locks: seq<Lock>) {
    forall i, j :: 0 <= i < j < |locks| ==> Precedes(locks[i], locks[j])
  }

  /** A transaction: its locks in the order it asks for them, how many it holds,
      and whether it has ended. */
  datatype Tx = Tx(locks: seq<Lock>, held: nat, ended: bool)

  /** All transactions, and the batch ids committed so far. */
  datatype System = System(txs: seq<Tx>, committed: set<string>)

  ghost predicate WellFormed(s: System) {
    forall i :: 0 <= i < |s.txs| ==> s.txs[i].held <= |s.txs[i].locks|
  }

  /** Every transaction asks for its locks in the global order. */
  ghost predicate Ordered(s: System) {
    WellFormed(s) && forall i :: 0 <= i < |s.txs| ==> Ascending(s.txs[i].locks)
  }

  predicate Holds(t: Tx, l: Lock)
    requires t.held <= |t.locks|
  {
    !t.ended && l in t.locks[..t.held]
  }

  predicate Wants(t: Tx, l: Lock) {
    !t.ended && t.held < |t.locks| && t.locks[t.held] == l
  }

  /** Transaction i asks for a lock that transaction j holds. */
  ghost predicate WaitsFor(s: System, i: nat, j: nat)
    requires WellFormed(s)
  {
    && i < |s.txs| && j < |s.txs| && i != j
    && exists l :: Wants(s.txs[i], l) && Holds(s.txs[j], l)
  }

  ghost predicate Blocked(s: System, i: nat)
    requires WellFormed(s)
  {
    exists j: nat :: WaitsFor(s, i, j)
  }

  /** Transaction i moves on: it ends as a duplicate when its batch id is committed, takes
      the next lock when nobody else holds it, or commits when it has every lock. */
  ghost predicate Advance(s: System, i: nat, s': System)
    requires WellFormed(s)
  {
    && i < |s.txs| && !s.txs[i].ended && !Blocked(s, i)
    && var t := s.txs[i];
       if t.held == |t.locks| then
         s' == System(s.txs[i := t.(ended := true)], s.committed + IdsOf(t))
       else if t.locks[t.held].BatchLock? && t.locks[t.held].id in s.committed then
         s' == s.(txs := s.txs[i := t.(ended := true)])
       else
         s' == s.(txs := s.txs[i := t.(held := t.held + 1)])
  }

  /** A transaction may also fail at any time and give its locks back. */
  ghost predicate Abort(s: System, i: nat, s': System) {
    i < |s.txs| && !s.txs[i].ended && s' == s.(txs := s.txs[i := s.txs[i].(ended := true)])
  }

  ghost predicate Step(s: System, i: nat, s': System)
    requires WellFormed(s)
  {
    Advance(s, i, s') || Abort(s, i, s')
  }

  function IdsOf(t: Tx): set<string> {
    set l | l in t.locks && l.BatchLock? :: l.id
  }

  /** Steps still possible at most. */
  function Work(txs: seq<Tx>): nat {
    if txs == [] then 0
    else (if txs[0].ended || txs[0].held > |txs[0].locks| then 0 else |txs[0].locks| - txs[0].held + 1) + Work(txs[1..])
  }

  /** A waiting transaction wants a lock before anything its holder still wants:
      the wait-for relation climbs the lock order. */
  lemma WaitingClimbs(s: System, i: nat, j: nat)
    requires Ordered(s) && WaitsFor(s, i, j)
    requires s.txs[j].held < |s.txs[j].locks|
    ensures Precedes(s.txs[i].locks[s.txs[i].held], s.txs[j].locks[s.txs[j].held])
  {
    var l :| Wants(s.txs[i], l) && Holds(s.txs[j], l);
    var m :| 0 <= m < s.txs[j].held && s.txs[j].locks[..s.txs[j].held][m] == l;
  }

  /** A chain of waiting transactions. */
  ghost predicate WaitChain(s: System, path: seq<nat>)
    requires WellFormed(s)
  {
    forall n :: 0 <= n < |path| - 1 ==> WaitsFor(s, path[n], path[n + 1])
  }

  lemma {:induction false} ChainClimbs(s: System, path: seq<nat>)
    requires Ordered(s) && WaitChain(s, path) && |path| >= 2
    requires var last := path[|path| - 1]; last < |s.txs| && s.txs[last].held < |s.txs[last].locks|
    ensures path[0] < |s.txs| && s.txs[path[0]].held < |s.txs[path[0]].locks|
    ensures Precedes(s.txs[path[0]].locks[s.txs[path[0]].held],
                     s.txs[path[|path| - 1]].locks[s.txs[path[|path| - 1]].held])
  {
    assert WaitsFor(s, path[0], path[1]);
    if |path| == 2 {
      WaitingClimbs(s, path[0], path[1]);
    } else {
      var rest := path[1..];
      forall n | 0 <= n < |rest| - 1 ensures WaitsFor(s, rest[n], rest[n + 1]) {
        assert WaitsFor(s, path[n + 1], path[n + 2]);
      }
      ChainClimbs(s, rest);
      WaitingClimbs(s, path[0], path[1]);
      var a, b, c := s.txs[path[0]], s.txs[path[1]], s.txs[path[|path| - 1]];
      PrecedesIsStrict(a.locks[a.held], b.locks[b.held], c.locks[c.held]);
    }
  }

  /** Nobody ever waits for itself through others: there is no deadlock. */
  lemma NoWaitCycle(s: System, path: seq<nat>)
    requires Ordered(s) && WaitChain(s, path) && |path| >= 2
    ensures path[0] != path[|path| - 1]
  {
    if path[0] == path[|path| - 1] {
      assert WaitsFor(s, path[0], path[1]);
      ChainClimbs(s, path);
      var t := s.txs[path[0]];
      PrecedesIsStrict(t.locks[t.held], t.locks[t.held], t.locks[t.held]);
    }
  }

  /** Among the unfinished transactions from i on, one whose next lock is the
      furthest in the order, or one that has all its locks. */
  lemma {:induction false} FurthestTx(s: System, i: nat) returns (f: nat)
    requires Ordered(s) && i < |s.txs| && exists j :: i <= j < |s.txs| && !s.txs[j].ended
    ensures i <= f < |s.txs| && !s.txs[f].ended
    ensures s.txs[f].held == |s.txs[f].locks| ||
            forall j :: i <= j < |s.txs| && !s.txs[j].ended ==>
              s.txs[j].held < |s.txs[j].locks| &&
              !Precedes(s.txs[f].locks[s.txs[f].held], s.txs[j].locks[s.txs[j].held])
    decreases |s.txs| - i
  {
    var t := s.txs[i];
    if !t.ended && t.held == |t.locks| {
      f := i;
    } else if exists j :: i + 1 <= j < |s.txs| && !s.txs[j].ended {
      f := FurthestTx(s, i + 1);
      var g := s.txs[f];
      if g.held < |g.locks| && !t.ended {
        var (x, y) := (t.locks[t.held], g.locks[g.held]);
        PrecedesIsStrict(x, y, x);
        if Precedes(y, x) {
          forall j | i <= j < |s.txs| && !s.txs[j].ended
            ensures !Precedes(x, s.txs[j].locks[s.txs[j].held])
          {
            PrecedesIsStrict(y, x, s.txs[j].locks[s.txs[j].held]);
          }
          f := i;
        }
      }
    } else {
      f := i;
      PrecedesIsStrict(t.locks[t.held], t.locks[t.held], t.locks[t.held]);
    }
  }

  /** Progress without any abort: while a transaction is unfinished, some
      transaction is not waiting and moves on. */
  lemma SomeoneCanStep(s: System) returns (i: nat)
    requires Ordered(s) && exists j :: 0 <= j < |s.txs| && !s.txs[j].ended
    ensures exists s' :: Advance(s, i, s')
  {
    i := FurthestTx(s, 0);
    if Blocked(s, i) {
      var j: nat :| WaitsFor(s, i, j);
      WaitingClimbs(s, i, j);
      assert false;
    }
    var s' := AdvanceOf(s, i);
  }

  lemma {:induction false} WorkDrops(txs: seq<Tx>, i: nat, t: Tx)
    requires i < |txs| && !txs[i].ended && txs[i].held <= |txs[i].locks| && t.locks == txs[i].locks
    requires t.ended || (t.held == txs[i].held + 1 <= |t.locks|)
    ensures Work(txs[i := t]) < Work(txs)
  {
    if i > 0 {
      WorkDrops(txs[1..], i - 1, t);
      assert txs[i := t][1..] == txs[1..][i - 1 := t];
    } else {
      assert txs[i := t][1..] == txs[1..];
    }
  }

  lemma StepKeepsOrder(s: System, i: nat, s': System)
    requires Ordered(s) && Step(s, i, s')
    ensures Ordered(s') && Work(s'.txs) < Work(s.txs)
  {
    var t := s'.txs[i];
    WorkDrops(s.txs, i, t);
  }

  /** A schedule: each state follows from the one before by a step of someone. */
  ghost predicate Schedule(states: seq<System>) {
    && states != []
    && forall n :: 0 <= n < |states| - 1 ==>
         Moves(states[n], states[n + 1])
  }

  ghost predicate Moves(s: System, s': System) {
    WellFormed(s) && exists i: nat :: Step(s, i, s')
  }

  /** Nobody can move on any more, although somebody has not ended; an abort is then
      the only way out. */
  ghost predicate Stuck(s: System) {
    && WellFormed(s)
    && (exists j :: 0 <= j < |s.txs| && !s.txs[j].ended)
    && forall i: nat, s' :: !Advance(s, i, s')
  }

  lemma AdvanceOf(s: System, i: nat) returns (s': System)
    requires WellFormed(s) && i < |s.txs| && !s.txs[i].ended && !Blocked(s, i)
    ensures Advance(s, i, s')
  {
    var t := s.txs[i];
    s' :=
      if t.held == |t.locks| then System(s.txs[i := t.(ended := true)], s.committed + IdsOf(t))
      else if t.locks[t.held].BatchLock? && t.locks[t.held].id in s.committed then
        s.(txs := s.txs[i := t.(ended := true)])
      else s.(txs := s.txs[i := t.(held := t.held + 1)]);
  }

  /** Every schedule of ordered transactions, aborts anywhere, ends after at most
      Work steps, and its last state is one where nobody can advance only when every
      transaction has ended: no abort is ever needed. */
  lemma {:induction false} EveryScheduleFinishes(states: seq<System>)
    requires Schedule(states) && Ordered(states[0])
    ensures |states| - 1 + Work(states[|states| - 1].txs) <= Work(states[0].txs)
    ensures var last := states[|states| - 1];
            Ordered(last) &&
            ((forall i: nat, s' :: !Advance(last, i, s')) <==> (forall j :: 0 <= j < |last.txs| ==> last.txs[j].ended))
  {
    if |states| == 1 {
      NeverStuck(states[0]);
    } else {
      var init := states[..|states| - 1];
      forall n | 0 <= n < |init| - 1 ensures Moves(init[n], init[n + 1]) {
        assert init[n] == states[n] && init[n + 1] == states[n + 1];
      }
      EveryScheduleFinishes(init);
      var a, b := states[|states| - 2], states[|states| - 1];
      var i: nat :| Step(a, i, b);
      StepKeepsOrder(a, i, b);
      NeverStuck(b);
    }
  }

  /** Ordered transactions can stop advancing only when all of them have ended. */
  lemma NeverStuck(s: System)
    requires Ordered(s)
    ensures !Stuck(s)
    ensures (forall i: nat, s' :: !Advance(s, i, s')) <==> (forall j :: 0 <= j < |s.txs| ==> s.txs[j].ended)
  {
    if exists j :: 0 <= j < |s.txs| && !s.txs[j].ended {
      var i := SomeoneCanStep(s);
    }
  }

  // ---- the transactions of the store ----

  function RowLocks(keys: seq<Key>): (r: seq<Lock>)
    ensures |r| == |keys| && forall i :: 0 <= i < |keys| ==> r[i] == RowLock(keys[i])
  {
    seq(|keys|, i requires 0 <= i < |keys| => RowLock(keys[i]))
  }

  /** A metric batch locks its id and then exactly the rows it upserts, in the
      order WriteMetrics returns; such a transaction keeps the global order. */
  lemma MetricBatchIsAscending(id: string, keys: seq<Key>)
    requires LockOrdered(keys)
    ensures Ascending([BatchLock(id)] + RowLocks(keys))
  {
    var locks := [BatchLock(id)] + RowLocks(keys);
    forall i, j | 0 <= i < j < |locks| ensures Precedes(locks[i], locks[j]) {
      if i > 0 {
        assert locks[i] == RowLock(keys[i - 1]) && locks[j] == RowLock(keys[j - 1]);
      }
    }
  }
}
