/** The agent's client: the retrying transport, the send path and the replay of
    the spool. Everything the network, the hub and the disk may do is a script
    that the methods consume; their contracts hold for every script. */
module Retry {
  import opened Wrappers

  const RetryAttempts: nat := 5
  const RetryBase: int := 250
  const RetryCap: int := 8000

  datatype Error = Status(code: nat) | Canceled | Deadline | Transport

  /** Worth another attempt: too many requests, a server error, or no answer at
      all; never a cancelled context nor any other status. */
  predicate Retryable(err: Option<Error>) {
    match err
    case None => false
    case Some(Canceled) => false
    case Some(Status(code)) => code == 429 || code >= 500
    case Some(_) => true
  }

  /** What the hub's ingest answers mean to the agent: a busy hub and a store error
      are tried again, a refused token, a malformed or oversized body never. */
  lemma HubAnswers()
    ensures Retryable(Some(Status(503))) && Retryable(Some(Status(500))) && Retryable(Some(Status(429)))
    ensures forall code :: 400 <= code < 429 ==> !Retryable(Some(Status(code)))
    ensures Retryable(Some(Deadline)) && Retryable(Some(Transport)) && !Retryable(Some(Canceled)) && !Retryable(None)
  {
  }

  function Doubled(base: int, times: nat): int {
    if times == 0 then base else 2 * Doubled(base, times - 1)
  }

  /** backoffDelay in milliseconds; the jitter source returns a number below its argument. */
  function BackoffDelay(retry: int, jitter: int -> int): int {
    var shift := if retry < 1 then 0 else if retry - 1 > 16 then 16 else retry - 1;
    var d := Doubled(RetryBase, shift);
    var capped := if d > RetryCap || d <= 0 then RetryCap else d;
    var span := capped / 4;
    if span == 0 then capped else capped + jitter(span * 2 + 1) - span
  }

  lemma {:induction false} DoubledGrows(base: int, m: nat, n: nat)
    requires base > 0 && m <= n
    ensures 0 < base <= Doubled(base, m) <= Doubled(base, n)
  {
    if n > 0 {
      DoubledGrows(base, if m == n then n - 1 else m, n - 1);
    }
  }

  /** Every wait is within a quarter of the capped doubling, so the delays of two
      different agents spread and none exceeds ten seconds. */
  lemma BackoffIsBounded(retry: int, jitter: int -> int)
    requires forall n :: n > 0 ==> 0 <= jitter(n) < n
    ensures var ideal := if retry <= 1 then 250 else if retry == 2 then 500 else if retry == 3 then 1000
                         else if retry == 4 then 2000 else if retry == 5 then 4000 else 8000;
            4 * ideal - ideal <= 4 * BackoffDelay(retry, jitter) <= 4 * ideal + ideal
  {
    var shift := if retry < 1 then 0 else if retry - 1 > 16 then 16 else retry - 1;
    if shift >= 5 {
      DoubledGrows(RetryBase, 5, shift);
    }
    assert Doubled(RetryBase, 2) == 1000;
    assert Doubled(RetryBase, 5) == 8000;
  }
}

module Network {
  import opened Wrappers
  import opened Delivery
  import opened Retry

  /** What happens next outside the agent. */
  datatype Happening =
    | Hub(e: Event)
    | Answer
    | Cancelled
    | TimedOut
    | Broken

  predicate HubEvent(e: Event) {
    e.Refuse? || e.Begin? || e.Exec? || e.Abort? || e.Commit?
  }

  /** The ids of the attempts made, in order. */
  function Sent(log: seq<Event>): seq<BatchId> {
    if log == [] then []
    else Sent(log[..|log| - 1]) + (if log[|log| - 1].Send? then [log[|log| - 1].id] else [])
  }

  function Copies(id: BatchId, n: nat): seq<BatchId> {
    seq(n, i => id)
  }

  /** The agent's own bookkeeping in a world. */
  datatype Books = Books(payload: map<BatchId, seq<Stmt>>, sending: set<BatchId>, spooled: set<BatchId>,
                         acked: set<BatchId>, dropped: map<BatchId, Reason>)

  function BooksOf(w: World): Books {
    Books(w.payload, w.sending, w.spooled, w.acked, w.dropped)
  }

  predicate EndsAttempt(h: Happening) {
    h.Cancelled? || h.TimedOut? || h.Broken?
  }

  /** The world after a stretch of happenings; only the hub changes it. */
  function After(w: World, happened: seq<Happening>): World {
    if happened == [] then w
    else
      var before, h := After(w, happened[..|happened| - 1]), happened[|happened| - 1];
      if h.Hub? && HubEvent(h.e) then Step(before, h.e) else before
  }

  /** At its i-th step the answer reaches an agent whose request r is answered. */
  predicate AnswerFound(w: World, r: nat, script: seq<Happening>, i: nat) {
    i < |script| && script[i].Answer?
    && r < |After(w, script[..i]).requests| && After(w, script[..i]).requests[r].phase.Answered?
  }

  predicate StopsAt(w: World, r: nat, script: seq<Happening>, i: nat) {
    i < |script| && (EndsAttempt(script[i]) || AnswerFound(w, r, script, i))
  }

  /** What the agent makes of the happening that ends the attempt. */
  function ErrorAt(w: World, r: nat, script: seq<Happening>, i: nat): Option<Error>
    requires StopsAt(w, r, script, i)
  {
    match script[i]
    case Cancelled => Some(Canceled)
    case TimedOut => Some(Deadline)
    case Broken => Some(Transport)
    case _ =>
      var status := After(w, script[..i]).requests[r].phase.status;
      if status < 300 then None else Some(Status(status))
  }

  /** An attempt for request r uses up the first k happenings: it ends with the first
      that can end it, and running out of script is a response that never comes. */
  ghost predicate Ended(w: World, r: nat, script: seq<Happening>, k: nat, err: Option<Error>) {
    && k <= |script| && (forall i :: 0 <= i < k - 1 ==> !StopsAt(w, r, script, i))
    && if k > 0 && StopsAt(w, r, script, k - 1) then err == ErrorAt(w, r, script, k - 1)
       else k == |script| && err == Some(Transport)
  }

  /** An attempt succeeds if and only if the first thing that ends it is an answer below 300. */
  lemma SuccessExactly(w: World, r: nat, script: seq<Happening>, k: nat, err: Option<Error>)
    requires Ended(w, r, script, k, err)
    ensures err.None? <==> k > 0 && AnswerFound(w, r, script, k - 1) && After(w, script[..k - 1]).requests[r].phase.status < 300
  {
  }

  lemma AfterSnoc(w: World, script: seq<Happening>, k: nat)
    requires k < |script|
    ensures After(w, script[..k + 1]) ==
            if script[k].Hub? && HubEvent(script[k].e) then Step(After(w, script[..k]), script[k].e) else After(w, script[..k])
  {
    assert script[..k + 1][..k] == script[..k];
  }

  /** Requests that were answered keep their answers. */
  ghost predicate AnswersStay(w: World, w': World) {
    && |w.requests| <= |w'.requests|
    && forall r :: 0 <= r < |w.requests| && w.requests[r].phase.Answered? ==> w'.requests[r] == w.requests[r]
  }

  lemma StepKeepsAnswers(w: World, e: Event)
    ensures AnswersStay(w, Step(w, e))
  {
  }

  lemma HubLeavesBooks(w: World, e: Event)
    requires HubEvent(e)
    ensures BooksOf(Step(w, e)) == BooksOf(w)
    ensures |Step(w, e).requests| == |w.requests|
    ensures forall r :: 0 <= r < |w.requests| ==> Step(w, e).requests[r].id == w.requests[r].id
  {
  }

  lemma SentSnoc(log: seq<Event>, e: Event)
    ensures Sent(log + [e]) == Sent(log) + (if e.Send? then [e.id] else [])
  {
    assert (log + [e])[..|log|] == log;
  }

  lemma CopiesGrow(id: BatchId, n: nat)
    ensures Copies(id, 0) == [] && Copies(id, n + 1) == Copies(id, n) + [id]
  {
  }

  class Net {
    var world: World
    var script: seq<Happening>
    ghost var log: seq<Event>
    /** How often a context was seen to have ended. */
    ghost var interrupts: nat

    /** The world is the result of the logged run from the initial state. */
    ghost predicate Valid()
      reads this
    {
      world == RunFrom(Initial, log) && Inv(world)
    }

    constructor (script: seq<Happening>)
      ensures Valid() && world == Initial && this.script == script && log == [] && interrupts == 0
    {
      world, this.script, log, interrupts := Initial, script, [], 0;
      InitialIsFine();
    }

    /** One event takes place. */
    method Do(e: Event)
      requires Valid()
      modifies this`world, this`log
      ensures Valid() && log == old(log) + [e] && world == Step(old(world), e) && interrupts == old(interrupts)
      ensures Sent(log) == Sent(old(log)) + (if e.Send? then [e.id] else [])
    {
      StepKeeps(world, e);
      SentSnoc(log, e);
      assert (log + [e])[..|log|] == log;
      world := Step(world, e);
      log := log + [e];
    }

    /** Whether the context has ended by now. */
    method ContextError() returns (err: Option<Error>)
      modifies this`script, this`interrupts
      ensures err == if old(script) == [] then None
                     else if old(script)[0].Cancelled? then Some(Canceled)
                     else if old(script)[0].TimedOut? then Some(Deadline) else None
      ensures script == if err.Some? then old(script)[1..] else old(script)
      ensures interrupts == old(interrupts) + (if err.Some? then 1 else 0)
    {
      err := None;
      if script != [] && (script[0].Cancelled? || script[0].TimedOut?) {
        err := Some(if script[0].Cancelled? then Canceled else Deadline);
        script, interrupts := script[1..], interrupts + 1;
      }
    }

    /** Before an attempt: the context may have ended, or end during the wait that comes
        before every attempt but the first. */
    method Pause(attempt: nat) returns (stopped: Option<Error>)
      requires Valid()
      modifies this`script, this`interrupts
      ensures Valid()
      ensures stopped.Some? ==> old(script) != [] && script == old(script)[1..] && interrupts == old(interrupts) + 1
      ensures stopped.Some? ==> (stopped == Some(Canceled) && old(script)[0].Cancelled?)
                                || (stopped == Some(Deadline) && old(script)[0].TimedOut?)
      ensures stopped.None? ==> script == old(script) && interrupts == old(interrupts)
    {
      stopped := ContextError();
      if stopped.None? && attempt > 1 {
        stopped := ContextError();
      }
    }

    /** postOnce: one attempt. The hub goes on with any requests, this one or
        older ones, until the answer arrives, the attempt is given up, or the
        script ends, which is a lost response. */
    method PostOnce(id: BatchId) returns (err: Option<Error>)
      requires Valid() && (id in world.sending || id in world.spooled)
      modifies this
      ensures Valid() && |script| <= |old(script)|
      ensures Sent(log) == Sent(old(log)) + [id]
      ensures interrupts == old(interrupts)
      ensures AnswersStay(old(world), world)
      ensures var k, sent := |old(script)| - |script|, Step(old(world), Send(id));
              && script == old(script)[k..]
              && Ended(sent, |old(world).requests|, old(script), k, err)
              && world == if err.None? then Step(After(sent, old(script)[..k]), Acknowledge(|old(world).requests|))
                          else After(sent, old(script)[..k])
      ensures err.None? ==> id in world.committed
      ensures err.Some? && err.value.Status? ==>
                |old(world).requests| < |world.requests|
                && world.requests[|old(world).requests|] == Request(id, Answered(err.value.code)) && err.value.code >= 300
      ensures BooksOf(world) ==
              if err.None? then BooksOf(old(world)).(acked := old(world).acked + {id}, sending := old(world).sending - {id})
              else BooksOf(old(world))
    {
      hide Inv, Step, Sent, RunFrom, After;
      var r := |world.requests|;
      SendAppends(world, id);
      StepKeepsAnswers(world, Send(id));
      ghost var sent := Step(world, Send(id));
      Do(Send(id));
      ghost var k := 0;
      NothingHappened(sent);
      assert script[..0] == [] && script[0..] == script;
      while script != []
        invariant Valid() && k <= |old(script)| && interrupts == old(interrupts)
        invariant script == old(script)[k..] && forall i :: 0 <= i < k ==> !StopsAt(sent, r, old(script), i)
        invariant world == After(sent, old(script)[..k]) && AnswersStay(old(world), world)
        invariant r < |world.requests| && world.requests[r].id == id
        invariant BooksOf(world) == BooksOf(old(world)) && Sent(log) == Sent(old(log)) + [id]
        decreases |script|
      {
        var next := script[0];
        assert next == old(script)[k];
        AfterSnoc(sent, old(script), k);
        script, k := script[1..], k + 1;
        match next {
          case Hub(e) =>
            if HubEvent(e) {
              HubLeavesBooks(world, e);
              StepKeepsAnswers(world, e);
              Do(e);
            }
          case Answer =>
            if world.requests[r].phase.Answered? {
              var status := world.requests[r].phase.status;
              if status >= 300 {
                return Some(Status(status));
              }
              Acknowledged(world, r);
              StepKeepsAnswers(world, Acknowledge(r));
              Do(Acknowledge(r));
              return None;
            }
          case Cancelled => return Some(Canceled);
          case TimedOut => return Some(Deadline);
          case Broken => return Some(Transport);
        }
      }
      return Some(Transport);
    }

    /** post: up to five attempts under one id. `first` is the outcome of the first
        one and `cut` what it used up of the script. */
    method Post(id: BatchId) returns (err: Option<Error>, attempts: nat, ghost first: Option<Error>, ghost cut: nat)
      requires Valid() && (id in world.sending || id in world.spooled)
      modifies this
      ensures Valid() && |script| <= |old(script)|
      ensures attempts <= RetryAttempts && Sent(log) == Sent(old(log)) + Copies(id, attempts)
      ensures err.None? ==> id in world.committed && attempts >= 1
      ensures attempts == 0 ==> old(script) != [] && (old(script)[0].Cancelled? || old(script)[0].TimedOut?)
      ensures attempts >= 1 ==> Ended(Step(old(world), Send(id)), |old(world).requests|, old(script), cut, first)
      ensures attempts >= 1 ==> Retryable(first) || (attempts == 1 && err == first)
      ensures AnswersStay(old(world), world) && Explained(err, old(world), world, id, old(script))
      ensures IsSuffix(script, old(script))
      ensures BooksOf(world) ==
              if err.None? then BooksOf(old(world)).(acked := old(world).acked + {id}, sending := old(world).sending - {id})
              else BooksOf(old(world))
      ensures interrupts == old(interrupts) || interrupts == old(interrupts) + 1
      ensures interrupts == old(interrupts) ==> attempts >= 1 && (Retryable(err) ==> attempts == RetryAttempts)
      ensures interrupts > old(interrupts) ==> err.Some? && (attempts > 0 ==> Retryable(err))
    {
      hide Inv, Step, Sent, RunFrom, After, Ended, AnswersStay, Explained, Trying, IsSuffix, BooksOf, Retryable, Copies;
      NeverRetried();
      var last: Option<Error> := None;
      attempts, first, cut := 0, None, 0;
      CopiesGrow(id, 0);
      ghost var k: nat, w0, script0 := 0, world, script;
      TryingStarts(w0, id, script0);
      for attempt := 1 to RetryAttempts + 1
        invariant Valid() && interrupts == old(interrupts)
        invariant attempts == attempt - 1 && Sent(log) == Sent(old(log)) + Copies(id, attempts)
        invariant Trying(w0, world, id, script0, script, k, attempts, last, first, cut)
      {
        TryingKeeps(w0, world, id, script0, script, k, attempts, last, first, cut);
        ghost var waiting := script;
        var stopped := Pause(attempt);
        if stopped.Some? {
          TryingStops(w0, world, id, script0, waiting, script, k, attempts, last, first, cut, stopped);
          return if last.Some? then last else stopped, attempts, first, cut;
        }
        ghost var before, at, sofar := world, script, last;
        last := PostOnce(id);
        first, cut, k := TryingGoesOn(w0, before, world, id, script0, at, script, k, attempts, sofar, first, cut, last);
        CopiesGrow(id, attempts);
        attempts := attempts + 1;
        if last.None? || !Retryable(last) {
          return last, attempts, first, cut;
        }
      }
      TryingEnds(w0, world, id, script0, script, k, attempts, last, first, cut);
      return last, attempts, first, cut;
    }

    /** When nothing disturbs the first attempt of a batch, it is the only one and succeeds. */
    method PostUndisturbed(id: BatchId, rest: seq<Happening>) returns (err: Option<Error>, attempts: nat)
      requires Valid() && (id in world.sending || id in world.spooled) && id !in world.committed
      requires forall s: nat :: !IsExecuting(world, s)
      requires script == QuietScript(|world.requests|, |StmtsOf(world, id)|) + rest
      modifies this
      ensures err == None && attempts == 1
      ensures id in world.committed && id in world.acked && id !in world.sending
    {
      hide Inv, Step, Sent, RunFrom, After, Ended;
      ghost var first, cut;
      err, attempts, first, cut := Post(id);
      QuietScriptSucceeds(old(world), id, rest, cut, first);
    }
  }

  /** The hub works through an attempt and the answer arrives. */
  function QuietScript(r: nat, n: nat): seq<Happening> {
    Hubs(QuietHub(r, n)) + [Answer]
  }

  function Hubs(es: seq<Event>): seq<Happening> {
    seq(|es|, i requires 0 <= i < |es| => Hub(es[i]))
  }

  lemma {:induction false} AfterHubs(w: World, es: seq<Event>)
    requires forall e :: e in es ==> HubEvent(e)
    ensures After(w, Hubs(es)) == RunFrom(w, es)
  {
    if es != [] {
      var init := es[..|es| - 1];
      AfterHubs(w, init);
      assert Hubs(es)[..|es| - 1] == Hubs(init);
      assert es[|es| - 1] in es;
    }
  }

  lemma QuietScriptSucceeds(w: World, id: BatchId, rest: seq<Happening>, cut: nat, first: Option<Error>)
    requires Inv(w) && (id in w.sending || id in w.spooled) && id !in w.committed
    requires forall s: nat :: !IsExecuting(w, s)
    requires Ended(Step(w, Send(id)), |w.requests|, QuietScript(|w.requests|, |StmtsOf(w, id)|) + rest, cut, first)
    ensures first == None
  {
    var r, n := |w.requests|, |StmtsOf(w, id)|;
    var hub, sent := QuietHub(r, n), Step(w, Send(id));
    AfterQuietHub(w, id);
    hide Inv, Step, RunFrom, After, QuietHub, Ended;
    assert (QuietScript(r, n) + rest)[..|hub|] == Hubs(hub);
    FirstStop(sent, r, QuietScript(r, n) + rest, |hub|, cut, first);
  }

  lemma AfterQuietHub(w: World, id: BatchId)
    requires Inv(w) && (id in w.sending || id in w.spooled) && id !in w.committed
    requires forall s: nat :: !IsExecuting(w, s)
    ensures Succeeded(After(Step(w, Send(id)), Hubs(QuietHub(|w.requests|, |StmtsOf(w, id)|))), |w.requests|, id)
  {
    var r, n := |w.requests|, |StmtsOf(w, id)|;
    var es := QuietAttemptApplies(w, id);
    QuietHubIsHub(r, n);
    hide Inv, Step, RunFrom, After, QuietHub;
    RunSplit(w, [Send(id)], QuietHub(r, n));
    OneStep(w, Send(id));
    AfterHubs(Step(w, Send(id)), QuietHub(r, n));
  }

  /** When the hub works on and then a success is found, that ends the attempt. */
  lemma FirstStop(w: World, r: nat, script: seq<Happening>, n: nat, cut: nat, first: Option<Error>)
    requires n < |script| && (forall i :: 0 <= i < n ==> script[i].Hub?) && script[n].Answer?
    requires r < |After(w, script[..n]).requests| && After(w, script[..n]).requests[r].phase.Answered?
    requires After(w, script[..n]).requests[r].phase.status < 300
    requires Ended(w, r, script, cut, first)
    ensures first == None && cut == n + 1
  {
    hide After;
    assert forall i :: 0 <= i < n ==> !StopsAt(w, r, script, i);
    assert StopsAt(w, r, script, n);
  }

  lemma QuietHubIsHub(r: nat, n: nat)
    ensures forall e :: e in QuietHub(r, n) ==> HubEvent(e)
  {
  }

  lemma NothingHappened(w: World)
    ensures After(w, []) == w
  {
  }

  /** Why a post ended with this error: an answer to one of its own requests, or
      something that did happen. */
  ghost predicate Explained(err: Option<Error>, w: World, w': World, id: BatchId, script: seq<Happening>) {
    match err
    case None => id in w'.acked
    case Some(Status(code)) => code >= 300 && AnsweredSince(w, w', id, code)
    case Some(Canceled) => Happening.Cancelled in script
    case Some(Deadline) => Happening.TimedOut in script
    case Some(Transport) => true
  }

  ghost predicate AnsweredSince(w: World, w': World, id: BatchId, code: nat) {
    exists r :: |w.requests| <= r < |w'.requests| && w'.requests[r] == Request(id, Answered(code))
  }

  /** The script only ever gets shorter from the front. */
  predicate IsSuffix(a: seq<Happening>, b: seq<Happening>) {
    |a| <= |b| && a == b[|b| - |a|..]
  }

  lemma LaterSuffix(script: seq<Happening>, k: nat)
    requires k <= |script|
    ensures IsSuffix(script[k..], script)
    ensures k < |script| ==> IsSuffix(script[k..][1..], script)
  {
    assert k < |script| ==> script[k..][1..] == script[k + 1..];
  }

  lemma SuffixOfSuffix(a: seq<Happening>, b: seq<Happening>, c: seq<Happening>)
    requires IsSuffix(a, b) && IsSuffix(b, c)
    ensures IsSuffix(a, c)
  {
  }

  lemma WholeSuffix(script: seq<Happening>)
    ensures IsSuffix(script, script)
    ensures script != [] ==> IsSuffix(script[1..], script)
  {
  }

  lemma AnswersStayOn(w: World, w': World, w'': World)
    requires AnswersStay(w, w') && AnswersStay(w', w'')
    ensures AnswersStay(w, w'')
  {
  }

  lemma AnswersStayHere(w: World)
    ensures AnswersStay(w, w)
  {
  }

  lemma ContextExplains(err: Option<Error>, w: World, w': World, id: BatchId, script: seq<Happening>, k: nat)
    requires k < |script|
    requires (err == Some(Canceled) && script[k].Cancelled?) || (err == Some(Deadline) && script[k].TimedOut?)
    ensures Explained(err, w, w', id, script)
  {
  }

  /** What is known between two attempts of a post: so far all failed transiently. */
  ghost predicate Trying(w0: World, w: World, id: BatchId, script0: seq<Happening>, script: seq<Happening>, k: nat,
                         attempts: nat, last: Option<Error>, first: Option<Error>, cut: nat)
  {
    && k <= |script0| && script == script0[k..] && AnswersStay(w0, w)
    && BooksOf(w) == BooksOf(w0) && (id in w.sending || id in w.spooled)
    && if attempts == 0 then last == None && w == w0 && k == 0
       else
         && Retryable(last) && Retryable(first) && Explained(last, w0, w, id, script0)
         && Ended(Step(w0, Send(id)), |w0.requests|, script0, cut, first)
  }

  lemma TryingStarts(w: World, id: BatchId, script: seq<Happening>)
    requires id in w.sending || id in w.spooled
    ensures Trying(w, w, id, script, script, 0, 0, None, None, 0)
  {
    assert script[0..] == script;
  }

  lemma TryingKeeps(w0: World, w: World, id: BatchId, script0: seq<Happening>, script: seq<Happening>, k: nat,
                    attempts: nat, last: Option<Error>, first: Option<Error>, cut: nat)
    requires Trying(w0, w, id, script0, script, k, attempts, last, first, cut)
    ensures id in w.sending || id in w.spooled
  {
  }

  /** The context ends before an attempt. */
  lemma TryingStops(w0: World, w: World, id: BatchId, script0: seq<Happening>, script: seq<Happening>, left: seq<Happening>, k: nat,
                    attempts: nat, last: Option<Error>, first: Option<Error>, cut: nat, stopped: Option<Error>)
    requires Trying(w0, w, id, script0, script, k, attempts, last, first, cut)
    requires script != [] && left == script[1..]
    requires (stopped == Some(Canceled) && script[0].Cancelled?) || (stopped == Some(Deadline) && script[0].TimedOut?)
    ensures AnswersStay(w0, w) && BooksOf(w) == BooksOf(w0)
    ensures IsSuffix(left, script0) && |left| <= |script0|
    ensures Explained(if last.Some? then last else stopped, w0, w, id, script0)
    ensures attempts == 0 ==> last == None && script0 != [] && (script0[0].Cancelled? || script0[0].TimedOut?)
    ensures attempts > 0 ==> last.Some? && Retryable(last) && Retryable(first)
    ensures attempts > 0 ==> Ended(Step(w0, Send(id)), |w0.requests|, script0, cut, first)
  {
    hide AnswersStay, Ended, Step;
    LaterSuffix(script0, k);
    ContextExplains(stopped, w0, w, id, script0, k);
    FinalIsNotTried(last);
  }

  /** All attempts are used up. */
  lemma TryingEnds(w0: World, w: World, id: BatchId, script0: seq<Happening>, script: seq<Happening>, k: nat,
                   attempts: nat, last: Option<Error>, first: Option<Error>, cut: nat)
    requires Trying(w0, w, id, script0, script, k, attempts, last, first, cut) && attempts > 0
    ensures AnswersStay(w0, w) && BooksOf(w) == BooksOf(w0)
    ensures IsSuffix(script, script0) && |script| <= |script0|
    ensures last.Some? && Retryable(last) && Retryable(first) && Explained(last, w0, w, id, script0)
    ensures Ended(Step(w0, Send(id)), |w0.requests|, script0, cut, first)
  {
    hide AnswersStay, Explained, Ended, Step;
    LaterSuffix(script0, k);
    FinalIsNotTried(last);
  }

  lemma TryingGoesOn(w0: World, w: World, w': World, id: BatchId, script0: seq<Happening>, at: seq<Happening>, script: seq<Happening>,
                     k: nat, attempts: nat, last: Option<Error>, first: Option<Error>, cut: nat, err: Option<Error>)
    returns (first': Option<Error>, cut': nat, k': nat)
    requires Trying(w0, w, id, script0, at, k, attempts, last, first, cut)
    requires |script| <= |at| && script == at[|at| - |script|..]
    requires Ended(Step(w, Send(id)), |w.requests|, at, |at| - |script|, err) && AnswersStay(w, w')
    requires BooksOf(w') == if err.None? then BooksOf(w).(acked := w.acked + {id}, sending := w.sending - {id}) else BooksOf(w)
    requires err.Some? && err.value.Status? ==>
               && |w.requests| < |w'.requests| && err.value.code >= 300
               && w'.requests[|w.requests|] == Request(id, Answered(err.value.code))
    ensures AnswersStay(w0, w') && Explained(err, w0, w', id, script0)
    ensures IsSuffix(script, script0) && |script| <= |script0|
    ensures BooksOf(w') == if err.None? then BooksOf(w0).(acked := w0.acked + {id}, sending := w0.sending - {id}) else BooksOf(w0)
    ensures Ended(Step(w0, Send(id)), |w0.requests|, script0, cut', first')
    ensures Retryable(first') || (attempts == 0 && first' == err)
    ensures Retryable(err) ==> Trying(w0, w', id, script0, script, k', attempts + 1, err, first', cut')
  {
    hide Step, After;
    var used := |at| - |script|;
    k' := k + used;
    first', cut' := if attempts == 0 then err else first, if attempts == 0 then used else cut;
    assert script == script0[k'..];
    AttemptExplains(w0, w, w', id, script0, k, at, used, err);
    hide Ended, Explained, AnswersStay;
    if attempts == 0 {
      assert script0[0..] == script0;
    }
    FinalIsNotTried(err);
  }

  lemma NeverRetried()
    ensures !Retryable(None) && !Retryable(Some(Canceled)) && Retryable(Some(Deadline))
  {
  }

  lemma FinalIsNotTried(err: Option<Error>)
    ensures Retryable(err) ==> err.Some?
  {
  }

  lemma AttemptExplains(w0: World, w: World, w': World, id: BatchId, script: seq<Happening>, k: nat,
                        at: seq<Happening>, used: nat, err: Option<Error>)
    requires k <= |script| && at == script[k..] && used <= |at|
    requires Ended(Step(w, Send(id)), |w.requests|, at, used, err)
    requires AnswersStay(w0, w) && AnswersStay(w, w') && (err.None? ==> id in w'.acked)
    requires err.Some? && err.value.Status? ==>
               && |w.requests| < |w'.requests| && err.value.code >= 300
               && w'.requests[|w.requests|] == Request(id, Answered(err.value.code))
    ensures AnswersStay(w0, w') && Explained(err, w0, w', id, script)
  {
    hide Step, After;
    if used > 0 {
      assert at[used - 1] == script[k + used - 1];
    }
  }

  /** An answer that makes the agent give the batch up. */
  predicate FinalError(p: Phase) {
    p.Answered? && p.status >= 300 && !Retryable(Some(Status(p.status)))
  }

  predicate NotYetRun(w: World, r: nat) {
    r >= |w.requests| || w.requests[r].phase.Travelling?
  }

  /** A final error answers only a request that was still travelling: the hub's own
      failures, an abort or a commit it could not report, are answered with 500. */
  lemma FinalErrorFromTravelling(w: World, e: Event, r: nat)
    ensures NotYetRun(Step(w, e), r) ==> NotYetRun(w, r)
    ensures r < |Step(w, e).requests| && FinalError(Step(w, e).requests[r].phase) ==>
              NotYetRun(w, r) || w.requests[r].phase == Step(w, e).requests[r].phase
  {
    HubAnswers();
  }

  lemma {:induction false} NeverRanBefore(es: seq<Event>, r: nat, m: nat)
    requires m <= |es| && NotYetRun(RunFrom(Initial, es), r)
    ensures !IsExecuting(RunFrom(Initial, es[..m]), r)
  {
    hide Step;
    if m < |es| {
      var init := es[..|es| - 1];
      FinalErrorFromTravelling(RunFrom(Initial, init), es[|es| - 1], r);
      NeverRanBefore(init, r, m);
      assert init[..m] == es[..m];
    } else {
      assert es[..m] == es;
    }
  }

  /** A batch is never given up because of an attempt whose handler ran: over every
      run a request that was answered with a final error was executing at no time. */
  lemma {:induction false} FinalErrorNeverRan(es: seq<Event>, r: nat, m: nat)
    requires m <= |es| && r < |RunFrom(Initial, es).requests|
    requires FinalError(RunFrom(Initial, es).requests[r].phase)
    ensures !IsExecuting(RunFrom(Initial, es[..m]), r)
  {
    hide Step;
    if m < |es| {
      var init := es[..|es| - 1];
      var w := RunFrom(Initial, init);
      FinalErrorFromTravelling(w, es[|es| - 1], r);
      if NotYetRun(w, r) {
        NeverRanBefore(init, r, m);
      } else {
        FinalErrorNeverRan(init, r, m);
      }
      assert init[..m] == es[..m];
    } else {
      assert es[..m] == es;
    }
  }

  lemma SendAppends(w: World, id: BatchId)
    requires id in w.sending || id in w.spooled
    ensures var w' := Step(w, Send(id));
            w'.requests == w.requests + [Request(id, Travelling)] && BooksOf(w') == BooksOf(w)
  {
  }

  lemma Acknowledged(w: World, r: nat)
    requires Inv(w) && r < |w.requests| && w.requests[r].phase.Answered? && w.requests[r].phase.status < 300
    ensures var w' := Step(w, Acknowledge(r)); var id := w.requests[r].id;
            && id in w'.committed
            && BooksOf(w') == BooksOf(w).(acked := w.acked + {id}, sending := w.sending - {id})
  {
  }
}

module AgentClient {
  import opened Wrappers
  import opened Delivery
  import opened Retry
  import opened Network
  import opened SpoolNames
  import opened SpoolDirectory
  import opened AgentSpool
  import opened Text
  import Sorting

  /** Why a drain ended. */
  datatype Stop = NotStarted | Emptied | DiskError | Stuck(err: Error)

  /** One replay: how often an item was attempted. */
  datatype Try = Try(id: BatchId, attempts: nat)

  /** The batch ids in a queue, oldest first; a damaged file has lost its id. */
  function Ids(items: seq<Option<Item>>): seq<BatchId> {
    if items == [] then [] else (if items[0].Some? then [items[0].value.batchId] else []) + Ids(items[1..])
  }

  function TriedIds(tries: seq<Try>): seq<BatchId> {
    seq(|tries|, i requires 0 <= i < |tries| => tries[i].id)
  }

  function Attempts(tries: seq<Try>): seq<BatchId> {
    if tries == [] then []
    else Attempts(tries[..|tries| - 1]) + Copies(tries[|tries| - 1].id, tries[|tries| - 1].attempts)
  }

  /** How one replay of the oldest item went: the verdict on it, and whether its
      file was then removed. */
  datatype Verdict = Delivered | Refused | Transient

  datatype Round = Round(verdict: Verdict, removed: bool)

  function VerdictOn(err: Option<Error>): Verdict {
    if err.None? then Delivered else if Retryable(err) then Transient else Refused
  }

  /** The item left the queue. */
  predicate Leaves(r: Round) {
    r.verdict != Transient && r.removed
  }

  /** A refused item whose file could not be removed; the loop goes on all the same. */
  predicate Stays(r: Round) {
    r.verdict == Refused && !r.removed
  }

  function Left(rounds: seq<Round>): nat {
    if rounds == [] then 0 else Left(rounds[..|rounds| - 1]) + (if Leaves(rounds[|rounds| - 1]) then 1 else 0)
  }

  /** How often a refused item could not be removed. */
  function FailedRemovals(rounds: seq<Round>): nat {
    if rounds == [] then 0 else FailedRemovals(rounds[..|rounds| - 1]) + (if Stays(rounds[|rounds| - 1]) then 1 else 0)
  }

  function At(ids: seq<BatchId>, n: nat): BatchId {
    if n < |ids| then ids[n] else ""
  }

  /** What the rounds try: each the oldest item that has not left. */
  function Tried(ids: seq<BatchId>, rounds: seq<Round>): seq<BatchId> {
    if rounds == [] then []
    else Tried(ids, rounds[..|rounds| - 1]) + [At(ids, Left(rounds[..|rounds| - 1]))]
  }

  /** Only a round whose item left, or was refused and stays, is followed by another. */
  ghost predicate GoesOn(rounds: seq<Round>) {
    forall k :: 0 <= k < |rounds| - 1 ==> Leaves(rounds[k]) || Stays(rounds[k])
  }

  lemma RoundSnoc(ids: seq<BatchId>, rounds: seq<Round>, r: Round)
    ensures Left(rounds + [r]) == Left(rounds) + (if Leaves(r) then 1 else 0)
    ensures FailedRemovals(rounds + [r]) == FailedRemovals(rounds) + (if Stays(r) then 1 else 0)
    ensures Tried(ids, rounds + [r]) == Tried(ids, rounds) + [At(ids, Left(rounds))]
  {
    assert (rounds + [r])[..|rounds|] == rounds;
  }

  /** While every removal works the queue is tried in order, each item once, and the
      last one tried may be left. */
  lemma {:induction false} TriedInOrder(ids: seq<BatchId>, rounds: seq<Round>)
    requires GoesOn(rounds) && FailedRemovals(rounds) == 0 && Left(rounds) <= |ids|
    ensures Tried(ids, rounds) == ids[..Left(rounds)] +
              (if rounds == [] || Leaves(rounds[|rounds| - 1]) then [] else [At(ids, Left(rounds))])
  {
    if rounds != [] {
      var init, r := rounds[..|rounds| - 1], rounds[|rounds| - 1];
      assert rounds == init + [r];
      RoundSnoc(ids, init, r);
      TriedInOrder(ids, init);
      if init != [] {
        assert Leaves(init[|init| - 1]) by {
          assert init[|init| - 1] == rounds[|rounds| - 2];
          RoundSnoc(ids, init[..|init| - 1], init[|init| - 1]);
          assert init == init[..|init| - 1] + [init[|init| - 1]];
        }
      }
    }
  }

  lemma {:induction false} LeftClimbs(rounds: seq<Round>, m: nat, n: nat)
    requires m <= n <= |rounds|
    ensures Left(rounds[..m]) <= Left(rounds[..n])
    ensures (forall k :: m <= k < n ==> Leaves(rounds[k])) && m < n ==> Left(rounds[..m]) < Left(rounds[..n])
  {
    if m < n {
      LeftClimbs(rounds, m, n - 1);
      assert rounds[..n][..n - 1] == rounds[..n - 1];
    }
  }

  lemma {:induction false} TriedAt(ids: seq<BatchId>, rounds: seq<Round>, k: nat)
    requires k < |rounds|
    ensures |Tried(ids, rounds)| == |rounds| && Tried(ids, rounds)[k] == At(ids, Left(rounds[..k]))
  {
    var init := rounds[..|rounds| - 1];
    if |rounds| > 1 {
      TriedAt(ids, init, if k < |init| then k else 0);
    }
    if k < |init| {
      assert init[..k] == rounds[..k];
    }
  }

  /** No item is tried twice if and only if no round but the last is a refused item
      that could not be removed. */
  lemma TriedOnceExactly(ids: seq<BatchId>, rounds: seq<Round>)
    requires Sorting.NoDuplicates(ids) && GoesOn(rounds)
    requires rounds != [] ==> Left(rounds[..|rounds| - 1]) < |ids|
    ensures Sorting.NoDuplicates(Tried(ids, rounds)) <==> forall k :: 0 <= k < |rounds| - 1 ==> !Stays(rounds[k])
  {
    hide Tried;
    var tried, n := Tried(ids, rounds), |rounds|;
    forall k | 0 <= k < n ensures |tried| == n && Left(rounds[..k]) < |ids| && tried[k] == ids[Left(rounds[..k])] {
      TriedAt(ids, rounds, k);
      LeftClimbs(rounds, k, n - 1);
    }
    if n == 0 {
      NothingTried(ids);
    } else if k :| 0 <= k < n - 1 && Stays(rounds[k]) {
      assert rounds[..k + 1][..k] == rounds[..k];
      assert Left(rounds[..k + 1]) == Left(rounds[..k]);
      assert tried[k] == tried[k + 1];
    } else {
      forall i, j | 0 <= i < j < n ensures tried[i] != tried[j] {
        LeftClimbs(rounds, i, j);
      }
    }
  }

  lemma NothingTried(ids: seq<BatchId>)
    ensures Tried(ids, []) == []
  {
  }

  /** The failing case: n failed removals of a refused item are followed by n more
      replays of it, for every n. With a disk that never lets it go the loop has no end. */
  lemma {:induction false} RefusedAgain(ids: seq<BatchId>, n: nat, last: Round)
    requires ids != []
    ensures var rounds := seq(n, i => Round(Refused, false)) + [last];
            GoesOn(rounds) && Tried(ids, rounds) == Copies(ids[0], n + 1) && FailedRemovals(rounds[..n]) == n
  {
    var stuck := seq(n, i => Round(Refused, false));
    AllStay(ids, n);
    RoundSnoc(ids, stuck, last);
    assert (stuck + [last])[..n] == stuck;
    assert Copies(ids[0], n + 1) == Copies(ids[0], n) + [ids[0]];
  }

  lemma {:induction false} AllStay(ids: seq<BatchId>, n: nat)
    requires ids != []
    ensures var rounds := seq(n, i => Round(Refused, false));
            Left(rounds) == 0 && FailedRemovals(rounds) == n && Tried(ids, rounds) == Copies(ids[0], n)
  {
    if n > 0 {
      AllStay(ids, n - 1);
      var before := seq(n - 1, i => Round(Refused, false));
      assert seq(n, i => Round(Refused, false)) == before + [Round(Refused, false)];
      RoundSnoc(ids, before, Round(Refused, false));
      assert Copies(ids[0], n) == Copies(ids[0], n - 1) + [ids[0]];
    }
  }

  /** The disk and the books agree on what is spooled. */
  ghost predicate Coupled(items: seq<Option<Item>>, spooled: set<BatchId>) {
    && Sorting.NoDuplicates(Ids(items))
    && (forall id :: id in Ids(items) <==> id in spooled)
    && forall i :: 0 <= i < |items| && items[i].Some? ==> items[i].value.path != ""
  }

  lemma {:induction false} IdsAppend(a: seq<Option<Item>>, b: seq<Option<Item>>)
    ensures Ids(a + b) == Ids(a) + Ids(b)
  {
    if a == [] {
      assert a + b == b;
    } else {
      IdsAppend(a[1..], b);
      assert (a + b)[1..] == a[1..] + b;
    }
  }

  lemma {:induction false} IdAt(items: seq<Option<Item>>, i: nat)
    requires i < |items| && items[i].Some?
    ensures items[i].value.batchId in Ids(items)
  {
    if i > 0 {
      IdAt(items[1..], i - 1);
    }
  }

  lemma {:induction false} NothingLeft(items: seq<Option<Item>>)
    requires forall i :: 0 <= i < |items| ==> items[i].None?
    ensures Ids(items) == []
  {
    if items != [] {
      NothingLeft(items[1..]);
    }
  }

  /** Taking a prefix off the queue takes its ids off the books. */
  lemma DropPrefix(items: seq<Option<Item>>, k: nat, spooled: set<BatchId>)
    requires k <= |items| && Coupled(items, spooled)
    ensures Coupled(items[k..], spooled - Gone(items[..k]))
    ensures Gone(items[..k]) <= spooled
  {
    assert items == items[..k] + items[k..];
    IdsAppend(items[..k], items[k..]);
    var a, b := Ids(items[..k]), Ids(items[k..]);
    forall i, j | 0 <= i < |a| && 0 <= j < |b| ensures a[i] != b[j] {
      assert (a + b)[i] != (a + b)[|a| + j];
    }
    forall i, j | 0 <= i < j < |b| ensures b[i] != b[j] {
      assert (a + b)[|a| + i] != (a + b)[|a| + j];
    }
  }

  function Gone(items: seq<Option<Item>>): set<BatchId> {
    set id | id in Ids(items)
  }

  lemma AddNewest(items: seq<Option<Item>>, item: Item, spooled: set<BatchId>)
    requires Coupled(items, spooled) && item.batchId !in spooled && item.path != ""
    ensures Coupled(items + [Some(item)], spooled + {item.batchId})
  {
    IdsAppend(items, [Some(item)]);
    assert Ids([Some(item)]) == [item.batchId] + Ids([]);
  }

  /** The ids of the batch files on disk. */
  function IdsOnDisk(dir: Directory): set<BatchId> {
    set n | n in dir.Keys && IsBatchFile(dir, n) && dir[n].item.Some? :: dir[n].item.value.batchId
  }

  lemma {:induction false} ItemsHaveIds(dir: Directory, ns: seq<string>)
    requires forall n :: n in ns ==> IsBatchFile(dir, n)
    ensures forall id :: id in Ids(ItemsOf(dir, ns)) <==>
              exists n :: n in ns && IsBatchFile(dir, n) && dir[n].item.Some? && dir[n].item.value.batchId == id
  {
    if ns != [] {
      ItemsHaveIds(dir, ns[1..]);
      var rest := ItemsOf(dir, ns[1..]);
      assert ItemsOf(dir, ns)[1..] == rest;
    }
  }

  lemma DiskShowsContents(dir: Directory)
    ensures forall id :: id in Ids(Contents(dir)) <==> id in IdsOnDisk(dir)
  {
    ListingLists(dir);
    ItemsHaveIds(dir, Listing(dir));
  }

  lemma RemoveOldest(dir: Directory, name: string)
    requires Listing(dir) != [] && name == Listing(dir)[0]
    ensures Listing(dir - {name}) == Listing(dir)[1..] && Contents(dir - {name}) == Contents(dir)[1..]
    ensures BatchName(name)
  {
    assert Listing(dir)[..1] == [name];
    assert Names(Listing(dir)[..1]) == {name};
    DropOldest(dir, 1);
    SuffixContents(dir, dir - {name}, 1);
    ListingLists(dir);
    assert name in Listing(dir);
  }

  lemma AttemptsSnoc(before: seq<BatchId>, tries: seq<Try>, t: Try)
    ensures before + Attempts(tries + [t]) == before + Attempts(tries) + Copies(t.id, t.attempts)
    ensures TriedIds(tries + [t]) == TriedIds(tries) + [t.id]
  {
    assert (tries + [t])[..|tries|] == tries;
  }

  /** What a finished replay of a queue amounts to, seen from a later world. */
  ghost predicate Replayed(tries: seq<Try>, rounds: seq<Round>, stop: Stop, handled: nat, queue: seq<Option<Item>>,
                           w0: World, w: World, script0: seq<Happening>)
  {
    && Plays(tries, rounds, queue, handled) && Ends(rounds, stop)
    && Settled(w, queue[..handled]) && Truthful(tries, rounds, w0, w, script0)
    && (stop.Emptied? ==> handled == |queue|)
    && (stop.Stuck? ==> handled < |queue| && queue[handled].Some?)
    && forall t :: t in tries ==> t.attempts <= RetryAttempts
  }

  lemma SameAnswers(w: World, w': World)
    requires w'.requests == w.requests
    ensures AnswersStay(w, w')
  {
  }

  /** Truth about a replay that started from a world with the same requests. */
  lemma TruthfulFrom(tries: seq<Try>, rounds: seq<Round>, w0: World, w1: World, w: World, script: seq<Happening>)
    requires Truthful(tries, rounds, w1, w, script) && w1.requests == w0.requests
    ensures Truthful(tries, rounds, w0, w, script)
  {
    forall k | 0 <= k < |rounds| ensures TruthfulRound(tries[k], rounds[k], w0, w, script) {
      assert TruthfulRound(tries[k], rounds[k], w1, w, script);
    }
  }

  lemma ReplayedBy(tries: seq<Try>, rounds: seq<Round>, stop: Stop, handled: nat, queue: seq<Option<Item>>, dir: Directory,
                   w0: World, w1: World, w: World, script0: seq<Happening>)
    requires Plays(tries, rounds, queue, handled) && Ends(rounds, stop) && Contents(dir) == queue[handled..]
    requires Settled(w, queue[..handled]) && Truthful(tries, rounds, w1, w, script0) && w1.requests == w0.requests
    requires forall t :: t in tries ==> t.attempts <= RetryAttempts
    requires stop.Emptied? ==> Listing(dir) == []
    requires stop.Stuck? ==> Contents(dir) != [] && Contents(dir)[0].Some?
    ensures Replayed(tries, rounds, stop, handled, queue, w0, w, script0)
  {
    hide Listing, Settled, Truthful, Ends;
    TruthfulFrom(tries, rounds, w0, w1, w, script0);
    assert |Contents(dir)| == |Listing(dir)|;
    hide Contents;
  }

  lemma ReplayedStill(tries: seq<Try>, rounds: seq<Round>, stop: Stop, handled: nat, queue: seq<Option<Item>>,
                      w0: World, w: World, w': World, script0: seq<Happening>)
    requires Replayed(tries, rounds, stop, handled, queue, w0, w, script0)
    requires AnswersStay(w, w') && w.acked <= w'.acked && w.dropped.Keys <= w'.dropped.Keys
    ensures Replayed(tries, rounds, stop, handled, queue, w0, w', script0)
  {
    hide Settled, Truthful, AnswersStay;
    StillSettled(w, w', queue[..handled]);
    StillTruthful(tries, rounds, w0, w, w', script0);
  }

  /** A replay that started and met a readable oldest item tried that item first. */
  lemma FirstIsTried(tries: seq<Try>, rounds: seq<Round>, stop: Stop, handled: nat, queue: seq<Option<Item>>,
                     w0: World, w: World, script0: seq<Happening>)
    requires Replayed(tries, rounds, stop, handled, queue, w0, w, script0)
    ensures queue != [] && queue[0].Some? && (stop.Emptied? || stop.Stuck?) ==>
              tries != [] && tries[0].id == queue[0].value.batchId && (EachTried(tries) ==> tries[0].attempts >= 1)
  {
    if queue != [] && queue[0].Some? && (stop.Emptied? || stop.Stuck?) {
      var ids := Ids(queue);
      assert ids != [] && ids[0] == queue[0].value.batchId;
      if stop.Emptied? {
        assert queue[..handled] == queue;
      }
      assert rounds != [] by {
        NoRoundsLeft(rounds);
      }
      TriedAt(ids, rounds, 0);
      assert rounds[..0] == [];
      assert TriedIds(tries)[0] == ids[0];
    }
  }

  lemma NoRoundsLeft(rounds: seq<Round>)
    ensures rounds == [] ==> Left(rounds) == 0
  {
  }

  lemma PostedExplains(err: Option<Error>, w0: World, w1: World, posted: World, w: World, id: BatchId,
                       script0: seq<Happening>, at: seq<Happening>)
    requires Explained(err, w1, posted, id, at) && IsSuffix(at, script0)
    requires AnswersStay(w0, w1) && w.requests == posted.requests && posted.acked <= w.acked
    ensures Explained(err, w0, w, id, script0)
  {
    assert forall h :: h in at ==> h in script0;
    if err.Some? && err.value.Status? {
      var r :| |w1.requests| <= r < |posted.requests| && posted.requests[r] == Request(id, Answered(err.value.code));
      assert w.requests[r] == posted.requests[r];
    }
  }

  /** What is known of a replay on its way. */
  ghost predicate Story(tries: seq<Try>, rounds: seq<Round>, queue: seq<Option<Item>>, handled: nat, w0: World, w: World,
                        script0: seq<Happening>, script: seq<Happening>, quiet: bool)
  {
    && Plays(tries, rounds, queue, handled) && Settled(w, queue[..handled])
    && Truthful(tries, rounds, w0, w, script0) && AnswersStay(w0, w) && IsSuffix(script, script0)
    && (forall t :: t in tries ==> t.attempts <= RetryAttempts)
    && (quiet ==> EachTried(tries))
  }

  lemma StoryStarts(queue: seq<Option<Item>>, w: World, script: seq<Happening>)
    ensures Story([], [], queue, 0, w, w, script, script, true) && FailedRemovals([]) == 0
  {
    assert queue[..0] == [];
    NoRounds(queue);
    NothingToSettle(w);
    NothingClaimed(w, script);
  }

  lemma StoryTells(tries: seq<Try>, rounds: seq<Round>, queue: seq<Option<Item>>, handled: nat, w0: World, w: World,
                   script0: seq<Happening>, script: seq<Happening>, quiet: bool)
    requires Story(tries, rounds, queue, handled, w0, w, script0, script, quiet)
    ensures handled <= |queue| && Plays(tries, rounds, queue, handled) && Settled(w, queue[..handled])
    ensures Truthful(tries, rounds, w0, w, script0) && AnswersStay(w0, w) && IsSuffix(script, script0)
    ensures forall t :: t in tries ==> t.attempts <= RetryAttempts
    ensures quiet ==> EachTried(tries)
  {
  }

  lemma StorySkips(tries: seq<Try>, rounds: seq<Round>, queue: seq<Option<Item>>, handled: nat, skipped: nat, w0: World, w: World,
                   script0: seq<Happening>, script: seq<Happening>, quiet: bool)
    requires Story(tries, rounds, queue, handled, w0, w, script0, script, quiet)
    requires handled + skipped <= |queue| && Coupled(queue[handled..], w.spooled)
    requires forall i :: 0 <= i < skipped ==> !Usable(queue[handled..][i])
    ensures Story(tries, rounds, queue, handled + skipped, w0, w, script0, script, quiet)
    ensures Coupled(queue[handled + skipped..], w.spooled)
    ensures queue[handled..][skipped..] == queue[handled + skipped..]
  {
    hide Truthful, AnswersStay, IsSuffix, EachTried, Plays, Settled, Coupled, Usable;
    SkipDamaged(queue, handled, skipped, w);
    PlaysSkip(tries, rounds, queue, handled, skipped);
  }

  lemma StoryGoesOn(tries: seq<Try>, rounds: seq<Round>, queue: seq<Option<Item>>, handled: nat, w0: World, w: World, w': World,
                    script0: seq<Happening>, at: seq<Happening>, script: seq<Happening>, quiet: bool, quiet': bool,
                    t: Try, err: Option<Error>, taken: bool)
    requires Story(tries, rounds, queue, handled, w0, w, script0, at, quiet)
    requires handled < |queue| && queue[handled].Some? && queue[handled].value.batchId == t.id && t.attempts <= RetryAttempts
    requires rounds != [] ==> Leaves(rounds[|rounds| - 1]) || Stays(rounds[|rounds| - 1])
    requires taken ==> !Retryable(err) && (t.id in w'.acked || t.id in w'.dropped)
    requires w.acked <= w'.acked && w.dropped.Keys <= w'.dropped.Keys
    requires AnswersStay(w, w') && IsSuffix(script, at) && Explained(err, w, w', t.id, at)
    requires quiet' ==> quiet && t.attempts >= 1
    ensures Story(tries + [t], rounds + [Round(VerdictOn(err), taken)], queue, if taken then handled + 1 else handled,
                  w0, w', script0, script, quiet')
    ensures FailedRemovals(rounds + [Round(VerdictOn(err), taken)]) ==
            FailedRemovals(rounds) + (if Stays(Round(VerdictOn(err), taken)) then 1 else 0)
    ensures queue[handled..][1..] == queue[handled + 1..]
  {
    hide Truthful, AnswersStay, IsSuffix, EachTried, Plays, Settled, Explained, Retryable, FailedRemovals;
    var r := Round(VerdictOn(err), taken);
    StillSettled(w, w', queue[..handled]);
    PlaysNext(tries, rounds, queue, handled, t, r);
    TruthfulNext(tries, rounds, w0, w, w', script0, at, t, err, taken);
    AnswersStayOn(w0, w, w');
    SuffixOfSuffix(script, at, script0);
    EachTriedSnoc(tries, t);
    FinalErrors();
    if taken {
      NextInQueue(queue, handled, t.id, w');
    }
    assert Leaves(r) <==> taken by { LeavesWhenTaken(err, taken); }
  }

  lemma LeavesWhenTaken(err: Option<Error>, taken: bool)
    requires taken ==> !Retryable(err)
    ensures Leaves(Round(VerdictOn(err), taken)) <==> taken
  {
  }

  lemma FinalErrors()
    ensures !Retryable(None) && !Retryable(Some(Canceled))
  {
  }

  /** Bookkeeping changes neither answers nor why an error came about. */
  lemma BookkeepingExplains(err: Option<Error>, w: World, posted: World, w': World, id: BatchId, script: seq<Happening>)
    requires AnswersStay(w, posted) && Explained(err, w, posted, id, script)
    requires w'.requests == posted.requests && posted.acked <= w'.acked
    ensures AnswersStay(w, w') && Explained(err, w, w', id, script)
  {
  }

  /** The agent gave the batch up for a final answer to one of its requests. */
  ghost predicate FinallyRefused(w: World, w': World, id: BatchId) {
    exists r :: |w.requests| <= r < |w'.requests| && w'.requests[r].id == id && FinalError(w'.requests[r].phase)
  }

  /** The verdicts of the rounds are those of the hub and the context. */
  ghost predicate Truthful(tries: seq<Try>, rounds: seq<Round>, w: World, w': World, script: seq<Happening>) {
    && |tries| == |rounds| && |w.requests| <= |w'.requests|
    && forall k :: 0 <= k < |rounds| && k < |tries| ==> TruthfulRound(tries[k], rounds[k], w, w', script)
  }

  ghost predicate TruthfulRound(t: Try, r: Round, w: World, w': World, script: seq<Happening>) {
    match r.verdict
    case Delivered => t.id in w'.acked
    case Refused => FinallyRefused(w, w', t.id) || Happening.Cancelled in script
    case Transient => true
  }

  lemma NothingClaimed(w: World, script: seq<Happening>)
    ensures Truthful([], [], w, w, script)
  {
  }

  lemma StillRefused(w: World, w': World, w'': World, id: BatchId)
    requires FinallyRefused(w, w', id) && AnswersStay(w', w'')
    ensures FinallyRefused(w, w'', id)
  {
    var r :| |w.requests| <= r < |w'.requests| && w'.requests[r].id == id && FinalError(w'.requests[r].phase);
    assert w''.requests[r] == w'.requests[r];
  }

  lemma StillTruthful(tries: seq<Try>, rounds: seq<Round>, w: World, w': World, w'': World, script: seq<Happening>)
    requires Truthful(tries, rounds, w, w', script) && AnswersStay(w', w'') && w'.acked <= w''.acked
    ensures Truthful(tries, rounds, w, w'', script)
  {
    forall k | 0 <= k < |rounds| ensures TruthfulRound(tries[k], rounds[k], w, w'', script) {
      assert TruthfulRound(tries[k], rounds[k], w, w', script);
      if FinallyRefused(w, w', tries[k].id) {
        StillRefused(w, w', w'', tries[k].id);
      }
    }
  }

  /** Every item of a replay was posted at least once. */
  ghost predicate EachTried(tries: seq<Try>) {
    forall k :: 0 <= k < |tries| ==> tries[k].attempts >= 1
  }

  lemma NoneTried()
    ensures EachTried([])
  {
  }

  lemma EachTriedSnoc(tries: seq<Try>, t: Try)
    ensures EachTried(tries) && t.attempts >= 1 ==> EachTried(tries + [t])
  {
  }

  /** One more round with the verdict on its error. */
  lemma TruthfulNext(tries: seq<Try>, rounds: seq<Round>, w: World, w': World, w'': World, script: seq<Happening>,
                     at: seq<Happening>, t: Try, err: Option<Error>, removed: bool)
    requires Truthful(tries, rounds, w, w', script) && AnswersStay(w', w'') && w'.acked <= w''.acked
    requires IsSuffix(at, script) && Explained(err, w', w'', t.id, at)
    ensures Truthful(tries + [t], rounds + [Round(VerdictOn(err), removed)], w, w'', script)
  {
    StillTruthful(tries, rounds, w, w', w'', script);
    var r := Round(VerdictOn(err), removed);
    assert TruthfulRound(t, r, w, w'', script) by {
      VerdictExplained(w, w', w'', script, at, t, err, removed);
    }
  }

  lemma VerdictExplained(w: World, w': World, w'': World, script: seq<Happening>, at: seq<Happening>, t: Try,
                         err: Option<Error>, removed: bool)
    requires |w.requests| <= |w'.requests| && IsSuffix(at, script) && Explained(err, w', w'', t.id, at)
    ensures TruthfulRound(t, Round(VerdictOn(err), removed), w, w'', script)
  {
    if err.Some? && !Retryable(err) {
      if err.value.Status? {
        var r :| |w'.requests| <= r < |w''.requests| && w''.requests[r] == Request(t.id, Answered(err.value.code));
        assert err.value.code >= 300 ==> FinalError(w''.requests[r].phase);
      } else {
        assert Happening.Cancelled in at;
        assert forall h :: h in at ==> h in script;
      }
    }
  }

  lemma NoTries()
    ensures Attempts([]) == [] && TriedIds([]) == []
  {
  }

  class Client {
    const net: Net
    const spool: Spool?

    ghost predicate Valid()
      reads this, net, spool
    {
      && net.Valid()
      && net.world.sending !! net.world.spooled
      && (if spool == null then net.world.spooled == {} else Coupled(Contents(spool.dir), net.world.spooled))
    }

    constructor (net: Net, spool: Spool?)
      requires net.Valid() && net.world.spooled == {} && net.world.sending == {}
      requires spool != null ==> Listing(spool.dir) == []
      ensures Valid() && this.net == net && this.spool == spool
    {
      this.net, this.spool := net, spool;
      if spool != null {
        assert Contents(spool.dir) == [];
      }
    }

    /** drain: replays the spool oldest first. A success or a permanent failure
        takes the item off, a transient failure keeps it and ends the replay. The
        rounds say what every call on the way did: while refused items can be
        removed each is tried once and in order, and only then. */
    method Drain() returns (tries: seq<Try>, ghost handled: nat, ghost rounds: seq<Round>, stop: Stop)
      requires Valid() && spool != null
      modifies net, spool
      ensures Valid()
      ensures handled <= |Listing(old(spool.dir))|
      ensures Listing(spool.dir) == Listing(old(spool.dir))[handled..]
      ensures Contents(spool.dir) == Contents(old(spool.dir))[handled..]
      ensures |spool.faults| <= |old(spool.faults)| && (HasFolder(spool.dir) ==> HasFolder(old(spool.dir)))
      ensures Settled(net.world, Contents(old(spool.dir))[..handled])
      ensures stop.Stuck? ==> Retryable(Some(stop.err)) && Contents(spool.dir) != [] && Contents(spool.dir)[0].Some?
      ensures stop.Emptied? ==> Listing(spool.dir) == []
      ensures net.interrupts >= old(net.interrupts)
      ensures net.interrupts == old(net.interrupts) && stop.Stuck? ==> tries != [] && tries[|tries| - 1].attempts == RetryAttempts
      ensures forall t :: t in tries ==> t.attempts <= RetryAttempts
      ensures Sent(net.log) == Sent(old(net.log)) + Attempts(tries)
      ensures stop.NotStarted? ==> tries == [] && handled == 0 && net.interrupts > old(net.interrupts)
      ensures stop.DiskError? ==> |spool.faults| < |old(spool.faults)| || HasFolder(old(spool.dir))
      ensures net.world.spooled <= old(net.world.spooled)
      ensures Plays(tries, rounds, Contents(old(spool.dir)), handled) && Ends(rounds, stop)
      ensures FailedRemovals(rounds) == 0 && !stop.DiskError? ==>
                TriedIds(tries) == Ids(Contents(old(spool.dir))[..handled])
                                   + (if stop.Stuck? then [Contents(spool.dir)[0].value.batchId] else [])
      ensures !stop.DiskError? ==> (Sorting.NoDuplicates(TriedIds(tries)) <==> FailedRemovals(rounds) == 0)
      ensures FailedRemovals(rounds) + |spool.faults| <= |old(spool.faults)|
      ensures Truthful(tries, rounds, old(net.world), net.world, old(net.script))
      ensures AnswersStay(old(net.world), net.world) && IsSuffix(net.script, old(net.script))
      ensures net.interrupts == old(net.interrupts) ==> EachTried(tries)
      ensures net.world.payload == old(net.world.payload) && net.world.sending == old(net.world.sending)
    {
      hide Listing, Contents, Inv, Step, Sent, RunFrom, Ids, TriedIds, Tried, Attempts, Retryable, Copies, HasFolder, Settled, Plays, FailedRemovals,
        Truthful, AnswersStay, IsSuffix, EachTried;
      ghost var queue := Contents(spool.dir);
      tries, handled, rounds := [], 0, [];
      assert queue[0..] == queue && Listing(spool.dir)[0..] == Listing(spool.dir) && queue[..0] == [];
      NothingToSettle(net.world);
      NoTries();
      NoRounds(queue);
      NothingClaimed(net.world, net.script);
      AnswersStayHere(net.world);
      WholeSuffix(net.script);
      NoneTried();
      var ended := net.ContextError();
      if ended.Some? {
        stop := NotStarted;
      } else {
        tries, handled, rounds, stop := ReplayAll();
      }
      QueueIds(queue, handled, rounds, tries, stop);
      ReplayOrder(tries, rounds, queue, handled, stop);
    }

    /** The loop of drain. */
    method ReplayAll() returns (tries: seq<Try>, ghost handled: nat, ghost rounds: seq<Round>, stop: Stop)
      requires Valid() && spool != null
      modifies net, spool
      ensures Valid()
      ensures handled <= |Listing(old(spool.dir))|
      ensures Listing(spool.dir) == Listing(old(spool.dir))[handled..]
      ensures Contents(spool.dir) == Contents(old(spool.dir))[handled..]
      ensures |spool.faults| <= |old(spool.faults)| && (HasFolder(spool.dir) ==> HasFolder(old(spool.dir)))
      ensures Settled(net.world, Contents(old(spool.dir))[..handled])
      ensures stop.Stuck? ==> Retryable(Some(stop.err)) && Contents(spool.dir) != [] && Contents(spool.dir)[0].Some?
      ensures stop.Emptied? ==> Listing(spool.dir) == []
      ensures net.interrupts >= old(net.interrupts)
      ensures net.interrupts == old(net.interrupts) && stop.Stuck? ==> tries != [] && tries[|tries| - 1].attempts == RetryAttempts
      ensures forall t :: t in tries ==> t.attempts <= RetryAttempts
      ensures Sent(net.log) == Sent(old(net.log)) + Attempts(tries)
      ensures !stop.NotStarted?
      ensures stop.DiskError? ==> |spool.faults| < |old(spool.faults)| || HasFolder(old(spool.dir))
      ensures net.world.spooled <= old(net.world.spooled)
      ensures Plays(tries, rounds, Contents(old(spool.dir)), handled) && Ends(rounds, stop)
      ensures FailedRemovals(rounds) + |spool.faults| <= |old(spool.faults)|
      ensures Truthful(tries, rounds, old(net.world), net.world, old(net.script))
      ensures AnswersStay(old(net.world), net.world) && IsSuffix(net.script, old(net.script))
      ensures net.interrupts == old(net.interrupts) ==> EachTried(tries)
      ensures net.world.payload == old(net.world.payload) && net.world.sending == old(net.world.sending)
    {
      hide Listing, Contents, Inv, Step, Sent, RunFrom, Ids, Coupled, TriedIds, Attempts, Retryable, Copies, Usable,
        HasFolder, Settled, Plays, FailedRemovals, Truthful, AnswersStay, IsSuffix, Explained, EachTried, Story, Going, Ends,
        Leaves, Stays, VerdictOn;
      ghost var queue := Contents(spool.dir);
      ghost var names := Listing(spool.dir);
      ghost var w0, script0 := net.world, net.script;
      tries, handled, rounds := [], 0, [];
      stop := DiskError;
      assert queue[0..] == queue && names[0..] == names;
      NoTries();
      StoryStarts(queue, w0, script0);
      GoingStarts(queue, |spool.faults|);
      while true
        invariant Valid() && handled <= |names| && |queue| == |names|
        invariant Listing(spool.dir) == names[handled..] && Contents(spool.dir) == queue[handled..]
        invariant Story(tries, rounds, queue, handled, w0, net.world, script0, net.script, net.interrupts == old(net.interrupts))
        invariant Sent(net.log) == Sent(old(net.log)) + Attempts(tries)
        invariant |spool.faults| <= |old(spool.faults)| && net.world.spooled <= old(net.world.spooled)
        invariant HasFolder(spool.dir) ==> HasFolder(old(spool.dir))
        invariant net.interrupts >= old(net.interrupts)
        invariant Going(rounds, queue, handled, |spool.faults|, |old(spool.faults)|)
        invariant net.world.payload == old(net.world.payload) && net.world.sending == old(net.world.sending)
        decreases |Listing(spool.dir)| + |spool.faults|
      {
        ghost var before, at, quiet := net.world, net.script, net.interrupts == old(net.interrupts);
        ghost var skipped, faults := 0, |spool.faults|;
        var front, err, attempts, taken;
        front, skipped, err, attempts, taken := Turn();
        StorySkips(tries, rounds, queue, handled, skipped, w0, before, script0, at, quiet);
        if !front.Oldest? {
          GoingStops(rounds, queue, handled, skipped, faults, |spool.faults|, |old(spool.faults)|, front.Failed?);
          handled := handled + skipped;
          stop := if front.Failed? then DiskError else Emptied;
          StoryTells(tries, rounds, queue, handled, w0, net.world, script0, net.script, net.interrupts == old(net.interrupts));
          return;
        }
        var id := front.item.batchId;
        AttemptsSnoc(Sent(old(net.log)), tries, Try(id, attempts));
        assert queue[handled..][skipped] == queue[handled + skipped];
        HeadIsUsable(queue, handled + skipped, before.spooled);
        GoingTells(rounds, queue, handled, faults, |old(spool.faults)|);
        StoryGoesOn(tries, rounds, queue, handled + skipped, w0, before, net.world, script0, at, net.script, quiet,
          net.interrupts == old(net.interrupts), Try(id, attempts), err, taken);
        GoingOn(rounds, queue, handled, handled + skipped, faults, |spool.faults|, |old(spool.faults)|, err, taken);
        tries := tries + [Try(id, attempts)];
        rounds := rounds + [Round(VerdictOn(err), taken)];
        handled := handled + skipped + if taken then 1 else 0;
        if (err.Some? && Retryable(err)) || (!taken && err.None?) {
          stop := if err.Some? then Stuck(err.value) else DiskError;
          StoryTells(tries, rounds, queue, handled, w0, net.world, script0, net.script, net.interrupts == old(net.interrupts));
          return;
        }
      }
    }

    /** One turn of the loop: the oldest readable item, if there is one, is replayed. */
    method Turn() returns (front: FrontResult, ghost skipped: nat, err: Option<Error>, attempts: nat, taken: bool)
      requires Valid() && spool != null
      modifies net, spool
      ensures Valid() && attempts <= RetryAttempts
      ensures |spool.faults| <= |old(spool.faults)| && (HasFolder(spool.dir) ==> HasFolder(old(spool.dir)))
      ensures skipped <= |Listing(old(spool.dir))| && forall i :: 0 <= i < skipped ==> !Usable(Contents(old(spool.dir))[i])
      ensures front.Failed? ==> |spool.faults| < |old(spool.faults)| || HasFolder(old(spool.dir))
      ensures front.Empty? ==> Listing(spool.dir) == []
      ensures !front.Oldest? ==> !taken && net.world == old(net.world) && net.script == old(net.script)
                                 && net.log == old(net.log) && net.interrupts == old(net.interrupts)
      ensures front.Oldest? ==> skipped < |Contents(old(spool.dir))| && Contents(old(spool.dir))[skipped] == Some(front.item)
      ensures Listing(spool.dir) == Listing(old(spool.dir))[if taken then skipped + 1 else skipped..]
      ensures Contents(spool.dir) == Contents(old(spool.dir))[if taken then skipped + 1 else skipped..]
      ensures front.Oldest? ==>
                && Sent(net.log) == Sent(old(net.log)) + Copies(front.item.batchId, attempts)
                && AnswersStay(old(net.world), net.world) && IsSuffix(net.script, old(net.script))
                && Explained(err, old(net.world), net.world, front.item.batchId, old(net.script))
                && net.interrupts >= old(net.interrupts)
                && (net.interrupts == old(net.interrupts) ==> attempts >= 1 && (Retryable(err) ==> attempts == RetryAttempts))
                && (taken ==> !Retryable(err) && (front.item.batchId in net.world.acked || front.item.batchId in net.world.dropped))
                && (!taken ==> (err.Some? && Retryable(err)) || |spool.faults| < |old(spool.faults)|)
      ensures old(net.world.acked) <= net.world.acked && old(net.world.dropped).Keys <= net.world.dropped.Keys
      ensures net.world.spooled <= old(net.world.spooled)
      ensures net.world.payload == old(net.world.payload) && net.world.sending == old(net.world.sending)
    {
      hide Listing, Contents, Inv, Step, Sent, RunFrom, Ids, Coupled, Retryable, Copies, Usable, Readable, HasFolder, Settled,
        AnswersStay, IsSuffix, Explained;
      ghost var queue, names := Contents(spool.dir), Listing(spool.dir);
      err, attempts, taken := None, 0, false;
      assert queue[0..] == queue;
      NothingToSettle(net.world);
      front, skipped := spool.Front();
      SkipDamaged(queue, 0, skipped, net.world);
      if front.Oldest? {
        assert queue[skipped..][0] == queue[skipped];
        err, attempts, taken := Replay(front.name, front.item);
        assert names[skipped..][1..] == names[skipped + 1..] && queue[skipped..][1..] == queue[skipped + 1..];
      }
    }

    /** One replay of the oldest item: posted, and taken off unless it should be tried again. */
    method Replay(name: string, item: Item) returns (err: Option<Error>, attempts: nat, taken: bool)
      requires Valid() && spool != null && Listing(spool.dir) != []
      requires name == Listing(spool.dir)[0] && Contents(spool.dir)[0] == Some(item)
      modifies net, spool
      ensures Valid() && attempts <= RetryAttempts
      ensures net.interrupts >= old(net.interrupts)
      ensures net.interrupts == old(net.interrupts) ==> attempts >= 1 && (Retryable(err) ==> attempts == RetryAttempts)
      ensures |spool.faults| <= |old(spool.faults)|
      ensures Sent(net.log) == Sent(old(net.log)) + Copies(item.batchId, attempts)
      ensures taken ==> !Retryable(err)
                        && Listing(spool.dir) == Listing(old(spool.dir))[1..]
                        && Contents(spool.dir) == Contents(old(spool.dir))[1..]
                        && (item.batchId in net.world.acked || item.batchId in net.world.dropped)
      ensures taken && err.Some? ==>
                item.batchId in net.world.dropped
                && net.world.dropped[item.batchId] == if err == Some(Canceled) then Reason.Cancelled else Permanent
      ensures AnswersStay(old(net.world), net.world) && IsSuffix(net.script, old(net.script))
      ensures Explained(err, old(net.world), net.world, item.batchId, old(net.script))
      ensures !taken ==> spool.dir == old(spool.dir) && ((err.Some? && Retryable(err)) || |spool.faults| < |old(spool.faults)|)
      ensures old(net.world.acked) <= net.world.acked && old(net.world.dropped).Keys <= net.world.dropped.Keys
      ensures net.world.spooled <= old(net.world.spooled) && (HasFolder(spool.dir) ==> HasFolder(old(spool.dir)))
      ensures net.world.payload == old(net.world.payload) && net.world.sending == old(net.world.sending)
    {
      hide Listing, Contents, Inv, Step, Sent, RunFrom, Ids, Coupled, Ended, AnswersStay, Explained, IsSuffix;
      var id := item.batchId;
      ghost var queue, books := Contents(spool.dir), net.world.spooled;
      TakeHead(queue, id, books);
      RemoveOldest(spool.dir, name);
      ghost var first, cut;
      err, attempts, first, cut := net.Post(id);
      ghost var posted := net.world;
      taken := false;
      if Retryable(err) {
        return;
      }
      taken := spool.Remove(name);
      if taken {
        if err.None? {
          Unspooled(net.world, id);
          net.Do(Unspool(id));
        } else {
          var reason := if err == Some(Canceled) then Reason.Cancelled else Permanent;
          Dropped(net.world, id, reason);
          net.Do(Drop(id, reason));
        }
        BookkeepingExplains(err, old(net.world), posted, net.world, id, old(net.script));
      }
    }

    /** sendBatch: replays what is spooled, then posts the new batch. A transient
        failure stores it; the rest of the books say where every batch went. The ghost
        results are those of the replay that came first. */
    method SendBatch(path: string, id: BatchId, stmts: seq<Stmt>, body: string, size: nat, isJson: bool)
      returns (err: Option<Error>, attempts: nat, ghost tries: seq<Try>, ghost handled: nat, ghost rounds: seq<Round>, ghost stop: Stop)
      requires Valid() && id != "" && id !in net.world.payload && path != ""
      modifies net, spool
      ensures Valid()
      ensures id in net.world.payload && net.world.payload[id] == stmts
      ensures net.world.sending == old(net.world.sending) && attempts <= RetryAttempts
      ensures Sent(net.log) == Sent(old(net.log)) + Attempts(tries) + Copies(id, attempts)
      ensures net.interrupts == old(net.interrupts) ==> attempts >= 1 && (Retryable(err) ==> attempts == RetryAttempts)
      ensures Explained(err, old(net.world), net.world, id, old(net.script))
      ensures spool == null ==> tries == []
      ensures spool != null ==>
                && Replayed(tries, rounds, stop, handled, Contents(old(spool.dir)), old(net.world), net.world, old(net.script))
                && (stop.NotStarted? ==> net.interrupts > old(net.interrupts))
                && (stop.DiskError? ==> |spool.faults| < |old(spool.faults)| || HasFolder(old(spool.dir)))
                && (net.interrupts == old(net.interrupts) ==> EachTried(tries))
      ensures spool != null && Contents(old(spool.dir)) != [] && Contents(old(spool.dir))[0].Some?
              && net.interrupts == old(net.interrupts) && |spool.faults| == |old(spool.faults)| && !HasFolder(old(spool.dir)) ==>
                tries != [] && tries[0].id == Contents(old(spool.dir))[0].value.batchId && tries[0].attempts >= 1
      ensures err.None? ==> id in net.world.committed && id in net.world.acked
      ensures err.Some? && !Retryable(err) ==>
                id in net.world.dropped && net.world.dropped[id] == if err == Some(Canceled) then Reason.Cancelled else Permanent
      ensures Retryable(err) && spool == null ==> id in net.world.dropped && net.world.dropped[id] == NoSpool
      ensures Retryable(err) && spool != null ==> Kept(Item(path, id, body), size, isJson, old(spool.dir), |old(spool.faults)|)
    {
      hide Listing, Contents, Inv, Step, Sent, RunFrom, Ids, Coupled, HasFolder, NamesExhausted, Attempts, Copies, Retryable,
        Plays, Ends, FailedRemovals, TriedIds, Settled, Replayed, EachTried, Explained, AnswersStay, IsSuffix, Truthful, Kept;
      tries, handled, rounds, stop := [], 0, [], NotStarted;
      NoTries();
      ghost var w0, script0 := net.world, net.script;
      Created(net.world, id, stmts);
      net.Do(Create(id, stmts));
      SameAnswers(w0, net.world);
      WholeSuffix(script0);
      ghost var created := net.world;
      if spool != null {
        ghost var before := spool.dir;
        var replayed, ended;
        replayed, handled, rounds, ended := Drain();
        tries, stop := replayed, ended;
        ExhaustedLater(before, spool.dir, handled);
        AnswersStayOn(w0, created, net.world);
        ReplayedBy(tries, rounds, stop, handled, Contents(before), spool.dir, w0, created, net.world, script0);
      }
      ghost var drained, at := net.world, net.script;
      ghost var dir, faults := if spool == null then map[] else spool.dir, if spool == null then 0 else |spool.faults|;
      err, attempts := Deliver(Item(path, id, body), size, isJson);
      PostedExplains(err, w0, drained, net.world, net.world, id, script0, at);
      if spool != null {
        ReplayedStill(tries, rounds, stop, handled, Contents(old(spool.dir)), w0, drained, net.world, script0);
        FirstIsTried(tries, rounds, stop, handled, Contents(old(spool.dir)), w0, net.world, script0);
        if Retryable(err) {
          KeptSince(Item(path, id, body), size, isJson, dir, faults, old(spool.dir), |old(spool.faults)|);
        }
      }
    }

    /** The new batch itself: posted, and kept or dropped when that fails. */
    method Deliver(item: Item, size: nat, isJson: bool) returns (err: Option<Error>, attempts: nat)
      requires Valid() && item.path != ""
      requires item.batchId in net.world.sending && item.batchId !in net.world.spooled
      modifies net, spool
      ensures Valid() && attempts <= RetryAttempts
      ensures net.world.payload == old(net.world.payload) && net.world.sending == old(net.world.sending) - {item.batchId}
      ensures Sent(net.log) == Sent(old(net.log)) + Copies(item.batchId, attempts)
      ensures net.interrupts >= old(net.interrupts)
      ensures net.interrupts == old(net.interrupts) ==> attempts >= 1 && (Retryable(err) ==> attempts == RetryAttempts)
      ensures Explained(err, old(net.world), net.world, item.batchId, old(net.script))
      ensures AnswersStay(old(net.world), net.world)
      ensures old(net.world.acked) <= net.world.acked && old(net.world.dropped).Keys <= net.world.dropped.Keys
      ensures spool != null ==> |spool.faults| <= |old(spool.faults)|
      ensures err.None? ==> item.batchId in net.world.committed && item.batchId in net.world.acked
      ensures err.Some? && !Retryable(err) ==>
                item.batchId in net.world.dropped && net.world.dropped[item.batchId] == if err == Some(Canceled) then Reason.Cancelled else Permanent
      ensures Retryable(err) && spool == null ==> item.batchId in net.world.dropped && net.world.dropped[item.batchId] == NoSpool
      ensures Retryable(err) && spool != null ==> Kept(item, size, isJson, old(spool.dir), |old(spool.faults)|)
    {
      hide Listing, Contents, Inv, Step, Sent, RunFrom, Ids, Coupled, HasFolder, NamesExhausted, Copies, Retryable,
        Explained, AnswersStay, IsSuffix, Ended;
      FinalErrors();
      ghost var first, cut;
      err, attempts, first, cut := net.Post(item.batchId);
      ghost var posted := net.world;
      if err.Some? {
        KeepOrDrop(item, err, size, isJson);
      }
      BookkeepingExplains(err, old(net.world), posted, net.world, item.batchId, old(net.script));
    }

    /** What becomes of a batch that could not be posted: dropped after a final error
        or without a spool, else stored. */
    method KeepOrDrop(item: Item, err: Option<Error>, size: nat, isJson: bool)
      requires Valid() && err.Some? && item.path != ""
      requires item.batchId in net.world.sending && item.batchId !in net.world.spooled
      modifies net, spool
      ensures Valid()
      ensures net.world.payload == old(net.world.payload) && net.world.sending == old(net.world.sending) - {item.batchId}
      ensures net.interrupts == old(net.interrupts) && Sent(net.log) == Sent(old(net.log))
      ensures net.world.requests == old(net.world.requests) && net.world.acked == old(net.world.acked)
      ensures old(net.world.dropped).Keys <= net.world.dropped.Keys
      ensures spool != null ==> |spool.faults| <= |old(spool.faults)|
      ensures !Retryable(err) ==>
                item.batchId in net.world.dropped && net.world.dropped[item.batchId] == if err == Some(Canceled) then Reason.Cancelled else Permanent
      ensures Retryable(err) && spool == null ==> item.batchId in net.world.dropped && net.world.dropped[item.batchId] == NoSpool
      ensures Retryable(err) && spool != null ==> Kept(item, size, isJson, old(spool.dir), |old(spool.faults)|)
    {
      hide Inv, Step, Sent, RunFrom, Ids, Coupled, HasFolder, NamesExhausted, Retryable, Contents, Listing;
      FinalErrors();
      var id := item.batchId;
      if spool == null || !Retryable(err) {
        var reason := if err == Some(Canceled) then Reason.Cancelled else if spool == null && Retryable(err) then NoSpool else Permanent;
        Dropped(net.world, id, reason);
        assert net.world.spooled - {id} == net.world.spooled;
        net.Do(Drop(id, reason));
      } else {
        Save(item, size, isJson);
      }
    }

    /** The batch is the newest in the spool, or was dropped because the disk refused
        it, starting from that directory and that many failures ahead. */
    ghost predicate Kept(item: Item, size: nat, isJson: bool, dir: Directory, faults: nat)
      reads this, net, spool
    {
      spool != null &&
      (|| (item.batchId in net.world.spooled && Contents(spool.dir) != [] && Contents(spool.dir)[|Contents(spool.dir)| - 1] == Some(item))
       || (item.batchId in net.world.dropped && net.world.dropped[item.batchId] == PutFailed
           && (!isJson || size > spool.maxBytes || |spool.faults| < faults || HasFolder(dir)))
       || (item.batchId in net.world.dropped && net.world.dropped[item.batchId] == Unlisted && NamesExhausted(dir)))
    }

    /** The same from an earlier directory. */
    lemma KeptSince(item: Item, size: nat, isJson: bool, dir: Directory, faults: nat, dir0: Directory, faults0: nat)
      requires Kept(item, size, isJson, dir, faults) && faults <= faults0
      requires HasFolder(dir) ==> HasFolder(dir0)
      requires NamesExhausted(dir) ==> NamesExhausted(dir0)
      ensures Kept(item, size, isJson, dir0, faults0)
    {
    }

    lemma KeptNewest(item: Item, size: nat, isJson: bool, queue: seq<Option<Item>>, dir0: Directory, faults0: nat)
      requires spool != null && item.batchId in net.world.spooled && Contents(spool.dir) == queue + [Some(item)]
      ensures Kept(item, size, isJson, dir0, faults0)
    {
    }

    lemma KeptRefused(item: Item, size: nat, isJson: bool, dir0: Directory, faults0: nat, reason: Reason)
      requires spool != null && item.batchId in net.world.dropped && net.world.dropped[item.batchId] == reason
      requires reason == PutFailed ==> !isJson || size > spool.maxBytes || |spool.faults| < faults0 || HasFolder(dir0)
      requires reason != PutFailed ==> reason == Unlisted && NamesExhausted(dir0)
      ensures Kept(item, size, isJson, dir0, faults0)
    {
    }

    /** Put, and what it means for the books: evicted batches are dropped, and the
        new one is spooled unless the disk refused it. */
    method Save(item: Item, size: nat, isJson: bool)
      requires Valid() && spool != null && item.path != ""
      requires item.batchId in net.world.sending && item.batchId !in net.world.spooled
      modifies net, spool
      ensures Valid()
      ensures net.world.payload == old(net.world.payload)
      ensures net.world.sending == old(net.world.sending) - {item.batchId}
      ensures net.world.acked == old(net.world.acked) && Sent(net.log) == Sent(old(net.log))
      ensures net.interrupts == old(net.interrupts)
      ensures net.world.requests == old(net.world.requests) && |spool.faults| <= |old(spool.faults)|
      ensures old(net.world.dropped).Keys <= net.world.dropped.Keys
      ensures item.batchId in net.world.spooled ==>
                Contents(spool.dir) == Contents(old(spool.dir))[Evictions(old(spool.dir), Listing(old(spool.dir)), size, spool.maxBytes)..] + [Some(item)]
      ensures Kept(item, size, isJson, old(spool.dir), |old(spool.faults)|)
    {
      hide Listing, Inv, Step, Sent, RunFrom, Ids, Coupled, Contents, BatchName, Evictions, HasFolder, NamesExhausted, Kept;
      var id := item.batchId;
      ghost var queue, books := Contents(spool.dir), net.world.spooled;
      var failed, evicted := spool.Put(item, size, isJson);
      assert failed.Some? ==> failed.value.NotJson? || failed.value.TooLarge? || failed.value.Full? || failed.value.IO?;
      DropOldest(old(spool.dir), evicted);
      ExhaustedLater(old(spool.dir), old(spool.dir) - Names(Listing(old(spool.dir))[..evicted]), evicted);
      DropPrefix(queue, evicted, books);
      DiskAfterPut(queue, evicted, item, books, spool.dir);
      var evictedIds := net.world.spooled - IdsOnDisk(spool.dir);
      EvictedBooks(net.world, evictedIds);
      net.Do(Evict(evictedIds));
      if id in IdsOnDisk(spool.dir) {
        AddNewest(queue[evicted..], item, net.world.spooled);
        StoredBooks(net.world, id);
        net.Do(Store(id));
        KeptNewest(item, size, isJson, queue[evicted..], old(spool.dir), |old(spool.faults)|);
      } else {
        var reason := if failed.Some? then PutFailed else Unlisted;
        Dropped(net.world, id, reason);
        assert net.world.spooled - {id} == net.world.spooled;
        net.Do(Drop(id, reason));
        KeptRefused(item, size, isJson, old(spool.dir), |old(spool.faults)|, reason);
      }
    }

    /** The disk damages one batch file between two sends. */
    method DamageFile(name: string)
      requires Valid() && spool != null && IsBatchFile(spool.dir, name) && spool.dir[name].item.Some?
      modifies net, spool
      ensures Valid()
      ensures var id := old(spool.dir)[name].item.value.batchId;
              id in net.world.acked || id in net.world.dropped
      ensures Listing(spool.dir) == Listing(old(spool.dir))
    {
      hide Inv, Step, Sent, RunFrom;
      var id := spool.dir[name].item.value.batchId;
      DamagedContents(spool.dir, name, net.world.spooled);
      spool.dir := spool.dir[name := Document(spool.dir[name].size, None)];
      if id in net.world.acked {
        Unspooled(net.world, id);
        net.Do(Unspool(id));
      } else {
        Dropped(net.world, id, Damaged);
        net.Do(Drop(id, Damaged));
      }
    }

    /** What holds at every call of a send, in the middle of Put too: whatever is on
        disk is one of the batches the agent keeps. */
    ghost predicate Recoverable()
      reads this, net, spool
    {
      && net.Valid()
      && net.world.sending !! net.world.spooled
      && (if spool == null then net.world.spooled == {} else Recorded(Contents(spool.dir), net.world.spooled + net.world.sending))
    }

    /** The agent dies and starts again over the same directory. The queue is what is
        on disk; what was being sent and is not there is lost for that reason. */
    method Restart()
      requires Recoverable()
      modifies net
      ensures Valid()
      ensures net.world.sending == {} && net.world.payload == old(net.world.payload)
      ensures spool != null ==> net.world.spooled == IdsOnDisk(spool.dir)
      ensures forall id :: id in old(net.world.sending) ==> id in net.world.spooled || id in net.world.dropped
      ensures forall id :: id in old(net.world.spooled) ==>
                id in net.world.spooled || id in net.world.acked || id in net.world.dropped
      ensures net.world.acked == old(net.world.acked) && old(net.world.dropped).Keys <= net.world.dropped.Keys
    {
      hide Inv, Step, Sent, RunFrom, Contents, Ids;
      if spool != null {
        var onDisk := IdsOnDisk(spool.dir);
        DiskShowsContents(spool.dir);
        var found := net.world.sending * onDisk;
        while found != {}
          invariant net.Valid() && net.world.payload == old(net.world.payload)
          invariant net.world.acked == old(net.world.acked) && net.world.dropped == old(net.world.dropped)
          invariant found <= old(net.world.sending) * onDisk && found <= net.world.sending
          invariant net.world.sending == old(net.world.sending) - (old(net.world.sending) * onDisk - found)
          invariant net.world.spooled == old(net.world.spooled) + (old(net.world.sending) * onDisk - found)
          decreases found
        {
          var id :| id in found;
          StoredBooks(net.world, id);
          net.Do(Store(id));
          found := found - {id};
        }
        EvictedBooks(net.world, net.world.spooled - onDisk);
        net.Do(Evict(net.world.spooled - onDisk));
        assert net.world.spooled == onDisk;
      }
      CrashedBooks(net.world);
      net.Do(Crash);
    }

    /** A crash inside Put, at whichever disk call: the call that does not come back
        leaves the directory as a failed one does, and the rename as a successful one. */
    method CrashInPut(item: Item, size: nat, isJson: bool)
      requires Valid() && spool != null && item.path != ""
      requires item.batchId in net.world.sending && item.batchId !in net.world.spooled
      modifies net, spool
      ensures Valid() && net.world.sending == {} && net.world.payload == old(net.world.payload)
      ensures forall id :: id in old(net.world.sending) ==> id in net.world.spooled || id in net.world.dropped
      ensures exists k :: 0 <= k <= |Contents(old(spool.dir))| &&
                (Contents(spool.dir) == Contents(old(spool.dir))[k..] || Contents(spool.dir) == Contents(old(spool.dir))[k..] + [Some(item)])
      ensures net.world.spooled == IdsOnDisk(spool.dir)
    {
      hide Inv, Step, Sent, RunFrom, Contents, Ids, Listing, Evictions, BatchName;
      ghost var queue, books := Contents(spool.dir), net.world.spooled;
      var failed, evicted := spool.Put(item, size, isJson);
      SuffixRecorded(queue, evicted, item, books, net.world.sending);
      Restart();
    }

    /** A crash anywhere in a send: before or during the replay, during the attempts,
        or while storing the batch. The scripts say how far the last of these got. */
    method CrashInSend(stage: nat, path: string, id: BatchId, stmts: seq<Stmt>, body: string, size: nat, isJson: bool)
      requires Valid() && id != "" && id !in net.world.payload && path != ""
      modifies net, spool
      ensures Valid() && net.world.sending == {}
      ensures id in net.world.payload && net.world.payload[id] == stmts
      ensures id in net.world.acked || id in net.world.spooled || id in net.world.dropped
      ensures spool != null ==> net.world.spooled == IdsOnDisk(spool.dir)
      ensures forall x :: x in old(net.world.sending) ==> x in net.world.spooled || x in net.world.dropped
    {
      hide Listing, Contents, Inv, Step, Sent, RunFrom, Ids, HasFolder, NamesExhausted, Attempts, Copies,
        Plays, Ends, FailedRemovals, TriedIds, Settled;
      Created(net.world, id, stmts);
      net.Do(Create(id, stmts));
      if stage >= 1 && spool != null {
        ghost var handled, rounds;
        var tries, stop;
        tries, handled, rounds, stop := Drain();
      }
      if stage >= 2 {
        ghost var first, cut;
        var err, attempts;
        err, attempts, first, cut := net.Post(id);
        if stage >= 3 && err.Some? && spool != null {
          CrashInPut(Item(path, id, body), size, isJson);
          return;
        }
      }
      Restart();
    }
  }

  /** Whatever is queued is one of the ids, each once. */
  ghost predicate Recorded(items: seq<Option<Item>>, ids: set<BatchId>) {
    && Sorting.NoDuplicates(Ids(items))
    && (forall id :: id in Ids(items) ==> id in ids)
    && forall i :: 0 <= i < |items| && items[i].Some? ==> items[i].value.path != ""
  }

  lemma SuffixRecorded(queue: seq<Option<Item>>, k: nat, item: Item, spooled: set<BatchId>, sending: set<BatchId>)
    requires Coupled(queue, spooled) && k <= |queue| && item.path != ""
    requires item.batchId in sending && item.batchId !in spooled
    ensures Recorded(queue[k..], spooled + sending) && Recorded(queue[k..] + [Some(item)], spooled + sending)
  {
    DropPrefix(queue, k, spooled);
    AddNewest(queue[k..], item, spooled - Gone(queue[..k]));
  }

  lemma CrashedBooks(w: World)
    ensures var w' := Step(w, Crash);
            BooksOf(w') == BooksOf(w).(sending := {}, dropped := w'.dropped)
            && w'.dropped.Keys == w.dropped.Keys + w.sending
  {
  }

  lemma Created(w: World, id: BatchId, stmts: seq<Stmt>)
    requires Inv(w) && id != "" && id !in w.payload
    ensures id !in w.sending && id !in w.spooled && id !in w.acked
    ensures BooksOf(Step(w, Create(id, stmts))) ==
            BooksOf(w).(payload := w.payload[id := stmts], sending := w.sending + {id})
    ensures Step(w, Create(id, stmts)).requests == w.requests
  {
  }

  lemma StoredBooks(w: World, id: BatchId)
    requires id in w.sending
    ensures BooksOf(Step(w, Store(id))) == BooksOf(w).(sending := w.sending - {id}, spooled := w.spooled + {id})
    ensures Step(w, Store(id)).requests == w.requests
  {
  }

  lemma EvictedBooks(w: World, ids: set<BatchId>)
    ensures var w' := Step(w, Evict(ids));
            BooksOf(w') == BooksOf(w).(spooled := w.spooled - ids, dropped := w'.dropped)
            && w.dropped.Keys <= w'.dropped.Keys && w'.requests == w.requests
            && forall id :: id in w.spooled && id in ids ==> id in w.acked || id in w'.dropped
  {
  }

  /** Whatever Put did, the ids on disk are those of the surviving suffix, plus
      the new one when it was listed. */
  lemma DiskAfterPut(queue: seq<Option<Item>>, evicted: nat, item: Item, books: set<BatchId>, dir: Directory)
    requires evicted <= |queue| && Coupled(queue, books) && item.batchId !in books
    requires Contents(dir) == queue[evicted..] || Contents(dir) == queue[evicted..] + [Some(item)]
    ensures books - IdsOnDisk(dir) == Gone(queue[..evicted])
    ensures item.batchId in IdsOnDisk(dir) <==> Contents(dir) == queue[evicted..] + [Some(item)]
  {
    DiskShowsContents(dir);
    DropPrefix(queue, evicted, books);
    IdsAppend(queue[evicted..], [Some(item)]);
    assert Ids([Some(item)]) == [item.batchId] + Ids([]);
    assert |queue[evicted..] + [Some(item)]| == |queue[evicted..]| + 1;
  }

  lemma DamagedContents(dir: Directory, name: string, spooled: set<BatchId>)
    requires IsBatchFile(dir, name) && dir[name].item.Some? && Coupled(Contents(dir), spooled)
    ensures var damaged := dir[name := Document(dir[name].size, None)];
            var id := dir[name].item.value.batchId;
            && Listing(damaged) == Listing(dir) && id in spooled
            && Coupled(Contents(damaged), spooled - {id})
  {
    hide Listing;
    var damaged := dir[name := Document(dir[name].size, None)];
    var ns := Listing(dir);
    ListingLists(dir);
    ListingUnique(ns, damaged);
    var i :| 0 <= i < |ns| && ns[i] == name;
    forall j | 0 <= j < |ns| && j != i ensures ns[j] != name {
      LessIrreflexive(name);
    }
    ItemAt(dir, ns, i);
    ItemsWithout(dir, damaged, ns, i);
    BlankOne(Contents(dir), i, spooled);
  }

  lemma {:induction false} ItemAt(dir: Directory, ns: seq<string>, i: nat)
    requires i < |ns| && ns[i] in dir && dir[ns[i]].Document?
    ensures ItemsOf(dir, ns)[i] == dir[ns[i]].item
  {
    if i > 0 {
      ItemAt(dir, ns[1..], i - 1);
    }
  }

  lemma {:induction false} ItemsWithout(dir: Directory, damaged: Directory, ns: seq<string>, i: nat)
    requires i < |ns| && ns[i] in dir && dir[ns[i]].Document?
    requires damaged == dir[ns[i] := Document(dir[ns[i]].size, None)]
    requires forall j :: 0 <= j < |ns| && j != i ==> ns[j] != ns[i]
    ensures ItemsOf(damaged, ns) == ItemsOf(dir, ns)[i := None]
  {
    if i == 0 {
      assert forall n :: n in ns[1..] ==> n != ns[0];
      SameItems(dir, damaged, ns[1..]);
    } else {
      ItemsWithout(dir, damaged, ns[1..], i - 1);
    }
  }

  lemma {:induction false} SameItems(d: Directory, e: Directory, ns: seq<string>)
    requires forall n :: n in ns ==> (n in d <==> n in e) && (n in d ==> d[n] == e[n])
    ensures ItemsOf(d, ns) == ItemsOf(e, ns)
  {
    if ns != [] {
      SameItems(d, e, ns[1..]);
    }
  }

  lemma BlankOne(items: seq<Option<Item>>, i: nat, spooled: set<BatchId>)
    requires i < |items| && items[i].Some? && Coupled(items, spooled)
    ensures items[i].value.batchId in spooled
    ensures Coupled(items[i := None], spooled - {items[i].value.batchId})
  {
    hide Sorting.NoDuplicates;
    var id := items[i].value.batchId;
    var left, right := items[..i], items[i + 1..];
    assert items == left + ([items[i]] + right) && items[i := None] == left + ([None] + right);
    IdsAppend(left, [items[i]] + right);
    IdsAppend(left, [None] + right);
    assert Ids([items[i]] + right) == [id] + Ids(right) && Ids([None] + right) == Ids(right);
    TakenOut(Ids(left), id, Ids(right), spooled);
    assert forall j :: 0 <= j < |items| ==> items[i := None][j] == if j == i then None else items[j];
  }

  /** Distinct ids stay distinct when one is taken out of the middle. */
  lemma TakenOut(a: seq<BatchId>, x: BatchId, b: seq<BatchId>, ids: set<BatchId>)
    requires Sorting.NoDuplicates(a + ([x] + b)) && forall id :: id in a + ([x] + b) <==> id in ids
    ensures x in ids && Sorting.NoDuplicates(a + b) && forall id :: id in a + b <==> id in ids - {x}
  {
    var all, rest := a + ([x] + b), a + b;
    assert all[|a|] == x;
    forall m, n | 0 <= m < n < |rest| ensures rest[m] != rest[n] {
      var m', n' := if m < |a| then m else m + 1, if n < |a| then n else n + 1;
      assert all[m'] == rest[m] && all[n'] == rest[n];
    }
    assert x !in a && x !in b by {
      assert forall m :: 0 <= m < |a| ==> all[m] == a[m];
      assert forall m :: 0 <= m < |b| ==> all[|a| + 1 + m] == b[m];
    }
  }

  /** The tries of a replay are those of its rounds on the queued ids, and the items
      handled so far are those that left. */
  ghost predicate Plays(tries: seq<Try>, rounds: seq<Round>, queue: seq<Option<Item>>, handled: nat) {
    && handled <= |queue| && GoesOn(rounds)
    && TriedIds(tries) == Tried(Ids(queue), rounds)
    && Left(rounds) == |Ids(queue[..handled])|
  }

  /** Which round can be the last one. */
  predicate Ends(rounds: seq<Round>, stop: Stop) {
    match stop
    case NotStarted => rounds == []
    case Emptied => rounds == [] || Leaves(rounds[|rounds| - 1])
    case DiskError => rounds == [] || rounds[|rounds| - 1].verdict != Transient
    case Stuck(_) => rounds != [] && rounds[|rounds| - 1].verdict == Transient && !rounds[|rounds| - 1].removed
  }

  /** What lets the loop go on: the last item left, or was refused and could not be
      removed and is still there; each failed removal used up a disk failure. */
  ghost predicate Going(rounds: seq<Round>, queue: seq<Option<Item>>, handled: nat, faults: nat, faults0: nat) {
    && (rounds != [] ==> Leaves(rounds[|rounds| - 1]) || Stays(rounds[|rounds| - 1]))
    && (rounds != [] && Stays(rounds[|rounds| - 1]) ==> handled < |queue| && Usable(queue[handled]))
    && FailedRemovals(rounds) + faults <= faults0
  }

  lemma GoingStarts(queue: seq<Option<Item>>, faults: nat)
    ensures Going([], queue, 0, faults, faults)
  {
  }

  lemma GoingTells(rounds: seq<Round>, queue: seq<Option<Item>>, handled: nat, faults: nat, faults0: nat)
    requires Going(rounds, queue, handled, faults, faults0)
    ensures rounds != [] ==> Leaves(rounds[|rounds| - 1]) || Stays(rounds[|rounds| - 1])
  {
  }

  /** Nothing readable in front: the disk failed or the queue is at its end. */
  lemma GoingStops(rounds: seq<Round>, queue: seq<Option<Item>>, handled: nat, skipped: nat, faults: nat, faults': nat,
                   faults0: nat, failed: bool)
    requires Going(rounds, queue, handled, faults, faults0) && faults' <= faults
    requires handled + skipped <= |queue| && (!failed ==> handled + skipped == |queue|)
    requires forall i :: 0 <= i < skipped ==> !Usable(queue[handled..][i])
    ensures Ends(rounds, if failed then DiskError else Emptied) && FailedRemovals(rounds) + faults' <= faults0
  {
    hide Usable, FailedRemovals;
    if !failed && handled < |queue| {
      assert !Usable(queue[handled..][0]) && queue[handled..][0] == queue[handled];
    }
  }

  /** After one more round the loop goes on, or it ends as the round says. */
  lemma GoingOn(rounds: seq<Round>, queue: seq<Option<Item>>, handled: nat, front: nat, faults: nat, faults': nat, faults0: nat,
                err: Option<Error>, taken: bool)
    requires Going(rounds, queue, handled, faults, faults0) && faults' <= faults
    requires front < |queue| && Usable(queue[front])
    requires !taken ==> (err.Some? && Retryable(err)) || faults' < faults
    requires taken ==> !Retryable(err)
    ensures var more := rounds + [Round(VerdictOn(err), taken)];
            && FailedRemovals(more) + faults' <= faults0
            && if err.Some? && Retryable(err) then Ends(more, Stuck(err.value))
               else if !taken && err.None? then Ends(more, DiskError)
               else Going(more, queue, if taken then front + 1 else front, faults', faults0)
  {
    hide Usable, Retryable;
    FinalErrors();
    assert (rounds + [Round(VerdictOn(err), taken)])[..|rounds|] == rounds;
  }

  lemma NoRounds(queue: seq<Option<Item>>)
    ensures Plays([], [], queue, 0) && FailedRemovals([]) == 0
  {
    assert queue[..0] == [];
  }

  lemma PlaysSkip(tries: seq<Try>, rounds: seq<Round>, queue: seq<Option<Item>>, handled: nat, skipped: nat)
    requires Plays(tries, rounds, queue, handled) && handled + skipped <= |queue|
    requires Ids(queue[..handled + skipped]) == Ids(queue[..handled])
    ensures Plays(tries, rounds, queue, handled + skipped)
  {
  }

  lemma PlaysNext(tries: seq<Try>, rounds: seq<Round>, queue: seq<Option<Item>>, handled: nat, t: Try, r: Round)
    requires Plays(tries, rounds, queue, handled)
    requires handled < |queue| && queue[handled].Some? && queue[handled].value.batchId == t.id
    requires rounds != [] ==> Leaves(rounds[|rounds| - 1]) || Stays(rounds[|rounds| - 1])
    ensures Plays(tries + [t], rounds + [r], queue, if Leaves(r) then handled + 1 else handled)
    ensures FailedRemovals(rounds + [r]) == FailedRemovals(rounds) + (if Stays(r) then 1 else 0)
  {
    var ids := Ids(queue);
    HeadId(queue, handled);
    hide Ids, Tried, Left, FailedRemovals, TriedIds, GoesOn;
    RoundSnoc(ids, rounds, r);
    GoesOnSnoc(rounds, r);
    TriedIdsSnoc(tries, t);
  }

  lemma GoesOnSnoc(rounds: seq<Round>, r: Round)
    requires GoesOn(rounds) && (rounds != [] ==> Leaves(rounds[|rounds| - 1]) || Stays(rounds[|rounds| - 1]))
    ensures GoesOn(rounds + [r])
  {
    var more := rounds + [r];
    assert forall k :: 0 <= k < |rounds| ==> more[k] == rounds[k];
  }

  lemma TriedIdsSnoc(tries: seq<Try>, t: Try)
    ensures TriedIds(tries + [t]) == TriedIds(tries) + [t.id]
  {
  }

  lemma HeadIsUsable(queue: seq<Option<Item>>, handled: nat, spooled: set<BatchId>)
    requires handled < |queue| && queue[handled].Some? && Coupled(queue[handled..], spooled)
    ensures Usable(queue[handled])
  {
    assert queue[handled..][0] == queue[handled];
  }

  lemma HeadId(queue: seq<Option<Item>>, handled: nat)
    requires handled < |queue| && queue[handled].Some?
    ensures At(Ids(queue), |Ids(queue[..handled])|) == queue[handled].value.batchId
    ensures |Ids(queue[..handled + 1])| == |Ids(queue[..handled])| + 1 <= |Ids(queue)|
  {
    var left, head, right := queue[..handled], [queue[handled]], queue[handled + 1..];
    assert queue == left + (head + right) && queue[..handled + 1] == left + head;
    IdsAppend(left, head + right);
    IdsAppend(head, right);
    IdsAppend(left, head);
    assert Ids(head) == [queue[handled].value.batchId] + Ids([]);
  }

  lemma QueueIds(queue: seq<Option<Item>>, handled: nat, rounds: seq<Round>, tries: seq<Try>, stop: Stop)
    requires Plays(tries, rounds, queue, handled)
    requires stop.Stuck? ==> handled < |queue| && queue[handled].Some?
    ensures Left(rounds) + (if stop.Stuck? then 1 else 0) <= |Ids(queue)|
    ensures stop.Stuck? ==> At(Ids(queue), Left(rounds)) == queue[handled].value.batchId
  {
    if stop.Stuck? {
      HeadId(queue, handled);
    } else {
      assert queue == queue[..handled] + queue[handled..];
      IdsAppend(queue[..handled], queue[handled..]);
    }
  }

  /** What a replay means for its items: while every refused item could be removed,
      they were tried in queue order, each in one go of at most five attempts; and
      none was tried twice exactly then, unless the disk ended the replay. */
  lemma ReplayOrder(tries: seq<Try>, rounds: seq<Round>, queue: seq<Option<Item>>, handled: nat, stop: Stop)
    requires Plays(tries, rounds, queue, handled) && Ends(rounds, stop)
    requires Sorting.NoDuplicates(Ids(queue)) && Left(rounds) + (if stop.Stuck? then 1 else 0) <= |Ids(queue)|
    ensures FailedRemovals(rounds) == 0 && !stop.DiskError? ==>
              TriedIds(tries) == Ids(queue[..handled]) + (if stop.Stuck? then [At(Ids(queue), Left(rounds))] else [])
    ensures !stop.DiskError? ==> (Sorting.NoDuplicates(TriedIds(tries)) <==> FailedRemovals(rounds) == 0)
  {
    var ids := Ids(queue);
    assert queue == queue[..handled] + queue[handled..];
    IdsAppend(queue[..handled], queue[handled..]);
    assert ids[..Left(rounds)] == Ids(queue[..handled]);
    hide Ids, Tried, TriedIds, Sorting.NoDuplicates;
    if FailedRemovals(rounds) == 0 {
      TriedInOrder(ids, rounds);
    }
    if !stop.DiskError? {
      if rounds != [] {
        var init, last := rounds[..|rounds| - 1], rounds[|rounds| - 1];
        assert rounds == init + [last];
        RoundSnoc(ids, init, last);
      }
      TriedOnceExactly(ids, rounds);
      SomeRemovalFailed(rounds);
    }
  }

  lemma {:induction false} SomeRemovalFailed(rounds: seq<Round>)
    ensures FailedRemovals(rounds) == 0 <==> forall k :: 0 <= k < |rounds| ==> !Stays(rounds[k])
  {
    if rounds != [] {
      SomeRemovalFailed(rounds[..|rounds| - 1]);
    }
  }

  /** Damaged files carry no id, so skipping them changes no books. */
  lemma SkipDamaged(queue: seq<Option<Item>>, handled: nat, skipped: nat, w: World)
    requires handled + skipped <= |queue| && Coupled(queue[handled..], w.spooled) && Settled(w, queue[..handled])
    requires forall i :: 0 <= i < skipped ==> !Usable(queue[handled..][i])
    ensures queue[handled..][skipped..] == queue[handled + skipped..]
    ensures Coupled(queue[handled + skipped..], w.spooled)
    ensures Ids(queue[..handled + skipped]) == Ids(queue[..handled])
    ensures Settled(w, queue[..handled + skipped])
  {
    hide Ids;
    var rest := queue[handled..];
    var damaged := rest[..skipped];
    forall i | 0 <= i < skipped ensures damaged[i].None? {
      assert damaged[i] == rest[i] == queue[handled + i];
    }
    NothingLeft(damaged);
    DropPrefix(rest, skipped, w.spooled);
    assert Gone(damaged) == {};
    assert queue[..handled + skipped] == queue[..handled] + damaged;
    IdsAppend(queue[..handled], damaged);
  }

  /** Every readable item of a queue was acknowledged or dropped for a reason. */
  ghost predicate Settled(w: World, items: seq<Option<Item>>) {
    forall i :: 0 <= i < |items| && items[i].Some? ==>
      items[i].value.batchId in w.acked || items[i].value.batchId in w.dropped
  }

  lemma NothingToSettle(w: World)
    ensures Settled(w, [])
  {
  }

  lemma StillSettled(w: World, w': World, items: seq<Option<Item>>)
    requires Settled(w, items) && w.acked <= w'.acked && w.dropped.Keys <= w'.dropped.Keys
    ensures Settled(w', items)
  {
  }

  lemma TakeHead(queue: seq<Option<Item>>, id: BatchId, spooled: set<BatchId>)
    requires queue != [] && queue[0].Some? && queue[0].value.batchId == id && Coupled(queue, spooled)
    ensures id in spooled && Coupled(queue[1..], spooled - {id})
  {
    DropPrefix(queue, 1, spooled);
    IdAt(queue, 0);
    assert queue[..1] == [queue[0]];
    assert Ids([queue[0]]) == [id] + Ids([]);
    assert Gone(queue[..1]) == {id};
  }

  lemma NextInQueue(queue: seq<Option<Item>>, handled: nat, id: BatchId, w: World)
    requires handled < |queue| && queue[handled].Some? && queue[handled].value.batchId == id
    requires Settled(w, queue[..handled]) && (id in w.acked || id in w.dropped)
    ensures Settled(w, queue[..handled + 1])
    ensures queue[handled..][1..] == queue[handled + 1..]
    ensures Ids(queue[..handled + 1]) == Ids(queue[..handled]) + [id]
  {
    assert Ids([queue[handled]]) == [id] + Ids([]);
    assert queue[..handled + 1] == queue[..handled] + [queue[handled]];
    IdsAppend(queue[..handled], [queue[handled]]);
  }

  lemma Unspooled(w: World, id: BatchId)
    requires id in w.spooled && id in w.acked
    ensures BooksOf(Step(w, Unspool(id))) == BooksOf(w).(spooled := w.spooled - {id})
    ensures Step(w, Unspool(id)).requests == w.requests
  {
  }

  lemma Dropped(w: World, id: BatchId, reason: Reason)
    requires id in w.spooled || id in w.sending
    ensures BooksOf(Step(w, Drop(id, reason))) ==
            BooksOf(w).(spooled := w.spooled - {id}, sending := w.sending - {id}, dropped := w.dropped[id := reason])
    ensures Step(w, Drop(id, reason)).requests == w.requests
  {
  }
}
