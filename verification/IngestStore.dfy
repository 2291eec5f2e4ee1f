/** The hub's ingest path as one caller sees it: the claim of a batch id and the
    statements of its handler in one transaction, the upsert of topology links,
    and the answer the handler gives. The interleaving of several callers is the
    subject of module Delivery, whose statements and sums are used here. */
module IngestStore {
  import opened Wrappers
  import opened Delivery
  import Sorting

  /** What a database call does: it works, fails without effect, or takes effect
      and loses the answer. Only a commit can do the last. */
  datatype Outcome = Fine | Failed | Unanswered

  /** A topology link as it arrives. */
  datatype Arriving = Arriving(source: string, target: string, kind: string, port: nat, count: nat, ts: string)

  /** A row of topology_links. */
  datatype LinkRow = LinkRow(kind: string, count: nat, lastSeen: string)

  /** The store calls of one handler: each is the statements it executes. */
  type Calls = seq<seq<Stmt>>

  function Flat(calls: Calls): seq<Stmt> {
    if calls == [] then [] else Flat(calls[..|calls| - 1]) + calls[|calls| - 1]
  }

  predicate Counts(l: Arriving) {
    l.source != "" && l.target != "" && l.count != 0
  }

  function KeyOf(l: Arriving): LinkKey {
    (l.source, l.target, l.port)
  }

  /** The statements insertTopologyLinks runs for its links. */
  function LinkStmts(ls: seq<Arriving>): seq<Stmt> {
    if ls == [] then []
    else
      var l := ls[|ls| - 1];
      LinkStmts(ls[..|ls| - 1]) + (if Counts(l) then [Link(KeyOf(l), l.count)] else [])
  }

  /** The last link of a key that counts: it decides kind and last_seen. */
  function LastOf(ls: seq<Arriving>, k: LinkKey): Option<Arriving> {
    if ls == [] then None
    else
      var l := ls[|ls| - 1];
      if Counts(l) && KeyOf(l) == k then Some(l) else LastOf(ls[..|ls| - 1], k)
  }

  function CountIn(table: map<LinkKey, LinkRow>, k: LinkKey): nat {
    if k in table then table[k].count else 0
  }

  /** insertTopologyLinks: the accumulating upsert, link by link. Empty names and
      zero counts are skipped; every other count is added to its row. */
  method InsertTopologyLinks(table: map<LinkKey, LinkRow>, ls: seq<Arriving>) returns (after: map<LinkKey, LinkRow>)
    ensures forall k: LinkKey :: CountIn(after, k) == CountIn(table, k) + LinkSum(LinkStmts(ls), k)
    ensures forall k: LinkKey :: k in after <==> k in table || LastOf(ls, k).Some?
    ensures forall k: LinkKey :: k in after ==>
              match LastOf(ls, k)
              case None => k in table && after[k] == table[k]
              case Some(l) => after[k].kind == l.kind && after[k].lastSeen == l.ts
  {
    hide LinkStmts, LinkSum, LastOf;
    after := table;
    assert ls[..0] == [];
    NoLinks();
    for i := 0 to |ls|
      invariant forall k: LinkKey :: CountIn(after, k) == CountIn(table, k) + LinkSum(LinkStmts(ls[..i]), k)
      invariant forall k: LinkKey :: k in after <==> k in table || LastOf(ls[..i], k).Some?
      invariant forall k: LinkKey :: k in after ==>
        match LastOf(ls[..i], k)
        case None => k in table && after[k] == table[k]
        case Some(l) => after[k].kind == l.kind && after[k].lastSeen == l.ts
    {
      var l := ls[i];
      assert ls[..i + 1] == ls[..i] + [l];
      OneMoreLink(ls[..i], l);
      if l.source == "" || l.target == "" || l.count == 0 {
        continue;
      }
      var key := KeyOf(l);
      after := after[key := LinkRow(l.kind, if key in after then after[key].count + l.count else l.count, l.ts)];
    }
    assert ls[..|ls|] == ls;
  }

  lemma NothingFlat(calls: Calls)
    ensures Flat(calls[..0]) == []
  {
  }

  lemma OneMoreStmt(stmts: seq<Stmt>, s: Stmt)
    ensures RowsOf(stmts + [s]) == RowsOf(stmts) + (match s case Row(t) => [t] case Link(_, _) => [])
    ensures forall k: LinkKey :: LinkSum(stmts + [s], k) == LinkSum(stmts, k) + (if s.Link? && s.key == k then s.count else 0)
  {
    assert (stmts + [s])[..|stmts|] == stmts;
  }

  lemma NoLinks()
    ensures forall k: LinkKey :: LinkSum(LinkStmts([]), k) == 0 && LastOf([], k).None?
  {
  }

  lemma OneMoreLink(ls: seq<Arriving>, l: Arriving)
    ensures forall k: LinkKey :: LinkSum(LinkStmts(ls + [l]), k) ==
              LinkSum(LinkStmts(ls), k) + (if Counts(l) && k == KeyOf(l) then l.count else 0)
    ensures forall k: LinkKey :: LastOf(ls + [l], k) == if Counts(l) && k == KeyOf(l) then Some(l) else LastOf(ls, k)
  {
    assert (ls + [l])[..|ls|] == ls;
    var stmts := LinkStmts(ls);
    if Counts(l) {
      assert (stmts + [Link(KeyOf(l), l.count)])[..|stmts|] == stmts;
    } else {
      assert stmts + [] == stmts;
    }
  }

  /** What an arriving link adds to a row: its count, if both names are there. */
  function Share(source: string, target: string, port: nat): Arriving -> nat {
    (l: Arriving) => if l.source == source && l.target == target && l.port == port && source != "" && target != ""
                     then l.count else 0
  }

  /** The row of two names and a port grows by the counts of the links that name it, and
      takes kind and time from the last of them with a count. */
  lemma {:induction false} LinksAddUp(ls: seq<Arriving>, source: string, target: string, port: nat)
    ensures LinkSum(LinkStmts(ls), (source, target, port)) == Sorting.Sum(ls, Share(source, target, port))
    ensures match LastOf(ls, (source, target, port))
            case None => forall i :: 0 <= i < |ls| ==> Share(source, target, port)(ls[i]) == 0
            case Some(l) => exists i :: 0 <= i < |ls| && ls[i] == l && Share(source, target, port)(l) > 0
                                        && forall j :: i < j < |ls| ==> Share(source, target, port)(ls[j]) == 0
  {
    hide LinkSum, LinkStmts;
    var k := (source, target, port);
    NoLinks();
    if ls != [] {
      var init, l := ls[..|ls| - 1], ls[|ls| - 1];
      LinksAddUp(init, source, target, port);
      assert ls == init + [l];
      OneMoreLink(init, l);
      Sorting.SumAppend(init, [l], Share(source, target, port));
      assert Sorting.Sum([l], Share(source, target, port)) == Share(source, target, port)(l) + Sorting.Sum([], Share(source, target, port));
      assert Share(source, target, port)(l) > 0 <==> Counts(l) && KeyOf(l) == k;
      if Counts(l) && KeyOf(l) == k {
        assert ls[|init|] == l;
      } else if LastOf(init, k).Some? {
        var i :| 0 <= i < |init| && init[i] == LastOf(init, k).value && forall j :: i < j < |init| ==> Share(source, target, port)(init[j]) == 0;
        assert ls[i] == init[i];
      }
    }
  }

  /** Delivering the same links twice counts them twice: the upsert alone is not
      idempotent, only the claim makes it so. */
  lemma LinksTwiceCountTwice(ls: seq<Arriving>, k: LinkKey)
    ensures LinkSum(LinkStmts(ls) + LinkStmts(ls), k) == 2 * LinkSum(LinkStmts(ls), k)
  {
    StatementsAddUp(LinkStmts(ls), LinkStmts(ls), k);
  }

  class Store {
    var claimed: seq<BatchId>
    var rows: seq<string>
    var links: map<LinkKey, nat>
    var script: seq<Outcome>
    ghost var done: seq<Stmt>
    ghost var once: map<BatchId, seq<Stmt>>

    /** The tables are what the statements that took effect add up to, and each
        claimed id stands for one run of its handler. */
    ghost predicate Valid()
      reads this
    {
      && Sorting.NoDuplicates(claimed)
      && (forall id :: id in claimed <==> id in once)
      && "" !in once
      && rows == RowsOf(done)
      && forall k: LinkKey :: Get(links, k) == LinkSum(done, k)
    }

    constructor (script: seq<Outcome>)
      ensures Valid() && claimed == [] && done == [] && this.script == script
    {
      claimed, rows, links, this.script := [], [], map[], script;
      done, once := [], map[];
    }

    method Call() returns (o: Outcome)
      modifies this`script
      ensures script == if old(script) == [] then [] else old(script)[1..]
      ensures o == if old(script) == [] then Fine else old(script)[0]
    {
      o := Fine;
      if script != [] {
        o := script[0];
        script := script[1..];
      }
    }

    /** The statements of one store call, on the tables as the transaction sees them. */
    method Execute(stmts: seq<Stmt>) returns (ok: bool)
      requires Valid()
      modifies this
      ensures ok ==> Valid() && done == old(done) + stmts
      ensures claimed == old(claimed) && once == old(once)
      ensures old(script) == [] ==> ok && script == []
    {
      hide LinkSum, RowsOf;
      for i := 0 to |stmts|
        invariant Valid() && done == old(done) + stmts[..i]
        invariant claimed == old(claimed) && once == old(once)
        invariant old(script) == [] ==> script == []
      {
        var o := Call();
        if !o.Fine? {
          return false;
        }
        var s := stmts[i];
        assert stmts[..i + 1] == stmts[..i] + [s];
        OneMoreStmt(done, s);
        match s {
          case Row(text) => rows := rows + [text];
          case Link(k, n) => links := links[k := Get(links, k) + n];
        }
        done := done + [s];
      }
      assert stmts[..|stmts|] == stmts;
      ok := true;
    }

    /** One store call outside a batch: a transaction of its own. */
    method ExecuteAlone(stmts: seq<Stmt>) returns (ok: bool)
      requires Valid()
      modifies this
      ensures Valid() && claimed == old(claimed) && once == old(once)
      ensures done == old(done) || done == old(done) + stmts
      ensures ok ==> done == old(done) + stmts
      ensures old(script) == [] ==> ok && script == []
    {
      ghost var was := done;
      var beforeRows, beforeLinks := rows, links;
      ok := Execute(stmts);
      var o := Fine;
      if ok {
        o := Call();
      }
      if !ok || o.Failed? {
        rows, links, done := beforeRows, beforeLinks, was;
        return false;
      }
      ok := o.Fine?;
    }

    /** The handler: its store calls one after the other, each in the transaction
        it is given or, without one, in its own. */
    method RunHandler(calls: Calls, inBatch: bool) returns (ok: bool, ghost ran: nat)
      requires Valid()
      modifies this
      ensures claimed == old(claimed) && once == old(once) && ran <= |calls|
      ensures ok ==> Valid() && ran == |calls| && done == old(done) + Flat(calls)
      ensures !inBatch ==> Valid() && done == old(done) + Flat(calls[..ran])
      ensures old(script) == [] ==> ok && script == []
    {
      ran := 0;
      for i := 0 to |calls|
        invariant Valid() && claimed == old(claimed) && once == old(once)
        invariant ran == i && done == old(done) + Flat(calls[..i])
        invariant old(script) == [] ==> script == []
      {
        assert calls[..i + 1][..i] == calls[..i];
        if inBatch {
          ok := Execute(calls[i]);
        } else {
          ghost var was := done;
          ok := ExecuteAlone(calls[i]);
          if done == was + calls[i] && !ok {
            ran := i + 1;
          }
        }
        if !ok {
          return;
        }
        ran := i + 1;
      }
      assert calls[..|calls|] == calls;
      ok := true;
    }

    /** ApplyBatch. With an id the handler takes effect whole or not at all, and
        never again once the id is claimed; without one it just runs. */
    method ApplyBatch(id: BatchId, calls: Calls) returns (applied: bool, ok: bool, ghost ran: nat)
      requires Valid()
      modifies this
      ensures Valid() && ran <= |calls|
      ensures done == old(done) + Flat(calls[..ran])
      ensures applied ==> ok && ran == |calls|
      ensures id == "" ==> claimed == old(claimed) && once == old(once) && (ok ==> applied)
      ensures id != "" ==>
                || (done == old(done) && claimed == old(claimed) && once == old(once))
                || (id !in old(claimed) && ran == |calls| && claimed == old(claimed) + [id] && once == old(once)[id := Flat(calls)])
      ensures id != "" && ok ==> id in claimed && (applied <==> id !in old(claimed))
      ensures id != "" && id in old(claimed) ==> ran == 0 && done == old(done)
      ensures old(script) == [] ==> ok && script == []
    {
      hide LinkSum, RowsOf, Flat;
      applied, ok, ran := false, false, 0;
      assert Flat(calls[..0]) == [] by { NothingFlat(calls); }
      assert calls[..|calls|] == calls;
      if id == "" {
        ok, ran := RunHandler(calls, false);
        applied := ok;
        return;
      }
      var begun := Call();
      if !begun.Fine? {
        return;
      }
      ghost var was := done;
      var beforeRows, beforeLinks := rows, links;
      var claim := Call();
      if !claim.Fine? {
        return;
      }
      if id in claimed {
        ok := true;
        return;
      }
      var finished, _ := RunHandler(calls, true);
      var commit := Fine;
      if finished {
        commit := Call();
      }
      if !finished || commit.Failed? {
        rows, links, done := beforeRows, beforeLinks, was;
        return;
      }
      claimed, once := claimed + [id], once[id := Flat(calls)];
      ran, ok := |calls|, commit.Fine?;
      applied := ok;
    }

    /** applyIngest with the log handler around it: the status of the answer and
        whether the lines go on to the pattern queue. */
    method HandleBatch(id: BatchId, calls: Calls, queueHasRoom: bool) returns (status: nat, queued: bool)
      requires Valid()
      modifies this
      ensures Valid() && (status == 202 || status == 500)
      ensures id != "" && status == 202 ==> id in claimed
      ensures id != "" && id in old(claimed) ==> done == old(done) && !queued
      ensures queued ==> done == old(done) + Flat(calls) && id !in old(claimed) && status == 202
      ensures id != "" ==> done == old(done) || (done == old(done) + Flat(calls) && id in claimed && id !in old(claimed))
      ensures id == "" && status == 202 ==> done == old(done) + Flat(calls)
      ensures old(script) == [] ==> status == 202 && (queueHasRoom && id !in old(claimed) ==> queued)
    {
      var applied, ok, ran := ApplyBatch(id, calls);
      assert calls[..|calls|] == calls;
      if !ok {
        return 500, false;
      }
      if !applied {
        return 202, false;
      }
      return 202, queueHasRoom;
    }
  }
}
