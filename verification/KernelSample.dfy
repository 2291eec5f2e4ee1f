/** One window of kernel flows becomes topology edges and per-workload metrics. */
module KernelSample {
  import opened Wrappers
  import opened Text
  import opened KernelFlow
  import Sorting

  datatype Workload = Workload(entity: string, service: string, container: string)

  /** The host's view of addresses: who owns one, and how it prints. */
  datatype Host = Host(resolve: Address -> Option<Workload>, unspecified: Address -> bool,
                       loopback: Address -> bool, text: Address -> string)

  datatype Edge = Edge(source: string, target: string, port: nat)

  /** What the loop knows of an edge. */
  datatype Seen = Seen(count: nat, fromLocal: bool)

  datatype Metric = Metric(name: string, entity: string, value: nat, container: string, service: string)

  /** A link of the sample, without the kind its port decides and the time they all share. */
  datatype Link = Link(edge: Edge, count: nat)

  function NodeName(owner: Option<Workload>, ip: Address, host: Host): string {
    if owner.Some? && owner.value.service != "" then owner.value.service
    else if owner.Some? && owner.value.container != "" then owner.value.container
    else if ip == [] || host.unspecified(ip) then ""
    else if host.loopback(ip) then "localhost"
    else host.text(ip)
  }

  // ---- what a single flow says ----

  function ClientOf(f: Flow, host: Host): Option<Workload> {
    host.resolve(f.ClientIP())
  }

  function ServerOf(f: Flow, host: Host): Option<Workload> {
    host.resolve(f.ServerIP())
  }

  predicate ToItself(f: Flow, host: Host) {
    var client, server := ClientOf(f, host), ServerOf(f, host);
    client.Some? && server.Some? && client.value.entity == server.value.entity
  }

  /** The edge a flow belongs to, if it shows one. */
  function EdgeOf(f: Flow, host: Host): Option<Edge> {
    var source := NodeName(ClientOf(f, host), f.ClientIP(), host);
    var target := NodeName(ServerOf(f, host), f.ServerIP(), host);
    if f.count == 0 || f.direction == Retransmit || source == "" || target == "" || source == target then None
    else Some(Edge(source, target, f.ServicePort()))
  }

  /** The workload whose connection or retransmission counter a flow feeds. */
  function CreditedTo(f: Flow, direction: Byte, host: Host): Option<Workload> {
    if f.count == 0 || f.direction != direction then None
    else if direction == Retransmit then host.resolve(f.source)
    else if ToItself(f, host) then None
    else if direction == Out then ClientOf(f, host)
    else if direction == In then ServerOf(f, host)
    else None
  }

  // ---- what a window says ----

  /** Which end saw a connection; `Unknown` is a direction byte the kernel program never writes. */
  datatype Side = Outgoing | Incoming | Unknown

  function SideOf(direction: Byte): Side
    requires direction != Retransmit
  {
    if direction == Out then Outgoing else if direction == In then Incoming else Unknown
  }

  function EdgeShare(e: Edge, host: Host, side: Side): Flow -> nat {
    (f: Flow) => if EdgeOf(f, host) == Some(e) && SideOf(f.direction) == side then f.count else 0
  }

  function OutSum(fs: seq<Flow>, e: Edge, host: Host): nat { Sorting.Sum(fs, EdgeShare(e, host, Outgoing)) }

  function InSum(fs: seq<Flow>, e: Edge, host: Host): nat { Sorting.Sum(fs, EdgeShare(e, host, Incoming)) }

  function UnknownSum(fs: seq<Flow>, e: Edge, host: Host): nat { Sorting.Sum(fs, EdgeShare(e, host, Unknown)) }

  /** The unknown flows that come after the first outbound one. */
  function LateUnknown(fs: seq<Flow>, e: Edge, host: Host): nat {
    if fs == [] then 0
    else
      var init, f := fs[..|fs| - 1], fs[|fs| - 1];
      LateUnknown(init, e, host) + (if OutSum(init, e, host) > 0 then EdgeShare(e, host, Unknown)(f) else 0)
  }

  predicate Observed(fs: seq<Flow>, e: Edge, host: Host) {
    OutSum(fs, e, host) + InSum(fs, e, host) + UnknownSum(fs, e, host) > 0
  }

  /** An edge counts its outbound flows, and its inbound ones only when there are no outbound. */
  function EdgeCount(fs: seq<Flow>, e: Edge, host: Host): nat {
    if OutSum(fs, e, host) > 0 then OutSum(fs, e, host) + LateUnknown(fs, e, host)
    else InSum(fs, e, host) + UnknownSum(fs, e, host)
  }

  function Credit(entity: string, direction: Byte, host: Host): Flow -> nat {
    (f: Flow) => match CreditedTo(f, direction, host)
                 case Some(w) => if w.entity == entity then f.count else 0
                 case None => 0
  }

  function EntitySum(fs: seq<Flow>, entity: string, direction: Byte, host: Host): nat {
    Sorting.Sum(fs, Credit(entity, direction, host))
  }

  /** The workload a flow names as the owner of a counter, whichever counter. */
  function OwnerIn(f: Flow, host: Host): Option<Workload> {
    if f.direction == Out || f.direction == In || f.direction == Retransmit then CreditedTo(f, f.direction, host) else None
  }

  /** The owner that the last flow of an entity names. */
  function OwnerOf(fs: seq<Flow>, entity: string, host: Host): Option<Workload> {
    if fs == [] then None
    else
      var w := OwnerIn(fs[|fs| - 1], host);
      if w.Some? && w.value.entity == entity then w else OwnerOf(fs[..|fs| - 1], entity, host)
  }

  // ---- the loop ----

  ghost predicate EdgesMatch(edges: map<Edge, Seen>, fs: seq<Flow>, host: Host) {
    && (forall e :: e in edges <==> Observed(fs, e, host))
    && (forall e :: e in edges ==> edges[e].count == EdgeCount(fs, e, host))
    && (forall e :: e in edges ==> (edges[e].fromLocal <==> OutSum(fs, e, host) > 0))
  }

  ghost predicate CountsMatch(counts: map<string, nat>, fs: seq<Flow>, direction: Byte, host: Host) {
    && (forall u :: u in counts <==> EntitySum(fs, u, direction, host) > 0)
    && (forall u :: u in counts ==> counts[u] == EntitySum(fs, u, direction, host))
  }

  ghost predicate OwnersMatch(owners: map<string, Workload>, fs: seq<Flow>, host: Host) {
    && (forall u :: u in owners <==> OwnerOf(fs, u, host).Some?)
    && (forall u :: u in owners ==> OwnerOf(fs, u, host) == Some(owners[u]))
  }

  lemma SumSnoc(fs: seq<Flow>, f: Flow, share: Flow -> nat)
    ensures Sorting.Sum(fs + [f], share) == Sorting.Sum(fs, share) + share(f)
  {
    Sorting.SumAppend(fs, [f], share);
    assert Sorting.Sum([f], share) == share(f) + Sorting.Sum([], share);
  }

  lemma EdgeSnoc(fs: seq<Flow>, f: Flow, e: Edge, host: Host)
    ensures OutSum(fs + [f], e, host) == OutSum(fs, e, host) + EdgeShare(e, host, Outgoing)(f)
    ensures InSum(fs + [f], e, host) == InSum(fs, e, host) + EdgeShare(e, host, Incoming)(f)
    ensures UnknownSum(fs + [f], e, host) == UnknownSum(fs, e, host) + EdgeShare(e, host, Unknown)(f)
    ensures LateUnknown(fs + [f], e, host) ==
            LateUnknown(fs, e, host) + (if OutSum(fs, e, host) > 0 then EdgeShare(e, host, Unknown)(f) else 0)
  {
    SumSnoc(fs, f, EdgeShare(e, host, Outgoing));
    SumSnoc(fs, f, EdgeShare(e, host, Incoming));
    SumSnoc(fs, f, EdgeShare(e, host, Unknown));
    assert (fs + [f])[..|fs|] == fs;
  }

  lemma OwnerSnoc(fs: seq<Flow>, f: Flow, host: Host)
    ensures forall u :: OwnerOf(fs + [f], u, host) ==
              var w := OwnerIn(f, host); if w.Some? && w.value.entity == u then w else OwnerOf(fs, u, host)
  {
    assert (fs + [f])[..|fs|] == fs;
  }

  /** How one more flow changes what the window says of its edge, and of no other. */
  lemma OneMoreFlow(fs: seq<Flow>, f: Flow, host: Host)
    requires f.count > 0
    ensures forall e :: EdgeOf(f, host) != Some(e) ==>
              && (Observed(fs + [f], e, host) <==> Observed(fs, e, host))
              && EdgeCount(fs + [f], e, host) == EdgeCount(fs, e, host)
              && OutSum(fs + [f], e, host) == OutSum(fs, e, host)
    ensures forall e :: EdgeOf(f, host) == Some(e) ==>
              && Observed(fs + [f], e, host)
              && (OutSum(fs + [f], e, host) > 0 <==> OutSum(fs, e, host) > 0 || f.direction == Out)
              && EdgeCount(fs + [f], e, host) ==
                 if OutSum(fs, e, host) > 0 && f.direction == In then EdgeCount(fs, e, host)
                 else if OutSum(fs, e, host) == 0 && f.direction == Out then f.count
                 else EdgeCount(fs, e, host) + f.count
    ensures forall e :: !Observed(fs, e, host) ==> EdgeCount(fs, e, host) == 0 && OutSum(fs, e, host) == 0
  {
    hide EdgeOf, OutSum, InSum, UnknownSum, LateUnknown;
    forall e
      ensures EdgeCount(fs + [f], e, host) == OneMoreCount(fs, f, e, host)
      ensures Observed(fs + [f], e, host) <==> Observed(fs, e, host) || EdgeOf(f, host) == Some(e)
      ensures OutSum(fs + [f], e, host) == OutSum(fs, e, host) + EdgeShare(e, host, Outgoing)(f)
    {
      EdgeSnoc(fs, f, e, host);
      LateOnlyAfterOut(fs, e, host);
    }
  }

  function OneMoreCount(fs: seq<Flow>, f: Flow, e: Edge, host: Host): nat {
    if EdgeOf(f, host) != Some(e) || (OutSum(fs, e, host) > 0 && f.direction == In) then EdgeCount(fs, e, host)
    else if OutSum(fs, e, host) == 0 && f.direction == Out then f.count
    else EdgeCount(fs, e, host) + f.count
  }

  /** Nothing is late before there is something outbound. */
  lemma {:induction false} LateOnlyAfterOut(fs: seq<Flow>, e: Edge, host: Host)
    ensures OutSum(fs, e, host) == 0 ==> LateUnknown(fs, e, host) == 0
  {
    hide EdgeOf, OutSum, InSum, UnknownSum, LateUnknown;
    NothingYet(e, host);
    if fs != [] {
      var init, f := fs[..|fs| - 1], fs[|fs| - 1];
      LateOnlyAfterOut(init, e, host);
      EdgeSnoc(init, f, e, host);
      assert fs == init + [f];
    }
  }

  /** The counters of one direction after one more flow. */
  method AddCredit(counts: map<string, nat>, owner: Option<Workload>, ghost fs: seq<Flow>, f: Flow, direction: Byte, host: Host)
    returns (after: map<string, nat>)
    requires CountsMatch(counts, fs, direction, host) && owner == CreditedTo(f, direction, host)
    ensures CountsMatch(after, fs + [f], direction, host)
  {
    hide CreditedTo;
    after := counts;
    if owner.Some? {
      var u := owner.value.entity;
      after := counts[u := (if u in counts then counts[u] else 0) + f.count];
    }
    forall u ensures EntitySum(fs + [f], u, direction, host) ==
                     EntitySum(fs, u, direction, host) + Credit(u, direction, host)(f)
    {
      SumSnoc(fs, f, Credit(u, direction, host));
    }
    CreditsCount(f, direction, host);
  }

  lemma CreditsCount(f: Flow, direction: Byte, host: Host)
    ensures CreditedTo(f, direction, host).Some? ==> f.count > 0
  {
  }

  /** The edges after one more flow. */
  method AddToEdge(edges: map<Edge, Seen>, ghost fs: seq<Flow>, f: Flow, host: Host) returns (after: map<Edge, Seen>)
    requires EdgesMatch(edges, fs, host) && f.count != 0 && f.direction != Retransmit
    ensures EdgesMatch(after, fs + [f], host)
  {
    var source := NodeName(ClientOf(f, host), f.ClientIP(), host);
    var target := NodeName(ServerOf(f, host), f.ServerIP(), host);
    ghost var shown := EdgeOf(f, host);
    assert shown == if source == "" || target == "" || source == target then None
                    else Some(Edge(source, target, f.ServicePort()));
    hide NodeName, OutSum, Observed, EdgeCount, ClientOf, ServerOf, EdgeOf, EdgesMatch;
    if source == "" || target == "" || source == target {
      NoEdge(edges, fs, f, host);
      return edges;
    }
    var key := Edge(source, target, f.ServicePort());
    AtEdge(edges, fs, f, key, host);
    if key !in edges {
      after := edges[key := Seen(f.count, f.direction == Out)];
      return;
    }
    var agg := edges[key];
    if agg.fromLocal && f.direction == In {
      assert edges[key := agg] == edges;
      return edges;
    }
    if !agg.fromLocal && f.direction == Out {
      after := edges[key := Seen(f.count, true)];
      return;
    }
    after := edges[key := agg.(count := agg.count + f.count)];
  }

  lemma NoEdge(edges: map<Edge, Seen>, fs: seq<Flow>, f: Flow, host: Host)
    requires EdgesMatch(edges, fs, host) && f.count > 0 && EdgeOf(f, host) == None
    ensures EdgesMatch(edges, fs + [f], host)
  {
    hide OutSum, Observed, EdgeCount, EdgeOf;
    OneMoreFlow(fs, f, host);
  }

  function Updated(edges: map<Edge, Seen>, key: Edge, f: Flow): Seen {
    if key !in edges then Seen(f.count, f.direction == Out)
    else if edges[key].fromLocal && f.direction == In then edges[key]
    else if !edges[key].fromLocal && f.direction == Out then Seen(f.count, true)
    else Seen(edges[key].count + f.count, edges[key].fromLocal)
  }

  lemma AtEdge(edges: map<Edge, Seen>, fs: seq<Flow>, f: Flow, key: Edge, host: Host)
    requires EdgesMatch(edges, fs, host) && f.count > 0 && EdgeOf(f, host) == Some(key)
    ensures EdgesMatch(edges[key := Updated(edges, key, f)], fs + [f], host)
  {
    hide OutSum, Observed, EdgeCount, EdgeOf;
    OneMoreFlow(fs, f, host);
    var after := edges[key := Updated(edges, key, f)];
    assert forall e :: e != key ==> (e in after <==> e in edges) && (e in edges ==> after[e] == edges[e]);
  }

  // ---- the sample ----

  /** A counter map as metrics, one per entity, in entity order. */
  ghost predicate MetricsShow(ms: seq<Metric>, counts: map<string, nat>, owners: map<string, Workload>, name: string) {
    && (forall i, j :: 0 <= i < j < |ms| ==> Less(ms[i].entity, ms[j].entity))
    && (forall i :: 0 <= i < |ms| ==> ms[i].entity in counts)
    && (forall u :: u in counts ==> exists i :: 0 <= i < |ms| && ms[i].entity == u)
    && (forall i :: 0 <= i < |ms| && ms[i].entity in counts && ms[i].entity in owners ==>
          ms[i] == MetricOf(name, ms[i].entity, counts[ms[i].entity], owners[ms[i].entity]))
  }

  function MetricOf(name: string, u: string, n: nat, w: Workload): Metric {
    Metric(name, u, n, w.container, w.service)
  }

  predicate ByEntity(a: Metric, b: Metric) {
    AtMost(a.entity, b.entity)
  }

  lemma ByEntityIsPreorder()
    ensures Sorting.TotalPreorder(ByEntity)
  {
    forall x: Metric, y: Metric, z: Metric
      ensures ByEntity(x, y) || ByEntity(y, x)
      ensures ByEntity(x, y) && ByEntity(y, z) ==> ByEntity(x, z)
    {
      OrderFacts(x.entity, y.entity, z.entity);
    }
  }

  /** metricsFor. */
  method MetricsFor(owners: map<string, Workload>, counts: map<string, nat>, name: string) returns (ms: seq<Metric>)
    requires counts.Keys <= owners.Keys
    ensures MetricsShow(ms, counts, owners, name)
  {
    hide Less;
    var out: seq<Metric> := [];
    var rest := counts.Keys;
    while rest != {}
      invariant rest <= counts.Keys
      invariant forall i, j :: 0 <= i < j < |out| ==> out[i].entity != out[j].entity
      invariant forall i :: 0 <= i < |out| ==> out[i].entity in counts && out[i].entity !in rest
      invariant forall i :: 0 <= i < |out| ==>
        out[i] == MetricOf(name, out[i].entity, counts[out[i].entity], owners[out[i].entity])
      invariant forall u :: u in counts && u !in rest ==> exists i :: 0 <= i < |out| && out[i].entity == u
      decreases rest
    {
      var u :| u in rest;
      ghost var before := out;
      out := out + [MetricOf(name, u, counts[u], owners[u])];
      rest := rest - {u};
      assert out[|before|].entity == u;
      forall v | v in counts && v !in rest ensures exists i :: 0 <= i < |out| && out[i].entity == v {
        if v != u {
          var i :| 0 <= i < |before| && before[i].entity == v;
          assert out[i].entity == v;
        }
      }
    }
    ms := Sorting.Sort(out, ByEntity);
    SortedMetrics(out, ms);
    SortedShow(out, ms, counts, owners, name);
  }

  lemma SortedShow(out: seq<Metric>, ms: seq<Metric>, counts: map<string, nat>, owners: map<string, Workload>, name: string)
    requires counts.Keys <= owners.Keys && forall m :: m in ms <==> m in out
    requires forall i, j :: 0 <= i < j < |ms| ==> Less(ms[i].entity, ms[j].entity)
    requires forall i :: 0 <= i < |out| ==> out[i].entity in counts
    requires forall i :: 0 <= i < |out| && out[i].entity in counts ==>
      out[i] == MetricOf(name, out[i].entity, counts[out[i].entity], owners[out[i].entity])
    requires forall u :: u in counts ==> exists i :: 0 <= i < |out| && out[i].entity == u
    ensures MetricsShow(ms, counts, owners, name)
  {
    hide Less, MetricOf;
    forall u | u in counts ensures exists i :: 0 <= i < |ms| && ms[i].entity == u {
      var i :| 0 <= i < |out| && out[i].entity == u;
      assert out[i] in ms;
    }
    forall i | 0 <= i < |ms|
      ensures ms[i].entity in counts && ms[i] == MetricOf(name, ms[i].entity, counts[ms[i].entity], owners[ms[i].entity])
    {
      assert ms[i] in out;
    }
  }

  lemma SortedMetrics(out: seq<Metric>, ms: seq<Metric>)
    requires ms == Sorting.Sort(out, ByEntity)
    requires forall i, j :: 0 <= i < j < |out| ==> out[i].entity != out[j].entity
    ensures forall m :: m in ms <==> m in out
    ensures forall i, j :: 0 <= i < j < |ms| ==> Less(ms[i].entity, ms[j].entity)
  {
    ByEntityIsPreorder();
    Sorting.SortCorrect(out, ByEntity);
    Sorting.SortMembers(out, ByEntity);
    StrictlySorted(out, ms);
  }

  lemma StrictlySorted(out: seq<Metric>, ms: seq<Metric>)
    requires Sorting.Sorted(ms, ByEntity) && Sorting.NoDuplicates(ms) && forall m :: m in ms ==> m in out
    requires forall i, j :: 0 <= i < j < |out| ==> out[i].entity != out[j].entity
    ensures forall i, j :: 0 <= i < j < |ms| ==> Less(ms[i].entity, ms[j].entity)
  {
    hide Less;
    forall i, j | 0 <= i < j < |ms| ensures Less(ms[i].entity, ms[j].entity) {
      DistinctEntities(out, ms[i], ms[j]);
      OrderFacts(ms[i].entity, ms[j].entity, "");
    }
  }

  lemma DistinctEntities(out: seq<Metric>, a: Metric, b: Metric)
    requires forall i, j :: 0 <= i < j < |out| ==> out[i].entity != out[j].entity
    requires a in out && b in out && a != b
    ensures a.entity != b.entity
  {
  }

  /** Biggest count first, then by the names run together. */
  predicate LinkBefore(a: Link, b: Link) {
    if a.count != b.count then a.count > b.count
    else AtMost(a.edge.source + a.edge.target, b.edge.source + b.edge.target)
  }

  lemma LinkBeforeIsPreorder()
    ensures Sorting.TotalPreorder(LinkBefore)
  {
    forall x: Link, y: Link, z: Link
      ensures LinkBefore(x, y) || LinkBefore(y, x)
      ensures LinkBefore(x, y) && LinkBefore(y, z) ==> LinkBefore(x, z)
    {
      OrderFacts(x.edge.source + x.edge.target, y.edge.source + y.edge.target, z.edge.source + z.edge.target);
    }
  }

  /** The links of a window: every observed edge once with its count. */
  ghost predicate LinksShow(links: seq<Link>, fs: seq<Flow>, host: Host) {
    && Sorting.Sorted(links, LinkBefore)
    && Sorting.NoDuplicates(links)
    && forall l :: l in links <==> Observed(fs, l.edge, host) && l.count == EdgeCount(fs, l.edge, host)
  }

  method LinksOf(edges: map<Edge, Seen>) returns (links: seq<Link>)
    ensures Sorting.Sorted(links, LinkBefore) && Sorting.NoDuplicates(links)
    ensures forall l :: l in links <==> l.edge in edges && l.count == edges[l.edge].count
  {
    hide LinkBefore;
    var out: seq<Link> := [];
    var rest := edges.Keys;
    while rest != {}
      invariant rest <= edges.Keys && Sorting.NoDuplicates(out)
      invariant forall l :: l in out <==> l.edge in edges && l.edge !in rest && l.count == edges[l.edge].count
      decreases rest
    {
      var e :| e in rest;
      assert Link(e, edges[e].count) !in out;
      out := out + [Link(e, edges[e].count)];
      rest := rest - {e};
    }
    links := Sorting.Sort(out, LinkBefore);
    LinkBeforeIsPreorder();
    Sorting.SortCorrect(out, LinkBefore);
    Sorting.NoDuplicatesPermuted(out, links);
    forall l ensures l in links <==> l in out {
      assert l in links <==> l in multiset(links);
      assert l in out <==> l in multiset(out);
    }
  }

  /** The metrics of one direction in a window. */
  ghost predicate Shows(ms: seq<Metric>, fs: seq<Flow>, direction: Byte, name: string, host: Host) {
    && (forall i, j :: 0 <= i < j < |ms| ==> Less(ms[i].entity, ms[j].entity))
    && (forall u :: EntitySum(fs, u, direction, host) > 0 <==> exists i :: 0 <= i < |ms| && ms[i].entity == u)
    && forall i :: 0 <= i < |ms| ==>
         && ms[i].name == name && ms[i].value == EntitySum(fs, ms[i].entity, direction, host)
         && var w := OwnerOf(fs, ms[i].entity, host); w.Some? && ms[i].container == w.value.container && ms[i].service == w.value.service
  }

  /** BuildSample. */
  method BuildSample(flows: seq<Flow>, host: Host)
    returns (links: seq<Link>, out: seq<Metric>, inn: seq<Metric>, retransmits: seq<Metric>)
    ensures LinksShow(links, flows, host)
    ensures Shows(out, flows, Out, "net.connections.out", host)
    ensures Shows(inn, flows, In, "net.connections.in", host)
    ensures Shows(retransmits, flows, Retransmit, "net.retransmits", host)
  {
    hide EdgesMatch, CountsMatch, OwnersMatch, CreditedTo, OwnerIn, EdgeOf, Less;
    var edges: map<Edge, Seen> := map[];
    var outbound: map<string, nat>, inbound: map<string, nat>, resent: map<string, nat> := map[], map[], map[];
    var owners: map<string, Workload> := map[];
    NothingSeen(host);
    assert flows[..0] == [];
    for i := 0 to |flows|
      invariant EdgesMatch(edges, flows[..i], host)
      invariant CountsMatch(outbound, flows[..i], Out, host)
      invariant CountsMatch(inbound, flows[..i], In, host)
      invariant CountsMatch(resent, flows[..i], Retransmit, host)
      invariant OwnersMatch(owners, flows[..i], host)
    {
      var f := flows[i];
      ghost var fs := flows[..i];
      assert flows[..i + 1] == fs + [f];
      OwnerStep(owners, fs, f, host);
      Credits(f, host);
      if f.count == 0 || f.direction == Retransmit {
        IdleEdges(edges, fs, f, host);
      }
      if f.count == 0 {
        NoCredit(outbound, fs, f, Out, host);
        NoCredit(inbound, fs, f, In, host);
        NoCredit(resent, fs, f, Retransmit, host);
        continue;
      }
      var src, dst := host.resolve(f.source), host.resolve(f.dest);
      if f.direction == Retransmit {
        resent := AddCredit(resent, src, fs, f, Retransmit, host);
        NoCredit(outbound, fs, f, Out, host);
        NoCredit(inbound, fs, f, In, host);
        if src.Some? {
          owners := owners[src.value.entity := src.value];
        }
        continue;
      }
      var client, server := src, dst;
      if f.direction == In {
        client, server := dst, src;
      }
      var self := client.Some? && server.Some? && client.value.entity == server.value.entity;
      NoCredit(resent, fs, f, Retransmit, host);
      if f.direction == Out && !self {
        outbound := AddCredit(outbound, client, fs, f, Out, host);
        if client.Some? {
          owners := owners[client.value.entity := client.value];
        }
      } else {
        NoCredit(outbound, fs, f, Out, host);
      }
      if f.direction == In && !self {
        inbound := AddCredit(inbound, server, fs, f, In, host);
        if server.Some? {
          owners := owners[server.value.entity := server.value];
        }
      } else {
        NoCredit(inbound, fs, f, In, host);
      }
      edges := AddToEdge(edges, fs, f, host);
    }
    assert flows[..|flows|] == flows;
    links := LinksOf(edges);
    out := Section(owners, outbound, flows, Out, "net.connections.out", host);
    inn := Section(owners, inbound, flows, In, "net.connections.in", host);
    retransmits := Section(owners, resent, flows, Retransmit, "net.retransmits", host);
    LinksAreEdges(links, edges, flows, host);
  }

  lemma LinksAreEdges(links: seq<Link>, edges: map<Edge, Seen>, fs: seq<Flow>, host: Host)
    requires EdgesMatch(edges, fs, host) && Sorting.Sorted(links, LinkBefore) && Sorting.NoDuplicates(links)
    requires forall l :: l in links <==> l.edge in edges && l.count == edges[l.edge].count
    ensures LinksShow(links, fs, host)
  {
    hide Observed, EdgeCount, LinkBefore;
  }

  method Section(owners: map<string, Workload>, counts: map<string, nat>, ghost fs: seq<Flow>, direction: Byte, name: string, host: Host)
    returns (ms: seq<Metric>)
    requires CountsMatch(counts, fs, direction, host) && OwnersMatch(owners, fs, host)
    requires direction == Out || direction == In || direction == Retransmit
    ensures Shows(ms, fs, direction, name, host)
  {
    hide Less, EntitySum, OwnerOf;
    forall u | u in counts ensures u in owners {
      CreditedHasOwner(fs, u, direction, host);
    }
    ms := MetricsFor(owners, counts, name);
    forall i | 0 <= i < |ms| ensures ms[i] == MetricOf(name, ms[i].entity, counts[ms[i].entity], owners[ms[i].entity]) {
      assert ms[i].entity in counts && ms[i].entity in owners;
    }
  }

  lemma {:induction false} CreditedHasOwner(fs: seq<Flow>, u: string, direction: Byte, host: Host)
    requires direction == Out || direction == In || direction == Retransmit
    requires EntitySum(fs, u, direction, host) > 0
    ensures OwnerOf(fs, u, host).Some?
  {
    hide CreditedTo;
    var init, f := fs[..|fs| - 1], fs[|fs| - 1];
    assert fs == init + [f];
    SumSnoc(init, f, Credit(u, direction, host));
    if EntitySum(init, u, direction, host) > 0 {
      CreditedHasOwner(init, u, direction, host);
    } else {
      CreditNeedsDirection(f, direction, host);
    }
  }

  lemma CreditNeedsDirection(f: Flow, direction: Byte, host: Host)
    ensures CreditedTo(f, direction, host).Some? ==> f.direction == direction
  {
  }

  lemma NothingSeen(host: Host)
    ensures EdgesMatch(map[], [], host) && OwnersMatch(map[], [], host)
    ensures forall direction :: CountsMatch(map[], [], direction, host)
  {
  }

  lemma IdleEdges(edges: map<Edge, Seen>, fs: seq<Flow>, f: Flow, host: Host)
    requires EdgesMatch(edges, fs, host) && (f.count == 0 || f.direction == Retransmit)
    ensures EdgesMatch(edges, fs + [f], host)
  {
    hide OutSum, InSum, UnknownSum, LateUnknown;
    forall e ensures EdgeCount(fs + [f], e, host) == EdgeCount(fs, e, host)
      ensures Observed(fs + [f], e, host) <==> Observed(fs, e, host)
      ensures OutSum(fs + [f], e, host) == OutSum(fs, e, host)
    {
      EdgeSnoc(fs, f, e, host);
    }
  }

  lemma NoCredit(counts: map<string, nat>, fs: seq<Flow>, f: Flow, direction: Byte, host: Host)
    requires CountsMatch(counts, fs, direction, host) && CreditedTo(f, direction, host).None?
    ensures CountsMatch(counts, fs + [f], direction, host)
  {
    forall u ensures EntitySum(fs + [f], u, direction, host) == EntitySum(fs, u, direction, host) {
      SumSnoc(fs, f, Credit(u, direction, host));
    }
  }

  lemma OwnerStep(owners: map<string, Workload>, fs: seq<Flow>, f: Flow, host: Host)
    requires OwnersMatch(owners, fs, host)
    ensures OwnerIn(f, host).None? ==> OwnersMatch(owners, fs + [f], host)
    ensures var w := OwnerIn(f, host);
            w.Some? ==> OwnersMatch(owners[w.value.entity := w.value], fs + [f], host)
  {
    OwnerSnoc(fs, f, host);
  }

  lemma Credits(f: Flow, host: Host)
    ensures f.count == 0 ==>
              CreditedTo(f, Retransmit, host) == CreditedTo(f, Out, host) == CreditedTo(f, In, host) == OwnerIn(f, host) == None
    ensures f.direction != Retransmit ==> CreditedTo(f, Retransmit, host) == None
    ensures f.direction != Out || ToItself(f, host) ==> CreditedTo(f, Out, host) == None
    ensures f.direction != In || ToItself(f, host) ==> CreditedTo(f, In, host) == None
    ensures f.count > 0 ==>
              OwnerIn(f, host) ==
                if f.direction == Retransmit then CreditedTo(f, Retransmit, host)
                else if f.direction == Out then CreditedTo(f, Out, host)
                else if f.direction == In then CreditedTo(f, In, host) else None
    ensures f.count > 0 && f.direction == Retransmit ==> CreditedTo(f, Retransmit, host) == host.resolve(f.source)
    ensures f.count > 0 && !ToItself(f, host) && f.direction == Out ==> CreditedTo(f, Out, host) == ClientOf(f, host)
    ensures f.count > 0 && !ToItself(f, host) && f.direction == In ==> CreditedTo(f, In, host) == ServerOf(f, host)
  {
  }

  // ---- order ----

  /** The same observations in another order. */
  ghost predicate Reordered(a: seq<Flow>, b: seq<Flow>) {
    multiset(a) == multiset(b)
  }

  /** An edge with both outbound flows and flows of unknown direction. */
  predicate Mixed(fs: seq<Flow>, e: Edge, host: Host) {
    OutSum(fs, e, host) > 0 && UnknownSum(fs, e, host) > 0
  }

  lemma SumsForgetOrder(a: seq<Flow>, b: seq<Flow>, e: Edge, host: Host)
    requires Reordered(a, b)
    ensures OutSum(a, e, host) == OutSum(b, e, host) && InSum(a, e, host) == InSum(b, e, host)
    ensures UnknownSum(a, e, host) == UnknownSum(b, e, host)
  {
    Sorting.SumPermuted(a, b, EdgeShare(e, host, Outgoing));
    Sorting.SumPermuted(a, b, EdgeShare(e, host, Incoming));
    Sorting.SumPermuted(a, b, EdgeShare(e, host, Unknown));
  }

  lemma {:induction false} LateAtMostUnknown(fs: seq<Flow>, e: Edge, host: Host)
    ensures LateUnknown(fs, e, host) <= UnknownSum(fs, e, host)
  {
    hide EdgeOf, EdgeShare, OutSum, InSum, UnknownSum, LateUnknown;
    NothingYet(e, host);
    if fs != [] {
      var init, f := fs[..|fs| - 1], fs[|fs| - 1];
      LateAtMostUnknown(init, e, host);
      assert fs == init + [f];
      EdgeSnoc(init, f, e, host);
    }
  }

  ghost predicate OrderFree(fs: seq<Flow>, host: Host) {
    forall other :: Reordered(fs, other) ==> SameEdges(fs, other, host)
  }

  ghost predicate SameEdges(a: seq<Flow>, b: seq<Flow>, host: Host) {
    forall e :: (Observed(a, e, host) <==> Observed(b, e, host)) && EdgeCount(a, e, host) == EdgeCount(b, e, host)
  }

  lemma NothingYet(e: Edge, host: Host)
    ensures OutSum([], e, host) == LateUnknown([], e, host) == 0
  {
  }

  lemma {:induction false} LateStartsAfter(u: Flow, fs: seq<Flow>, e: Edge, host: Host)
    requires EdgeShare(e, host, Outgoing)(u) == 0
    ensures LateUnknown([u] + fs, e, host) == LateUnknown(fs, e, host)
    ensures OutSum([u] + fs, e, host) == OutSum(fs, e, host)
  {
    hide EdgeOf, EdgeShare, OutSum, InSum, UnknownSum, LateUnknown;
    if fs == [] {
      assert [u] + fs == [] + [u];
      NothingYet(e, host);
      EdgeSnoc([], u, e, host);
    } else {
      var init, f := fs[..|fs| - 1], fs[|fs| - 1];
      LateStartsAfter(u, init, e, host);
      assert [u] + fs == ([u] + init) + [f] && fs == init + [f];
      EdgeSnoc([u] + init, f, e, host);
      EdgeSnoc(init, f, e, host);
    }
  }

  lemma {:induction false} SomeShare(fs: seq<Flow>, share: Flow -> nat) returns (i: nat)
    requires Sorting.Sum(fs, share) > 0
    ensures i < |fs| && share(fs[i]) > 0
  {
    i := 0;
    if share(fs[0]) == 0 {
      i := SomeShare(fs[1..], share);
      i := i + 1;
    }
  }

  /** A mixed edge counts an unknown flow when it comes last and not when it comes first. */
  lemma MixedDependsOnOrder(fs: seq<Flow>, e: Edge, host: Host) returns (first: seq<Flow>, last: seq<Flow>)
    requires Mixed(fs, e, host)
    ensures Reordered(fs, first) && Reordered(fs, last)
    ensures EdgeCount(first, e, host) < EdgeCount(last, e, host)
  {
    var i := SomeShare(fs, EdgeShare(e, host, Unknown));
    var u := fs[i];
    OneSide(u, e, host);
    var rest := Sorting.Without(fs, i, EdgeShare(e, host, Outgoing));
    assert OutSum(rest, e, host) == OutSum(fs, e, host);
    hide EdgeOf, EdgeShare, OutSum, InSum, UnknownSum, LateUnknown, EdgeCount, Sorting.Sum;
    first, last := [u] + rest, rest + [u];
    BothOrders(fs, i, rest);
    FirstOrLast(u, rest, e, host);
  }

  lemma BothOrders(fs: seq<Flow>, i: nat, rest: seq<Flow>)
    requires i < |fs| && multiset(rest) == multiset(fs) - multiset{fs[i]}
    ensures Reordered(fs, [fs[i]] + rest) && Reordered(fs, rest + [fs[i]])
  {
    assert fs[i] in fs;
  }

  lemma FirstOrLast(u: Flow, rest: seq<Flow>, e: Edge, host: Host)
    requires EdgeShare(e, host, Unknown)(u) > 0 && EdgeShare(e, host, Outgoing)(u) == 0 && OutSum(rest, e, host) > 0
    ensures EdgeCount([u] + rest, e, host) < EdgeCount(rest + [u], e, host)
  {
    hide EdgeOf, EdgeShare, OutSum, InSum, UnknownSum, LateUnknown;
    LateStartsAfter(u, rest, e, host);
    EdgeSnoc(rest, u, e, host);
  }

  lemma OneSide(f: Flow, e: Edge, host: Host)
    ensures EdgeShare(e, host, Unknown)(f) > 0 ==> EdgeShare(e, host, Outgoing)(f) == 0
  {
  }

  lemma MixedIsNotFree(fs: seq<Flow>, e: Edge, host: Host)
    requires Mixed(fs, e, host)
    ensures !OrderFree(fs, host)
  {
    hide EdgeCount, Observed;
    var first, last := MixedDependsOnOrder(fs, e, host);
    assert !(SameEdges(fs, first, host) && SameEdges(fs, last, host));
  }

  lemma UnmixedForgetsOrder(a: seq<Flow>, b: seq<Flow>, host: Host)
    requires Reordered(a, b) && forall e :: !Mixed(a, e, host)
    ensures SameEdges(a, b, host)
  {
    hide OutSum, InSum, UnknownSum, LateUnknown;
    forall e ensures Observed(a, e, host) <==> Observed(b, e, host)
      ensures EdgeCount(a, e, host) == EdgeCount(b, e, host)
    {
      assert !Mixed(a, e, host);
      SumsForgetOrder(a, b, e, host);
      LateAtMostUnknown(a, e, host);
      LateAtMostUnknown(b, e, host);
    }
  }

  /** The edges of a window do not depend on the order of its flows if and only if
      no edge mixes outbound flows with flows of unknown direction. */
  lemma OrderFreeExactly(fs: seq<Flow>, host: Host)
    ensures OrderFree(fs, host) <==> forall e :: !Mixed(fs, e, host)
  {
    if e :| Mixed(fs, e, host) {
      MixedIsNotFree(fs, e, host);
    }
    if forall e :: !Mixed(fs, e, host) {
      forall other | Reordered(fs, other) ensures SameEdges(fs, other, host) {
        UnmixedForgetsOrder(fs, other, host);
      }
    }
  }

  /** With the directions the kernel writes, the client side counts an edge and the
      server side only stands in for it. */
  lemma {:induction false} KernelDirections(fs: seq<Flow>, e: Edge, host: Host)
    requires forall f :: f in fs ==> f.direction <= Retransmit
    ensures EdgeCount(fs, e, host) == if OutSum(fs, e, host) > 0 then OutSum(fs, e, host) else InSum(fs, e, host)
    ensures !Mixed(fs, e, host)
  {
    NoUnknown(fs, e, host);
    LateAtMostUnknown(fs, e, host);
  }

  lemma {:induction false} NoUnknown(fs: seq<Flow>, e: Edge, host: Host)
    requires forall f :: f in fs ==> f.direction <= Retransmit
    ensures UnknownSum(fs, e, host) == 0
  {
    if fs != [] {
      NoUnknown(fs[1..], e, host);
      assert fs[0] in fs;
    }
  }

  /** Two samples of the same unmixed window hold the same links. */
  lemma LinksForgetOrder(a: seq<Flow>, b: seq<Flow>, la: seq<Link>, lb: seq<Link>, host: Host)
    requires Reordered(a, b) && forall e :: !Mixed(a, e, host)
    requires LinksShow(la, a, host) && LinksShow(lb, b, host)
    ensures multiset(la) == multiset(lb)
  {
    hide Observed, EdgeCount, LinkBefore;
    UnmixedForgetsOrder(a, b, host);
    Sorting.NoDuplicatesCount(la);
    Sorting.NoDuplicatesCount(lb);
    forall l ensures multiset(la)[l] == multiset(lb)[l] {
      assert l in la <==> l in lb;
      assert l in la <==> l in multiset(la);
      assert l in lb <==> l in multiset(lb);
    }
  }

  predicate SameEntity(a: Option<Workload>, b: Option<Workload>) {
    a.Some? && b.Some? && a.value.entity == b.value.entity
  }

  /** All flows of a window that feed an entity's counters name the same workload. */
  ghost predicate OwnersAgree(fs: seq<Flow>, host: Host) {
    forall f, g :: f in fs && g in fs && SameEntity(OwnerIn(f, host), OwnerIn(g, host)) ==> OwnerIn(f, host) == OwnerIn(g, host)
  }

  lemma {:induction false} OwnerIsNamed(fs: seq<Flow>, u: string, host: Host) returns (f: Flow)
    requires OwnerOf(fs, u, host).Some?
    ensures f in fs && OwnerIn(f, host) == OwnerOf(fs, u, host) && OwnerIn(f, host).value.entity == u
  {
    hide OwnerIn;
    f := fs[|fs| - 1];
    if OwnerIn(f, host).None? || OwnerIn(f, host).value.entity != u {
      f := OwnerIsNamed(fs[..|fs| - 1], u, host);
    }
  }

  lemma {:induction false} NamedHasOwner(fs: seq<Flow>, f: Flow, host: Host)
    requires f in fs && OwnerIn(f, host).Some?
    ensures OwnerOf(fs, OwnerIn(f, host).value.entity, host).Some?
  {
    hide OwnerIn;
    if f != fs[|fs| - 1] {
      var init := fs[..|fs| - 1];
      assert fs == init + [fs[|fs| - 1]];
      NamedHasOwner(init, f, host);
    }
  }

  lemma AgreeingOwners(a: seq<Flow>, b: seq<Flow>, u: string, host: Host)
    requires Reordered(a, b) && OwnersAgree(a, host)
    ensures OwnerOf(a, u, host) == OwnerOf(b, u, host)
  {
    hide OwnerIn, OwnerOf;
    forall f ensures f in a <==> f in b {
      assert f in a <==> f in multiset(a);
      assert f in b <==> f in multiset(b);
    }
    if OwnerOf(a, u, host).Some? {
      var f := OwnerIsNamed(a, u, host);
      NamedHasOwner(b, f, host);
      var g := OwnerIsNamed(b, u, host);
    } else if OwnerOf(b, u, host).Some? {
      var g := OwnerIsNamed(b, u, host);
      NamedHasOwner(a, g, host);
    }
  }

  ghost predicate SameOwners(a: seq<Flow>, b: seq<Flow>, host: Host) {
    forall u :: OwnerOf(a, u, host) == OwnerOf(b, u, host)
  }

  lemma LastFlowNames(fs: seq<Flow>, f: Flow, host: Host) returns (last: seq<Flow>)
    requires f in fs && OwnerIn(f, host).Some?
    ensures Reordered(fs, last) && OwnerOf(last, OwnerIn(f, host).value.entity, host) == OwnerIn(f, host)
  {
    var i :| 0 <= i < |fs| && fs[i] == f;
    var rest := Sorting.Without(fs, i, (g: Flow) => 0);
    hide OwnerIn;
    last := rest + [f];
    BothOrders(fs, i, rest);
    OwnerSnoc(rest, f, host);
  }

  /** The labels do not depend on the order of the flows if and only if all flows of
      an entity name the same workload. */
  lemma LabelsForgetOrderExactly(fs: seq<Flow>, host: Host)
    ensures (forall other :: Reordered(fs, other) ==> SameOwners(fs, other, host)) <==> OwnersAgree(fs, host)
  {
    hide OwnerIn, OwnerOf;
    if OwnersAgree(fs, host) {
      forall other | Reordered(fs, other) ensures SameOwners(fs, other, host) {
        forall u { AgreeingOwners(fs, other, u, host); }
      }
    }
    if f, g :| f in fs && g in fs && SameEntity(OwnerIn(f, host), OwnerIn(g, host)) && OwnerIn(f, host) != OwnerIn(g, host) {
      var a := LastFlowNames(fs, f, host);
      var b := LastFlowNames(fs, g, host);
      var u := OwnerIn(f, host).value.entity;
      assert !(OwnerOf(fs, u, host) == OwnerOf(a, u, host) && OwnerOf(fs, u, host) == OwnerOf(b, u, host));
      assert !(SameOwners(fs, a, host) && SameOwners(fs, b, host));
    }
  }

  /** A resolver that knows an entity as one workload makes all flows agree. */
  lemma OneOwnerAgrees(fs: seq<Flow>, host: Host)
    requires forall x, y :: SameEntity(host.resolve(x), host.resolve(y)) ==> host.resolve(x) == host.resolve(y)
    ensures OwnersAgree(fs, host)
  {
    forall f ensures OwnerIn(f, host).Some? ==> OwnerIn(f, host) == host.resolve(f.source) || OwnerIn(f, host) == host.resolve(f.dest) {
    }
  }

  function EntitiesOf(ms: seq<Metric>): seq<string> {
    seq(|ms|, i requires 0 <= i < |ms| => ms[i].entity)
  }

  /** The metrics of a window name the same entities with the same values whatever
      the order of its flows; their labels too, when all flows of an entity name one workload. */
  lemma MetricsForgetOrder(a: seq<Flow>, b: seq<Flow>, ma: seq<Metric>, mb: seq<Metric>, d: Byte, name: string, host: Host)
    requires Reordered(a, b)
    requires Shows(ma, a, d, name, host) && Shows(mb, b, d, name, host)
    ensures |ma| == |mb|
    ensures forall i :: 0 <= i < |ma| && i < |mb| ==>
              ma[i].name == mb[i].name && ma[i].entity == mb[i].entity && ma[i].value == mb[i].value
    ensures OwnersAgree(a, host) ==> ma == mb
  {
    hide Less;
    var ea, eb := EntitiesOf(ma), EntitiesOf(mb);
    forall u ensures EntitySum(a, u, d, host) == EntitySum(b, u, d, host) {
      Sorting.SumPermuted(a, b, Credit(u, d, host));
    }
    hide EntitySum, OwnerOf;
    forall u ensures u in ea <==> u in eb {
      SameEntities(ma, u);
      SameEntities(mb, u);
    }
    SameMembersSameOrder(ea, eb);
    forall i | 0 <= i < |ma|
      ensures ma[i].name == mb[i].name && ma[i].entity == mb[i].entity && ma[i].value == mb[i].value
      ensures OwnersAgree(a, host) ==> ma[i] == mb[i]
    {
      var u := ma[i].entity;
      assert ea[i] == eb[i];
      if OwnersAgree(a, host) {
        AgreeingOwners(a, b, u, host);
      }
    }
  }

  lemma SameEntities(ms: seq<Metric>, u: string)
    ensures u in EntitiesOf(ms) <==> exists i :: 0 <= i < |ms| && ms[i].entity == u
  {
    if i :| 0 <= i < |ms| && ms[i].entity == u {
      assert EntitiesOf(ms)[i] == u;
    }
  }

  // ---- windows of one connection ----

  /** The name of an address on this host. */
  function NameAt(ip: Address, host: Host): string {
    NodeName(host.resolve(ip), ip, host)
  }

  /** A service goes by its name, other containers by theirs, other addresses by
      what they are; only an address that is none has no name. */
  lemma NameIs(ip: Address, host: Host)
    ensures var w := host.resolve(ip);
            && (w.Some? && w.value.service != "" ==> NameAt(ip, host) == w.value.service)
            && (w.Some? && w.value.service == "" && w.value.container != "" ==> NameAt(ip, host) == w.value.container)
            && (w.None? || (w.value.service == "" && w.value.container == "") ==>
                  && (ip == [] || host.unspecified(ip) ==> NameAt(ip, host) == "")
                  && (ip != [] && !host.unspecified(ip) && host.loopback(ip) ==> NameAt(ip, host) == "localhost")
                  && (ip != [] && !host.unspecified(ip) && !host.loopback(ip) ==> NameAt(ip, host) == host.text(ip)))
  {
  }

  /** Whether the two ends of a flow are told apart by name. */
  predicate Linkable(f: Flow, host: Host) {
    f.count > 0 && NameAt(f.source, host) != "" && NameAt(f.dest, host) != "" && NameAt(f.source, host) != NameAt(f.dest, host)
  }

  /** A window of one flow. An outbound flow links its source to its destination, on the
      destination's port (a direction the kernel never writes counts as outbound here); an inbound one links its destination to its source, the
      listener, on the source's port. */
  lemma OneFlowLink(f: Flow, host: Host, links: seq<Link>)
    requires LinksShow(links, [f], host)
    ensures Linkable(f, host) && f.direction != In && f.direction != Retransmit ==>
              links == [Link(Edge(NameAt(f.source, host), NameAt(f.dest, host), f.destPort), f.count)]
    ensures Linkable(f, host) && f.direction == In ==>
              links == [Link(Edge(NameAt(f.dest, host), NameAt(f.source, host), f.sourcePort), f.count)]
    ensures !Linkable(f, host) || f.direction == Retransmit ==> links == []
  {
    FlowEdge(f, host);
    hide EdgeOf, Linkable, NameAt;
    OneFlowCounts(f, host);
    OnlyLink(links, [f], EdgeOf(f, host), host);
  }

  /** The edge of a flow by its direction. */
  lemma FlowEdge(f: Flow, host: Host)
    ensures Linkable(f, host) && f.direction != In && f.direction != Retransmit ==>
              EdgeOf(f, host) == Some(Edge(NameAt(f.source, host), NameAt(f.dest, host), f.destPort))
    ensures Linkable(f, host) && f.direction == In ==>
              EdgeOf(f, host) == Some(Edge(NameAt(f.dest, host), NameAt(f.source, host), f.sourcePort))
    ensures !Linkable(f, host) || f.direction == Retransmit ==> EdgeOf(f, host) == None
    ensures EdgeOf(f, host).Some? ==> f.count > 0
  {
    hide NodeName;
  }

  lemma OneFlowCounts(f: Flow, host: Host)
    ensures forall e :: Observed([f], e, host) <==> f.count > 0 && EdgeOf(f, host) == Some(e)
    ensures forall e :: f.count > 0 && EdgeOf(f, host) == Some(e) ==> EdgeCount([f], e, host) == f.count
  {
    hide EdgeOf;
    NothingSeen(host);
    if f.count > 0 {
      hide Observed, EdgeCount, OutSum;
      assert [] + [f] == [f];
      OneMoreFlow([], f, host);
      assert forall e :: !Observed([], e, host);
    } else {
      forall e ensures !Observed([f], e, host) {
        NothingYet(e, host);
        EdgeSnoc([], f, e, host);
        assert [] + [f] == [f];
      }
    }
  }

  /** A window that observes at most one edge has at most that link. */
  lemma OnlyLink(links: seq<Link>, fs: seq<Flow>, edge: Option<Edge>, host: Host)
    requires LinksShow(links, fs, host)
    requires forall e :: Observed(fs, e, host) <==> edge == Some(e)
    ensures links == match edge case Some(e) => [Link(e, EdgeCount(fs, e, host))] case None => []
  {
    hide Observed, EdgeCount, LinkBefore;
    match edge
    case None =>
      FirstMembers(links);
    case Some(e) =>
      var l := Link(e, EdgeCount(fs, e, host));
      assert l in links;
      FirstMembers(links);
  }

  lemma FirstMembers<T>(s: seq<T>)
    requires Sorting.NoDuplicates(s)
    ensures s != [] ==> s[0] in s
    ensures |s| > 1 ==> s[1] in s && s[0] != s[1]
  {
  }

  /** One connection as its client and its server see it. */
  predicate OneConnection(client: Flow, server: Flow) {
    && client.direction == Out && server.direction == In
    && server.source == client.dest && server.dest == client.source
    && server.sourcePort == client.destPort && server.destPort == client.sourcePort
  }

  /** Both ends of one connection show the same edge, and in a window of the two, in
      either order, it is one link with the client's count. */
  lemma OneConnectionOneLink(client: Flow, server: Flow, host: Host, window: seq<Flow>, links: seq<Link>)
    requires OneConnection(client, server) && Linkable(client, host) && Linkable(server, host)
    requires (window == [client, server] || window == [server, client]) && LinksShow(links, window, host)
    ensures EdgeOf(client, host) == EdgeOf(server, host)
    ensures links == [Link(Edge(NameAt(client.source, host), NameAt(client.dest, host), client.destPort), client.count)]
  {
    FlowEdge(client, host);
    FlowEdge(server, host);
    var edge := EdgeOf(client, host);
    assert client.count > 0 && server.count > 0;
    hide EdgeOf, Linkable, NameAt;
    OneFlowCounts(client, host);
    OneFlowCounts(server, host);
    OneFlowOut(client, host);
    OneFlowOut(server, host);
    hide Observed, EdgeCount, OutSum;
    if window == [client, server] {
      assert window == [client] + [server];
      OneMoreFlow([client], server, host);
    } else {
      assert window == [server] + [client];
      OneMoreFlow([server], client, host);
    }
    OnlyLink(links, window, edge, host);
  }

  lemma OneFlowOut(f: Flow, host: Host)
    requires f.count > 0
    ensures forall e :: EdgeOf(f, host) == Some(e) ==> (OutSum([f], e, host) > 0 <==> f.direction == Out)
  {
    hide EdgeOf;
    forall e | EdgeOf(f, host) == Some(e) ensures OutSum([f], e, host) > 0 <==> f.direction == Out {
      NothingYet(e, host);
      EdgeSnoc([], f, e, host);
      assert [] + [f] == [f];
    }
  }

  /** Whose counter a flow feeds: its source's, whichever end saw it, unless a workload talks to itself. */
  lemma CreditGoesToSource(f: Flow, direction: Byte, host: Host)
    requires direction == Out || direction == In || direction == Retransmit
    ensures CreditedTo(f, direction, host) ==
            if f.count > 0 && f.direction == direction
               && (direction == Retransmit || !SameEntity(host.resolve(f.source), host.resolve(f.dest)))
            then host.resolve(f.source) else None
  {
  }

  /** The metrics of a window of one flow. */
  lemma OneFlowMetrics(f: Flow, direction: Byte, name: string, host: Host, ms: seq<Metric>)
    requires direction == Out || direction == In || direction == Retransmit
    requires Shows(ms, [f], direction, name, host)
    ensures var w := host.resolve(f.source);
            ms == if f.count > 0 && f.direction == direction && w.Some?
                     && (direction == Retransmit || !SameEntity(w, host.resolve(f.dest)))
                  then [Metric(name, w.value.entity, f.count, w.value.container, w.value.service)] else []
  {
    CreditGoesToSource(f, direction, host);
    var credited := CreditedTo(f, direction, host);
    OneFlowSums(f, direction, host);
    hide CreditedTo, EntitySum, OwnerOf, Shows;
    ShownEntities(ms, [f], direction, name, host);
    if credited.Some? {
      assert EntitySum([f], credited.value.entity, direction, host) > 0;
    }
  }

  /** A counter is shown for exactly the entities that have one, each once. */
  lemma ShownEntities(ms: seq<Metric>, fs: seq<Flow>, direction: Byte, name: string, host: Host)
    requires Shows(ms, fs, direction, name, host)
    ensures forall i :: 0 <= i < |ms| ==>
              && EntitySum(fs, ms[i].entity, direction, host) > 0 && OwnerOf(fs, ms[i].entity, host).Some?
              && ms[i] == MetricOf(name, ms[i].entity, EntitySum(fs, ms[i].entity, direction, host),
                                   OwnerOf(fs, ms[i].entity, host).value)
    ensures ms != [] ==> EntitySum(fs, ms[0].entity, direction, host) > 0
    ensures |ms| > 1 ==> ms[0].entity != ms[1].entity && EntitySum(fs, ms[1].entity, direction, host) > 0
    ensures forall u :: EntitySum(fs, u, direction, host) > 0 ==> exists i :: 0 <= i < |ms| && ms[i].entity == u
  {
    hide EntitySum, OwnerOf, Less;
    if |ms| > 1 {
      OrderFacts(ms[0].entity, ms[1].entity, "");
    }
  }

  lemma OneFlowSums(f: Flow, direction: Byte, host: Host)
    requires direction == Out || direction == In || direction == Retransmit
    ensures var w := CreditedTo(f, direction, host);
            && (forall u :: EntitySum([f], u, direction, host) == if w.Some? && w.value.entity == u then f.count else 0)
            && (w.Some? ==> f.count > 0 && OwnerOf([f], w.value.entity, host) == w)
  {
    CreditNeedsDirection(f, direction, host);
    CreditsCount(f, direction, host);
    hide CreditedTo;
    forall u ensures EntitySum([f], u, direction, host) == Credit(u, direction, host)(f) {
      SumSnoc([], f, Credit(u, direction, host));
      assert [] + [f] == [f];
    }
  }

  /** Links come with the biggest count first, and by their two names run together among equals. */
  lemma BiggestFirst(links: seq<Link>, fs: seq<Flow>, host: Host, i: nat, j: nat)
    requires LinksShow(links, fs, host) && i < j < |links|
    ensures links[i].count >= links[j].count
    ensures links[i].count == links[j].count ==>
              AtMost(links[i].edge.source + links[i].edge.target, links[j].edge.source + links[j].edge.target)
  {
    hide Observed, EdgeCount;
    assert LinkBefore(links[i], links[j]);
  }
}
