/**
 * The explainable risk-propagation model: a node's intrinsic risk, the
 * probability that risk crosses a link, and a breadth-first relaxation
 * from seed nodes with per-hop decay, a depth bound and a 0.01 cutoff.
 */
module Propagation {
  import opened Domain

  // ---------------------------------------------------------------------------
  // Intrinsic node risk
  // ---------------------------------------------------------------------------

  /** The unclamped mix of CVSS share and unpatched share, scaled by status. */
  function RawRisk(a: Asset): real {
    (0.55 * (a.vuln.GetOr(0.0) / 10.0) + 0.45 * (1.0 - a.patch.GetOr(0.0))) * StatusMul(a.status)
  }

  /** `nodeBaseRisk(asset)`. */
  function NodeBaseRisk(a: Asset): (r: real)
    ensures 0.0 <= r <= 1.0
    ensures 0.0 <= RawRisk(a) <= 1.0 ==> r == RawRisk(a)
  {
    Clamp01(RawRisk(a))
  }

  /** A missing vulnerability score or patch level counts as 0. */
  lemma MissingCountsAsZero(a: Asset)
    ensures NodeBaseRisk(a.(vuln := None)) == NodeBaseRisk(a.(vuln := Some(0.0)))
    ensures NodeBaseRisk(a.(patch := None)) == NodeBaseRisk(a.(patch := Some(0.0)))
  {
  }

  /**
   * With a non-negative mix, a worse status never lowers the risk:
   * healthy, then degraded, then outage.
   */
  lemma StatusOrdersRisk(a: Asset)
    requires 0.55 * (a.vuln.GetOr(0.0) / 10.0) + 0.45 * (1.0 - a.patch.GetOr(0.0)) >= 0.0
    ensures NodeBaseRisk(a.(status := Healthy)) <= NodeBaseRisk(a.(status := Degraded))
    ensures NodeBaseRisk(a.(status := Degraded)) <= NodeBaseRisk(a.(status := Outage))
  {
    var mix := 0.55 * (a.vuln.GetOr(0.0) / 10.0) + 0.45 * (1.0 - a.patch.GetOr(0.0));
    assert RawRisk(a.(status := Healthy)) == mix * 1.0;
    assert RawRisk(a.(status := Degraded)) == mix * 1.1;
    assert RawRisk(a.(status := Outage)) == mix * 1.25;
    ClampMonotone(mix * 1.0, mix * 1.1);
    ClampMonotone(mix * 1.1, mix * 1.25);
  }

  /** A higher vulnerability score never lowers the risk. */
  lemma VulnRaisesRisk(a: Asset, v1: real, v2: real)
    requires v1 <= v2
    ensures NodeBaseRisk(a.(vuln := Some(v1))) <= NodeBaseRisk(a.(vuln := Some(v2)))
  {
    var m := StatusMul(a.status);
    var rest := 0.45 * (1.0 - a.patch.GetOr(0.0));
    assert RawRisk(a.(vuln := Some(v1))) == (0.055 * v1 + rest) * m;
    assert RawRisk(a.(vuln := Some(v2))) == (0.055 * v2 + rest) * m;
    MulMonotone(0.055 * v1 + rest, 0.055 * v2 + rest, m);
    ClampMonotone(RawRisk(a.(vuln := Some(v1))), RawRisk(a.(vuln := Some(v2))));
  }

  // ---------------------------------------------------------------------------
  // Edge pass probability
  // ---------------------------------------------------------------------------

  /** Unreliable links (loss above 0.5) are damped by 0.9. */
  function LossMul(e: Link): real {
    if e.loss > 0.5 then 0.9 else 1.0
  }

  /** `0.75 + 0.25 * (1 - patch)`: well-patched targets resist more. */
  function Hardening(to: Asset): (h: real)
    ensures 0.0 <= to.patch.GetOr(0.0) <= 1.0 ==> 0.75 <= h <= 1.0
    ensures to.patch.GetOr(0.0) == 1.0 ==> h == 0.75
    ensures to.patch.GetOr(0.0) == 0.0 ==> h == 1.0
  {
    0.75 + 0.25 * (1.0 - to.patch.GetOr(0.0))
  }

  /** A hop from a DMZ zone into a Clinical or Admin zone, or from an External zone into a DMZ zone. */
  predicate CrossesInward(zFrom: string, zTo: string) {
    || (Contains(zFrom, "DMZ") && (Contains(zTo, "Clinical") || Contains(zTo, "Admin")))
    || (Contains(zFrom, "External") && Contains(zTo, "DMZ"))
  }

  /**
   * The cross-zone multiplier: the penalty applies from a DMZ zone into a
   * Clinical or Admin zone, or from an External zone into a DMZ zone.
   */
  function ZoneMul(zFrom: string, zTo: string, penalty: real): (m: real)
    ensures m == penalty || m == 1.0
    ensures !Contains(zFrom, "DMZ") && !Contains(zFrom, "External") ==> m == 1.0
    ensures CrossesInward(zFrom, zTo) ==> m == penalty
    ensures !CrossesInward(zFrom, zTo) ==> m == 1.0
  {
    if Contains(zFrom, "DMZ") && (Contains(zTo, "Clinical") || Contains(zTo, "Admin")) then penalty
    else if Contains(zFrom, "External") && Contains(zTo, "DMZ") then penalty
    else 1.0
  }

  /** The penalty applies into the inner zones ... */
  lemma ZonePenaltyInward(penalty: real)
    ensures ZoneMul(ZoneDMZ, ZoneClinical, penalty) == penalty
    ensures ZoneMul(ZoneDMZ, ZoneAdmin, penalty) == penalty
    ensures ZoneMul(ZoneExternal, ZoneDMZ, penalty) == penalty
  {
    assert SubAt(ZoneDMZ, "DMZ", 0);
    assert SubAt(ZoneClinical, "Clinical", 0);
    assert SubAt(ZoneAdmin, "Admin", 0);
    assert SubAt(ZoneExternal, "External", 0);
  }

  /** ... and not on the way back out: the multiplier depends on direction. */
  lemma ZonePenaltyNotOutward(penalty: real)
    ensures ZoneMul(ZoneClinical, ZoneDMZ, penalty) == 1.0
    ensures ZoneMul(ZoneDMZ, ZoneExternal, penalty) == 1.0
  {
    ClinicalToDmzFree(penalty);
    DmzToExternalFree(penalty);
  }

  lemma ClinicalToDmzFree(penalty: real)
    ensures ZoneMul(ZoneClinical, ZoneDMZ, penalty) == 1.0
  {
    assert 'D' !in ZoneClinical && 'E' !in ZoneClinical;
    NotContained(ZoneClinical, "DMZ");
    NotContained(ZoneClinical, "External");
  }

  lemma DmzToExternalFree(penalty: real)
    ensures ZoneMul(ZoneDMZ, ZoneExternal, penalty) == 1.0
  {
    assert 'C' !in ZoneExternal && 'A' !in ZoneExternal && 'E' !in ZoneDMZ;
    NotContained(ZoneExternal, "Clinical");
    NotContained(ZoneExternal, "Admin");
    NotContained(ZoneDMZ, "External");
  }

  /** `zone || ""`. */
  function ZoneText(z: Option<string>): string {
    z.GetOr("")
  }

  /** `edgePassProb(edge, fromAsset, toAsset, opts)`. */
  function EdgePassProb(e: Link, from: Asset, to: Asset, baseEdgeProb: real, crossZonePenalty: real): (p: real)
    ensures 0.0 <= p <= 1.0
  {
    var zoneMul := ZoneMul(ZoneText(from.zone), ZoneText(to.zone), crossZonePenalty);
    Clamp01(baseEdgeProb * LossMul(e) * zoneMul * Hardening(to))
  }

  /** Packet loss up to 0.5 leaves the probability untouched. */
  lemma LowLossIgnored(e: Link, from: Asset, to: Asset, base: real, penalty: real, l: real)
    requires e.loss <= 0.5 && l <= 0.5
    ensures EdgePassProb(e.(loss := l), from, to, base, penalty) == EdgePassProb(e, from, to, base, penalty)
  {
  }

  /**
   * With factors in their intended ranges no clamping happens, and a lossy
   * link passes 0.9 times what the same link passes without loss.
   */
  lemma LossDamps(e: Link, from: Asset, to: Asset, base: real, penalty: real)
    requires e.loss > 0.5
    requires 0.0 <= base <= 1.0 && 0.0 <= penalty <= 1.0 && 0.0 <= to.patch.GetOr(0.0) <= 1.0
    ensures EdgePassProb(e, from, to, base, penalty) == 0.9 * EdgePassProb(e.(loss := 0.0), from, to, base, penalty)
  {
    var z := ZoneMul(ZoneText(from.zone), ZoneText(to.zone), penalty);
    var h := Hardening(to);
    UnitProduct(base, z, h);
    assert 0.0 <= base * 1.0 * z * h <= 1.0;
    assert 0.0 <= base * 0.9 * z * h <= 1.0;
  }

  lemma UnitProduct(a: real, b: real, c: real)
    requires 0.0 <= a <= 1.0 && 0.0 <= b <= 1.0 && 0.0 <= c <= 1.0
    ensures 0.0 <= a * b * c <= 1.0
  {
    UnitMul(a, b);
    UnitMul(a * b, c);
  }

  lemma UnitMul(a: real, b: real)
    requires 0.0 <= a <= 1.0 && 0.0 <= b <= 1.0
    ensures 0.0 <= a * b <= a
  {
    MulMonotone(b, 1.0, a);
    MulMonotone(0.0, b, a);
    assert b * a == a * b;
  }

  // ---------------------------------------------------------------------------
  // The propagation graph
  // ---------------------------------------------------------------------------

  /** One adjacency entry: the link and the id at its other end. */
  datatype Hop = Hop(edge: Link, neighbor: Id)

  /** Ids that some asset carries. */
  function AssetIds(assets: seq<Asset>): set<Id> {
    set a | a in assets :: a.id
  }

  /**
   * `byId.get(id)` where `byId = new Map(assets.map(a => [a.id, a]))`:
   * the last asset carrying the id.
   */
  function AssetById(assets: seq<Asset>, id: Id): (r: Option<Asset>)
    ensures r.Some? <==> id in AssetIds(assets)
    ensures r.Some? ==> r.value in assets && r.value.id == id
    ensures forall j :: (0 <= j < |assets| && assets[j].id == id && (forall k :: j < k < |assets| ==> assets[k].id != id)
      ==> r == Some(assets[j]))
  {
    AssetAmong(assets, id, |assets|)
  }

  /** The lookup restricted to the first n assets. */
  function AssetAmong(assets: seq<Asset>, id: Id, n: nat): (r: Option<Asset>)
    requires n <= |assets|
    ensures r.Some? <==> exists j :: 0 <= j < n && assets[j].id == id
    ensures r.Some? ==> r.value in assets && r.value.id == id
    ensures forall j :: (0 <= j < n && assets[j].id == id && (forall k :: j < k < n ==> assets[k].id != id)
      ==> r == Some(assets[j]))
  {
    if n == 0 then None
    else if assets[n - 1].id == id then Some(assets[n - 1])
    else AssetAmong(assets, id, n - 1)
  }

  /** The link e, listed at a, leads to b. */
  predicate Leads(e: Link, a: Id, b: Id) {
    (e.source == a && e.target == b) || (e.target == a && e.source == b)
  }

  /** Both ends of the link are assets. */
  ghost predicate Known(assets: seq<Asset>, e: Link) {
    e.source in AssetIds(assets) && e.target in AssetIds(assets)
  }

  /** `buildAdj(assets, links)` after the first n links. */
  function HopsUpTo(assets: seq<Asset>, links: seq<Link>, n: nat): (g: map<Id, seq<Hop>>)
    requires n <= |links|
    ensures g.Keys == AssetIds(assets)
    ensures forall a :: a in g ==> |g[a]| <= 2 * n
  {
    if n == 0 then
      map x | x in AssetIds(assets) :: []
    else
      var g := HopsUpTo(assets, links, n - 1);
      var e := links[n - 1];
      if e.source !in g || e.target !in g then g
      else
        var g1 := g[e.source := g[e.source] + [Hop(e, e.target)]];
        g1[e.target := g1[e.target] + [Hop(e, e.source)]]
  }

  /** The hops the n-th link adds to the list of x. */
  function Added(g: map<Id, seq<Hop>>, e: Link, x: Id): seq<Hop> {
    if e.source in g && e.target in g then
      (if x == e.source then [Hop(e, e.target)] else []) + (if x == e.target then [Hop(e, e.source)] else [])
    else []
  }

  /** The adjacency after the n-th link, from the adjacency before it. */
  lemma HopsUpToStep(assets: seq<Asset>, links: seq<Link>, n: nat, x: Id)
    requires 0 < n <= |links|
    requires x in HopsUpTo(assets, links, n - 1)
    ensures var g := HopsUpTo(assets, links, n - 1);
      x in HopsUpTo(assets, links, n) && HopsUpTo(assets, links, n)[x] == g[x] + Added(g, links[n - 1], x)
  {
  }

  /** The hop h is in a's list after the first n links. */
  ghost predicate ListedAt(assets: seq<Asset>, links: seq<Link>, n: nat, a: Id, h: Hop)
    requires n <= |links|
  {
    a in HopsUpTo(assets, links, n) && h in HopsUpTo(assets, links, n)[a]
  }

  /** Every hop comes from a link with both ends known, listed at one of its ends. */
  lemma {:induction false} HopsUpToSound(assets: seq<Asset>, links: seq<Link>, n: nat, a: Id, h: Hop)
    requires n <= |links|
    requires ListedAt(assets, links, n, a, h)
    ensures h.edge in links && Known(assets, h.edge) && Leads(h.edge, a, h.neighbor)
    decreases n, 1
  {
    if n > 0 {
      var g := HopsUpTo(assets, links, n - 1);
      var e := links[n - 1];
      assert a in g;
      HopsUpToStep(assets, links, n, a);
      assert h in g[a] || h in Added(g, e, a);
      if h in g[a] {
        SoundPrev(assets, links, n, a, h);
      } else {
        assert e in links;
      }
    }
  }

  lemma SoundPrev(assets: seq<Asset>, links: seq<Link>, n: nat, a: Id, h: Hop)
    requires 0 < n <= |links|
    requires ListedAt(assets, links, n - 1, a, h)
    ensures h.edge in links && Known(assets, h.edge) && Leads(h.edge, a, h.neighbor)
    decreases n, 0
  {
    HopsUpToSound(assets, links, n - 1, a, h);
  }

  /** Every link with both ends known is listed at both of its ends. */
  lemma {:induction false} HopsUpToComplete(assets: seq<Asset>, links: seq<Link>, n: nat, i: nat)
    requires i < n <= |links| && Known(assets, links[i])
    ensures var g := HopsUpTo(assets, links, n);
      Hop(links[i], links[i].target) in g[links[i].source] && Hop(links[i], links[i].source) in g[links[i].target]
    decreases n, 1
  {
    var g := HopsUpTo(assets, links, n - 1);
    var e := links[i];
    assert e.source in g && e.target in g;
    HopsUpToStep(assets, links, n, e.source);
    HopsUpToStep(assets, links, n, e.target);
    if i < n - 1 {
      CompletePrev(assets, links, n, i);
    } else {
      assert Hop(e, e.target) in Added(g, e, e.source);
      assert Hop(e, e.source) in Added(g, e, e.target);
    }
  }

  lemma CompletePrev(assets: seq<Asset>, links: seq<Link>, n: nat, i: nat)
    requires i < n - 1 && n <= |links| && Known(assets, links[i])
    ensures var g := HopsUpTo(assets, links, n - 1);
      Hop(links[i], links[i].target) in g[links[i].source] && Hop(links[i], links[i].source) in g[links[i].target]
    decreases n, 0
  {
    HopsUpToComplete(assets, links, n - 1, i);
  }

  function Hops(assets: seq<Asset>, links: seq<Link>): (g: map<Id, seq<Hop>>)
    ensures g.Keys == AssetIds(assets)
    ensures forall a :: a in g ==> |g[a]| <= 2 * |links|
  {
    HopsUpTo(assets, links, |links|)
  }

  /**
   * The adjacency lists exactly the links whose two ends are assets, each at
   * both of its ends with the other end as neighbour.
   */
  lemma HopsMeaning(assets: seq<Asset>, links: seq<Link>, a: Id, h: Hop)
    requires a in Hops(assets, links)
    ensures h in Hops(assets, links)[a] ==> h.edge in links && Known(assets, h.edge) && Leads(h.edge, a, h.neighbor)
    ensures h.edge in links && Known(assets, h.edge) && h.edge.source == a && h.neighbor == h.edge.target ==>
      h in Hops(assets, links)[a]
    ensures h.edge in links && Known(assets, h.edge) && h.edge.target == a && h.neighbor == h.edge.source ==>
      h in Hops(assets, links)[a]
  {
    if h in Hops(assets, links)[a] {
      HopsUpToSound(assets, links, |links|, a, h);
    }
    if h.edge in links && Known(assets, h.edge) {
      var i :| 0 <= i < |links| && links[i] == h.edge;
      HopsUpToComplete(assets, links, |links|, i);
    }
  }

  /** Links with an endpoint that is not an asset never appear in the adjacency. */
  lemma UnknownEndpointIgnored(assets: seq<Asset>, links: seq<Link>, e: Link, a: Id, h: Hop)
    requires !Known(assets, e)
    requires a in Hops(assets, links) && h in Hops(assets, links)[a]
    ensures h.edge != e
  {
    HopsMeaning(assets, links, a, h);
  }

  // ---------------------------------------------------------------------------
  // Breadth-first propagation
  // ---------------------------------------------------------------------------

  /** A queue entry: an id, the risk it carries, and its hop depth. */
  datatype Entry = Entry(id: Id, r: real, depth: nat)

  /** The tuning knobs of `computePropagation`. */
  datatype Params = Params(steps: int, baseEdgeProb: real, decayPerHop: real, crossZonePenalty: real)

  /** The defaults of `computePropagation`. */
  const DefaultParams := Params(3, 0.45, 0.8, 0.7)

  /** The seeds that name an asset. */
  ghost function KnownSeeds(seeds: seq<Id>, assets: seq<Asset>): set<Id> {
    set s | s in seeds && s in AssetIds(assets)
  }

  /** Some hop of the adjacency list of a leads to b. */
  ghost predicate Adjacent(g: map<Id, seq<Hop>>, a: Id, b: Id) {
    a in g && exists j :: 0 <= j < |g[a]| && g[a][j].neighbor == b
  }

  /** id is within k hops of some id of s. */
  ghost predicate Near(g: map<Id, seq<Hop>>, s: set<Id>, id: Id, k: nat)
    decreases k
  {
    id in s || (k > 0 && exists a :: Adjacent(g, a, id) && Near(g, s, a, k - 1))
  }

  lemma {:induction false} NearMonotone(g: map<Id, seq<Hop>>, s: set<Id>, id: Id, k: nat, k2: nat)
    requires Near(g, s, id, k) && k <= k2
    ensures Near(g, s, id, k2)
    decreases k
  {
    if id !in s {
      var a :| Adjacent(g, a, id) && Near(g, s, a, k - 1);
      NearMonotone(g, s, a, k - 1, k2 - 1);
    }
  }

  /**
   * The seeding loop over the first n seeds: every known seed gets
   * `max(risk.get(seedId) || 0, nodeBaseRisk(a))` and a depth-0 entry.
   */
  function SeedUpTo(seeds: seq<Id>, assets: seq<Asset>, n: nat): (res: (map<Id, real>, seq<Entry>))
    requires n <= |seeds|
    ensures forall s :: s in res.0 <==> s in AssetIds(assets) && s in seeds[..n]
    ensures forall s :: s in res.0 ==> res.0[s] == NodeBaseRisk(AssetById(assets, s).value)
    ensures forall k :: 0 <= k < |res.1| ==> res.1[k].depth == 0 && res.1[k].id in res.0 && res.1[k].r == res.0[res.1[k].id]
    ensures |res.1| <= n
    decreases n
  {
    if n == 0 then (map[], [])
    else
      var prev := SeedUpTo(seeds, assets, n - 1);
      var risk := prev.0;
      var q := prev.1;
      var id := seeds[n - 1];
      assert seeds[..n] == seeds[..n - 1] + [id];
      var a := AssetById(assets, id);
      if a.None? then (risk, q)
      else
        var r0 := NodeBaseRisk(a.value);
        var old0 := if id in risk then risk[id] else 0.0;
        assert Max(old0, r0) == r0;
        SeedPush(risk, q, id, r0);
        (risk[id := Max(old0, r0)], q + [Entry(id, r0, 0)])
  }

  /** Seeding an id at the risk it already has, if any, keeps every queued entry's risk the recorded one. */
  lemma SeedPush(risk: map<Id, real>, q: seq<Entry>, id: Id, r0: real)
    requires forall k :: 0 <= k < |q| ==> q[k].depth == 0 && q[k].id in risk && q[k].r == risk[q[k].id]
    requires id in risk ==> risk[id] == r0
    ensures var risk1 := risk[id := r0];
      var q1 := q + [Entry(id, r0, 0)];
      forall k :: 0 <= k < |q1| ==> q1[k].depth == 0 && q1[k].id in risk1 && q1[k].r == risk1[q1[k].id]
  {
  }

  /** `risk.get(id) || 0`. */
  function RiskOf(risk: map<Id, real>, id: Id): real {
    if id in risk then risk[id] else 0.0
  }

  /**
   * One hop of the inner loop: the risk carried across it, recorded and
   * queued one level deeper when it beats both the 0.01 cutoff and the
   * risk already recorded for the neighbour.
   */
  function Relax(assets: seq<Asset>, h: Hop, p: Params, from: Asset, e: Entry,
                 risk: map<Id, real>, q: seq<Entry>): (res: (map<Id, real>, seq<Entry>))
    ensures || res == (risk, q)
            || (&& h.neighbor in AssetIds(assets) && h.neighbor in res.0
                && var r := res.0[h.neighbor];
                && r > 0.01 && r > RiskOf(risk, h.neighbor)
                && res.0 == risk[h.neighbor := r]
                && res.1 == q + [Entry(h.neighbor, r, e.depth + 1)]
                && (0.0 <= e.r <= 1.0 && p.decayPerHop <= 1.0 ==> r <= 1.0))
  {
    var to := AssetById(assets, h.neighbor);
    if to.None? then (risk, q)
    else
      var pEdge := EdgePassProb(h.edge, from, to.value, p.baseEdgeProb, p.crossZonePenalty);
      var rNext := Carried(e.r, pEdge, p.decayPerHop);
      if rNext <= 0.01 || rNext <= RiskOf(risk, h.neighbor) then (risk, q)
      else
        StepBound(e.r, pEdge, p.decayPerHop);
        RelaxRecords(assets, h, p, e, risk, q, rNext);
        (risk[h.neighbor := rNext], q + [Entry(h.neighbor, rNext, e.depth + 1)])
  }

  /** The risk carried across one hop: `r * pEdge * decayPerHop`. */
  function Carried(r: real, pEdge: real, decay: real): real {
    r * pEdge * decay
  }

  /** The update branch of `Relax`: the recorded and queued risk is the carried one. */
  lemma RelaxRecords(assets: seq<Asset>, h: Hop, p: Params, e: Entry, risk: map<Id, real>, q: seq<Entry>, rNext: real)
    requires h.neighbor in AssetIds(assets)
    requires rNext > 0.01 && rNext > RiskOf(risk, h.neighbor)
    requires 0.0 <= e.r <= 1.0 && p.decayPerHop <= 1.0 ==> rNext <= 1.0
    ensures var res := (risk[h.neighbor := rNext], q + [Entry(h.neighbor, rNext, e.depth + 1)]);
      && h.neighbor in res.0
      && var r := res.0[h.neighbor];
      && r > 0.01 && r > RiskOf(risk, h.neighbor)
      && res.0 == risk[h.neighbor := r]
      && res.1 == q + [Entry(h.neighbor, r, e.depth + 1)]
      && (0.0 <= e.r <= 1.0 && p.decayPerHop <= 1.0 ==> r <= 1.0)
  {
  }

  /**
   * The inner `for (const { edge, neighborId } of g.get(id) || [])` loop
   * from the i-th hop on, for the entry e taken off the queue.
   */
  function Expand(assets: seq<Asset>, nbrs: seq<Hop>, p: Params, from: Asset, e: Entry,
                  risk: map<Id, real>, q: seq<Entry>, i: nat): (res: (map<Id, real>, seq<Entry>))
    requires i <= |nbrs|
    ensures |q| <= |res.1| <= |q| + (|nbrs| - i)
    decreases |nbrs| - i
  {
    if i == |nbrs| then (risk, q)
    else
      var (risk1, q1) := Relax(assets, nbrs[i], p, from, e, risk, q);
      Expand(assets, nbrs, p, from, e, risk1, q1, i + 1)
  }

  /**
   * Recorded risks only grow; a risk that changes is above the 0.01 cutoff
   * and belongs to a neighbour asset; and risks stay at most 1 when the
   * carried risk and the decay are.
   */
  lemma {:induction false} ExpandRisk(assets: seq<Asset>, nbrs: seq<Hop>, p: Params, from: Asset, e: Entry,
                                      risk: map<Id, real>, q: seq<Entry>, i: nat)
    requires i <= |nbrs|
    ensures var res := Expand(assets, nbrs, p, from, e, risk, q, i);
      && (forall id :: id in risk ==> id in res.0 && res.0[id] >= risk[id])
      && (forall id :: id in res.0 ==>
            || (id in risk && res.0[id] == risk[id])
            || (res.0[id] > 0.01 && id in AssetIds(assets) && exists j :: i <= j < |nbrs| && nbrs[j].neighbor == id))
      && (0.0 <= e.r <= 1.0 && p.decayPerHop <= 1.0 ==>
            forall id :: id in res.0 && (id !in risk || risk[id] <= 1.0) ==> res.0[id] <= 1.0)
    decreases |nbrs| - i
  {
    if i < |nbrs| {
      var (risk1, q1) := Relax(assets, nbrs[i], p, from, e, risk, q);
      ExpandRisk(assets, nbrs, p, from, e, risk1, q1, i + 1);
    }
  }

  /**
   * The queue keeps its prefix, and every entry appended is a neighbour
   * asset one level deeper than e carrying more than 0.01 (and at most 1
   * when the carried risk and the decay are at most 1).
   */
  lemma {:induction false} ExpandQueue(assets: seq<Asset>, nbrs: seq<Hop>, p: Params, from: Asset, e: Entry,
                                       risk: map<Id, real>, q: seq<Entry>, i: nat)
    requires i <= |nbrs|
    ensures var res := Expand(assets, nbrs, p, from, e, risk, q, i);
      && res.1 == q + res.1[|q|..]
      && (forall k :: |q| <= k < |res.1| ==>
            && res.1[k].depth == e.depth + 1 && res.1[k].r > 0.01 && res.1[k].id in AssetIds(assets)
            && (exists j :: i <= j < |nbrs| && nbrs[j].neighbor == res.1[k].id)
            && (0.0 <= e.r <= 1.0 && p.decayPerHop <= 1.0 ==> res.1[k].r <= 1.0))
    decreases |nbrs| - i
  {
    if i < |nbrs| {
      var (risk1, q1) := Relax(assets, nbrs[i], p, from, e, risk, q);
      ExpandQueue(assets, nbrs, p, from, e, risk1, q1, i + 1);
      var res := Expand(assets, nbrs, p, from, e, risk1, q1, i + 1);
      forall k | 0 <= k < |q1| ensures res.1[k] == q1[k] {
        assert res.1[k] == (q1 + res.1[|q1|..])[k];
      }
      assert res.1 == q + res.1[|q|..];
    }
  }

  /** A carried risk in [0,1], a probability and a decay of at most 1 give at most 1. */
  lemma StepBound(r: real, pEdge: real, decay: real)
    requires 0.0 <= pEdge <= 1.0
    ensures 0.0 <= r <= 1.0 && decay <= 1.0 && Carried(r, pEdge, decay) > 0.01 ==> Carried(r, pEdge, decay) <= 1.0
  {
    if 0.0 <= r <= 1.0 && decay <= 1.0 {
      UnitMul(r, pEdge);
      var x := r * pEdge;
      if decay < 0.0 {
        MulMonotone(decay, 0.0, x);
        assert decay * x == x * decay;
      } else {
        UnitMul(x, decay);
      }
    }
  }

  // ---------------------------------------------------------------------------
  // Termination measure of the queue
  // ---------------------------------------------------------------------------

  function Pow(b: nat, k: nat): (r: nat)
    ensures b >= 1 ==> r >= 1
  {
    if k == 0 then 1 else b * Pow(b, k - 1)
  }

  /** Hops an entry may still take: `steps - depth`, or 0 once the depth bound is reached. */
  function Rem(e: Entry, steps: int): nat {
    if e.depth >= steps then 0 else steps - e.depth
  }

  /**
   * Each entry weighs b to the power of its remaining hops; expanding an
   * entry replaces it by fewer than b entries with one hop less.
   */
  function Weight(q: seq<Entry>, b: nat, steps: int): nat {
    if |q| == 0 then 0 else Pow(b, Rem(q[0], steps)) + Weight(q[1..], b, steps)
  }

  lemma {:induction false} WeightAppend(x: seq<Entry>, y: seq<Entry>, b: nat, steps: int)
    ensures Weight(x + y, b, steps) == Weight(x, b, steps) + Weight(y, b, steps)
    decreases |x|
  {
    if |x| > 0 {
      assert (x + y)[0] == x[0];
      assert (x + y)[1..] == x[1..] + y;
      WeightAppend(x[1..], y, b, steps);
    } else {
      assert x + y == y;
    }
  }

  lemma {:induction false} WeightUniform(x: seq<Entry>, b: nat, steps: int, k: nat)
    requires forall j :: 0 <= j < |x| ==> Rem(x[j], steps) == k
    ensures Weight(x, b, steps) == |x| * Pow(b, k)
    decreases |x|
  {
    if |x| > 0 {
      WeightUniform(x[1..], b, steps, k);
    }
  }

  /** Expanding the head entry e into `added` strictly lowers the weight. */
  lemma WeightDrops(e: Entry, rest: seq<Entry>, added: seq<Entry>, b: nat, steps: int)
    requires e.depth < steps && b >= 1 && |added| < b
    requires forall j :: 0 <= j < |added| ==> added[j].depth == e.depth + 1
    ensures Weight(rest + added, b, steps) < Weight([e] + rest, b, steps)
  {
    var k := Rem(e, steps);
    assert k >= 1;
    assert ([e] + rest)[1..] == rest;
    WeightAppend(rest, added, b, steps);
    WeightUniform(added, b, steps, k - 1);
    var pk := Pow(b, k - 1);
    assert Pow(b, k) == b * pk;
    assert |added| * pk <= (b - 1) * pk by {
      IntMulMonotone(|added|, b - 1, pk);
    }
    assert (b - 1) * pk + pk == b * pk;
  }

  lemma IntMulMonotone(x: nat, y: nat, m: nat)
    requires x <= y
    ensures x * m <= y * m
  {
  }

  // ---------------------------------------------------------------------------
  // computePropagation
  // ---------------------------------------------------------------------------

  /** The depth bound as a hop count: `steps`, or 0 when it is negative. */
  function MaxHops(steps: int): nat {
    if steps < 0 then 0 else steps
  }

  /** The recorded risks after seeding: every known seed at its own base risk. */
  ghost predicate Seeded(seeds: seq<Id>, assets: seq<Asset>, risk0: map<Id, real>) {
    && (forall s :: s in risk0 <==> s in KnownSeeds(seeds, assets))
    && (forall s :: s in risk0 ==> risk0[s] == NodeBaseRisk(AssetById(assets, s).value))
  }

  /** What every queued entry satisfies. */
  ghost predicate EntryOk(assets: seq<Asset>, g: map<Id, seq<Hop>>, known: set<Id>, x: Entry, p: Params) {
    && x.id in AssetIds(assets)
    && 0.0 <= x.r
    && (p.decayPerHop <= 1.0 ==> x.r <= 1.0)
    && x.depth <= MaxHops(p.steps)
    && Near(g, known, x.id, x.depth)
  }

  ghost predicate QueueOk(assets: seq<Asset>, g: map<Id, seq<Hop>>, known: set<Id>, q: seq<Entry>, p: Params) {
    forall k :: 0 <= k < |q| ==> EntryOk(assets, g, known, q[k], p)
  }

  /** What every recorded risk satisfies, relative to the seeded map risk0. */
  ghost predicate RiskOk(assets: seq<Asset>, g: map<Id, seq<Hop>>, known: set<Id>,
                         risk0: map<Id, real>, risk: map<Id, real>, p: Params) {
    && (forall id :: id in risk ==> id in AssetIds(assets) && 0.0 <= risk[id])
    && (p.decayPerHop <= 1.0 ==> forall id :: id in risk ==> risk[id] <= 1.0)
    && (forall id :: id in risk ==> id in known || risk[id] > 0.01)
    && (forall id :: id in risk ==> Near(g, known, id, MaxHops(p.steps)))
    && (forall id :: id in risk0 ==> id in risk && risk[id] >= risk0[id])
    && (p.steps <= 0 ==> risk == risk0)
  }

  /** The seeding loop establishes both invariants. */
  lemma SeedFacts(seeds: seq<Id>, assets: seq<Asset>, g: map<Id, seq<Hop>>, risk0: map<Id, real>, q: seq<Entry>, p: Params)
    requires (risk0, q) == SeedUpTo(seeds, assets, |seeds|)
    ensures Seeded(seeds, assets, risk0)
    ensures QueueOk(assets, g, KnownSeeds(seeds, assets), q, p)
    ensures RiskOk(assets, g, KnownSeeds(seeds, assets), risk0, risk0, p)
  {
    var known := KnownSeeds(seeds, assets);
    assert seeds[..|seeds|] == seeds;
    forall k | 0 <= k < |q| ensures EntryOk(assets, g, known, q[k], p) {
      assert q[k].id in known;
    }
    SeedRisk(seeds, assets, g, risk0, p);
  }

  /** The seeded map on its own satisfies the risk invariant. */
  lemma SeedRisk(seeds: seq<Id>, assets: seq<Asset>, g: map<Id, seq<Hop>>, risk0: map<Id, real>, p: Params)
    requires Seeded(seeds, assets, risk0)
    ensures RiskOk(assets, g, KnownSeeds(seeds, assets), risk0, risk0, p)
  {
    var known := KnownSeeds(seeds, assets);
    forall id | id in risk0
      ensures id in known && id in AssetIds(assets) && 0.0 <= risk0[id] <= 1.0
      ensures Near(g, known, id, MaxHops(p.steps))
    {
      assert id in known;
    }
  }

  lemma QueueTail(assets: seq<Asset>, g: map<Id, seq<Hop>>, known: set<Id>, q: seq<Entry>, p: Params)
    requires QueueOk(assets, g, known, q, p) && |q| > 0
    ensures EntryOk(assets, g, known, q[0], p)
    ensures QueueOk(assets, g, known, q[1..], p)
  {
    forall k | 0 <= k < |q| - 1 ensures EntryOk(assets, g, known, q[1..][k], p) {
      assert q[1..][k] == q[k + 1];
    }
  }

  /** A neighbour of an id within d hops is within d + 1 hops. */
  lemma NearStep(g: map<Id, seq<Hop>>, known: set<Id>, a: Id, b: Id, d: nat)
    requires Near(g, known, a, d) && Adjacent(g, a, b)
    ensures Near(g, known, b, d + 1)
  {
  }

  /** One expansion keeps both invariants, and adds fewer than 1 + 2|links| entries one level deeper. */
  lemma ExpandKeepsInvariants(assets: seq<Asset>, links: seq<Link>, known: set<Id>, risk0: map<Id, real>,
                              risk: map<Id, real>, e: Entry, rest: seq<Entry>, p: Params)
    requires EntryOk(assets, Hops(assets, links), known, e, p) && e.depth < p.steps
    requires QueueOk(assets, Hops(assets, links), known, rest, p)
    requires RiskOk(assets, Hops(assets, links), known, risk0, risk, p)
    ensures var g := Hops(assets, links);
      var res := Expand(assets, g[e.id], p, AssetById(assets, e.id).value, e, risk, rest, 0);
      && QueueOk(assets, g, known, res.1, p)
      && RiskOk(assets, g, known, risk0, res.0, p)
      && res.1 == rest + res.1[|rest|..]
      && |res.1| - |rest| < 1 + 2 * |links|
      && (forall j :: 0 <= j < |res.1| - |rest| ==> res.1[|rest|..][j].depth == e.depth + 1)
  {
    var g := Hops(assets, links);
    var nbrs := g[e.id];
    var from := AssetById(assets, e.id).value;
    var res := Expand(assets, nbrs, p, from, e, risk, rest, 0);
    ExpandRisk(assets, nbrs, p, from, e, risk, rest, 0);
    ExpandQueue(assets, nbrs, p, from, e, risk, rest, 0);
    forall k | 0 <= k < |res.1| ensures EntryOk(assets, g, known, res.1[k], p) {
      if k >= |rest| {
        var j :| 0 <= j < |nbrs| && nbrs[j].neighbor == res.1[k].id;
        assert Adjacent(g, e.id, res.1[k].id);
        NearStep(g, known, e.id, res.1[k].id, e.depth);
      } else {
        assert res.1[k] == rest[k];
      }
    }
    forall id | id in res.0 ensures Near(g, known, id, MaxHops(p.steps)) {
      if !(id in risk && res.0[id] == risk[id]) {
        var j :| 0 <= j < |nbrs| && nbrs[j].neighbor == id;
        assert Adjacent(g, e.id, id);
        NearStep(g, known, e.id, id, e.depth);
        NearMonotone(g, known, id, e.depth + 1, MaxHops(p.steps));
      }
    }
    forall j | 0 <= j < |res.1| - |rest| ensures res.1[|rest|..][j].depth == e.depth + 1 {
      assert res.1[|rest|..][j] == res.1[|rest| + j];
    }
  }

  /** The invariants at loop exit give the contract of `ComputePropagation`. */
  lemma RiskOkFinal(seeds: seq<Id>, assets: seq<Asset>, g: map<Id, seq<Hop>>, risk0: map<Id, real>, risk: map<Id, real>, p: Params)
    requires Seeded(seeds, assets, risk0)
    requires RiskOk(assets, g, KnownSeeds(seeds, assets), risk0, risk, p)
    ensures forall s :: s in KnownSeeds(seeds, assets) ==> s in risk && risk[s] >= NodeBaseRisk(AssetById(assets, s).value)
    ensures p.steps <= 0 ==> forall id :: id in risk <==> id in KnownSeeds(seeds, assets)
  {
  }

  /**
   * `computePropagation({ seeds, assets, links, steps, baseEdgeProb,
   * decayPerHop, crossZonePenalty })`: FIFO relaxation from the known
   * seeds. Known seeds keep at least their base risk, every other entry is
   * above the 0.01 cutoff, entries stay within `steps` hops of a known
   * seed, and with a decay of at most 1 every risk stays in [0,1].
   */
  method ComputePropagation(seeds: seq<Id>, assets: seq<Asset>, links: seq<Link>, p: Params)
    returns (risk: map<Id, real>)
    ensures forall s :: s in KnownSeeds(seeds, assets) ==> s in risk && risk[s] >= NodeBaseRisk(AssetById(assets, s).value)
    ensures forall id :: id in risk ==> id in AssetIds(assets)
    ensures forall id :: id in risk ==> id in KnownSeeds(seeds, assets) || risk[id] > 0.01
    ensures forall id :: id in risk ==> 0.0 <= risk[id]
    ensures p.decayPerHop <= 1.0 ==> forall id :: id in risk ==> risk[id] <= 1.0
    ensures forall id :: id in risk ==> Near(Hops(assets, links), KnownSeeds(seeds, assets), id, MaxHops(p.steps))
    ensures p.steps <= 0 ==> forall id :: id in risk <==> id in KnownSeeds(seeds, assets)
  {
    var g := Hops(assets, links);
    ghost var known := KnownSeeds(seeds, assets);
    var seeded := SeedUpTo(seeds, assets, |seeds|);
    risk := seeded.0;
    var q := seeded.1;
    ghost var risk0 := risk;
    SeedFacts(seeds, assets, g, risk0, q, p);
    var b := 1 + 2 * |links|;
    while |q| > 0
      invariant QueueOk(assets, g, known, q, p)
      invariant RiskOk(assets, g, known, risk0, risk, p)
      decreases Weight(q, b, p.steps)
    {
      var e := q[0];
      var rest := q[1..];
      assert q == [e] + rest;
      QueueTail(assets, g, known, q, p);
      if e.depth >= p.steps {
        q := rest;
      } else {
        var from := AssetById(assets, e.id).value;
        var nbrs := if e.id in g then g[e.id] else [];
        var res := Expand(assets, nbrs, p, from, e, risk, rest, 0);
        ExpandKeepsInvariants(assets, links, known, risk0, risk, e, rest, p);
        WeightDrops(e, rest, res.1[|rest|..], b, p.steps);
        risk, q := res.0, res.1;
      }
    }
    RiskOkFinal(seeds, assets, g, risk0, risk, p);
  }

  // ---------------------------------------------------------------------------
  // edgesAbove
  // ---------------------------------------------------------------------------

  /** The default highlighting threshold of `edgesAbove`. */
  const DefaultThreshold := 0.2

  /** An id is hot when its recorded risk reaches the threshold. */
  predicate Hot(risk: map<Id, real>, id: Id, threshold: real) {
    id in risk && risk[id] >= threshold
  }

  /** `edgesAbove(riskMap, links, threshold)` over the first n links. */
  function EdgesAboveUpTo(risk: map<Id, real>, links: seq<Link>, threshold: real, n: nat): (ids: seq<Id>)
    requires n <= |links|
    ensures |ids| <= n
    ensures forall x :: x in ids <==>
      exists j :: 0 <= j < n && links[j].id == x && Hot(risk, links[j].source, threshold) && Hot(risk, links[j].target, threshold)
  {
    if n == 0 then []
    else
      var e := links[n - 1];
      EdgesAboveUpTo(risk, links, threshold, n - 1)
        + (if Hot(risk, e.source, threshold) && Hot(risk, e.target, threshold) then [e.id] else [])
  }

  /** The ids, in link order, of the links whose two endpoints are both hot. */
  function EdgesAbove(risk: map<Id, real>, links: seq<Link>, threshold: real): (ids: seq<Id>)
    ensures |ids| <= |links|
    ensures forall x :: x in ids <==>
      exists e :: e in links && e.id == x && Hot(risk, e.source, threshold) && Hot(risk, e.target, threshold)
  {
    EdgesAboveUpTo(risk, links, threshold, |links|)
  }

  /**
   * Raising the threshold only drops edges: the result for the higher
   * threshold is no longer, and each of its entries is kept.
   */
  lemma {:induction false} EdgesAboveAntitone(risk: map<Id, real>, links: seq<Link>, t1: real, t2: real, n: nat)
    requires t1 <= t2 && n <= |links|
    ensures |EdgesAboveUpTo(risk, links, t2, n)| <= |EdgesAboveUpTo(risk, links, t1, n)|
    ensures forall x :: x in EdgesAboveUpTo(risk, links, t2, n) ==> x in EdgesAboveUpTo(risk, links, t1, n)
  {
    if n > 0 {
      EdgesAboveAntitone(risk, links, t1, t2, n - 1);
    }
  }
}
