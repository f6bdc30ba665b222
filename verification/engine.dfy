/**
 * The patch-prioritisation engine of `src/decision/engine.js`: the default
 * business impact of a device type, the two topology signals (degree
 * centrality and the zone-bridge bonus), the weighted priority score and
 * its bucket, the cost of delay with its due date, and the maintenance
 * windows. The wall clock is the parameter `now` (milliseconds, local time
 * treated as UTC).
 */
module Engine {
  import opened Domain
  import Simulate

  // ---------------------------------------------------------------------------
  // Business impact by device type
  // ---------------------------------------------------------------------------

  /**
   * `defaultBusinessImpact(type)`: the first case-insensitive pattern group
   * the type matches decides.
   */
  function DefaultBusinessImpact(t: string): (r: real)
    ensures r == 0.9 || r == 0.8 || r == 0.7 || r == 0.6 || r == 0.5 || r == 0.3
    ensures MatchesAny(t, ["Firewall", "EHR", "Database"]) ==> r == 0.9
  {
    if MatchesAny(t, ["Firewall", "EHR", "Database"]) then 0.9
    else if MatchesAny(t, ["Router", "HL7"]) then 0.8
    else if MatchesAny(t, ["Server", "PACS"]) then 0.7
    else if MatchesAny(t, ["Switch", "WiFi"]) then 0.6
    else if MatchesAny(t, ["Medical IoT"]) then 0.5
    else if MatchesAny(t, ["Workstation"]) then 0.3
    else 0.5
  }

  /**
   * The impact each device type of the inventory gets by default: 0.9 for
   * firewalls, EHR and databases, 0.8 for routers and the HL7 engine, 0.7
   * for servers and PACS, 0.6 for switches and WiFi, 0.5 for medical IoT
   * and 0.3 for workstations.
   */
  lemma DefaultImpactOfTypes()
    ensures DefaultBusinessImpact(TypeFirewall) == 0.9
    ensures DefaultBusinessImpact(TypeRouter) == 0.8
    ensures DefaultBusinessImpact(TypeSwitch) == 0.6
    ensures DefaultBusinessImpact(TypeServer) == 0.7
    ensures DefaultBusinessImpact(TypeDatabase) == 0.9
    ensures DefaultBusinessImpact(TypeWorkstation) == 0.3
    ensures DefaultBusinessImpact(TypeEHR) == 0.9
    ensures DefaultBusinessImpact(TypePACS) == 0.7
    ensures DefaultBusinessImpact(TypeHL7) == 0.8
    ensures DefaultBusinessImpact(TypeIoMT) == 0.5
    ensures DefaultBusinessImpact(TypeWiFiAP) == 0.6
  {
    FirewallDefault();
    RouterDefault();
    SwitchDefault();
    ServerDefault();
    DatabaseDefault();
    WorkstationDefault();
    EHRDefault();
    PACSDefault();
    HL7Default();
    IoMTDefault();
    WiFiAPDefault();
  }

  lemma FirewallDefault()
    ensures DefaultBusinessImpact(TypeFirewall) == 0.9
  {
    ImpactOfFirewall(TypeFirewall);
  }

  lemma RouterDefault()
    ensures DefaultBusinessImpact(TypeRouter) == 0.8
  {
    ImpactOfRouter(TypeRouter);
  }

  lemma SwitchDefault()
    ensures DefaultBusinessImpact(TypeSwitch) == 0.6
  {
    ImpactOfSwitch(TypeSwitch);
  }

  lemma ServerDefault()
    ensures DefaultBusinessImpact(TypeServer) == 0.7
  {
    ImpactOfServer(TypeServer);
  }

  lemma DatabaseDefault()
    ensures DefaultBusinessImpact(TypeDatabase) == 0.9
  {
    ImpactOfDatabase(TypeDatabase);
  }

  lemma WorkstationDefault()
    ensures DefaultBusinessImpact(TypeWorkstation) == 0.3
  {
    WorkstationLacks();
    WorkstationLacksMore();
    ImpactOfWorkstation(TypeWorkstation);
  }

  lemma EHRDefault()
    ensures DefaultBusinessImpact(TypeEHR) == 0.9
  {
    ImpactOfEHR(TypeEHR);
  }

  lemma PACSDefault()
    ensures DefaultBusinessImpact(TypePACS) == 0.7
  {
    ImpactOfPACS(TypePACS);
  }

  lemma HL7Default()
    ensures DefaultBusinessImpact(TypeHL7) == 0.8
  {
    ImpactOfHL7(TypeHL7);
  }

  lemma IoMTDefault()
    ensures DefaultBusinessImpact(TypeIoMT) == 0.5
  {
    ImpactOfIoMT(TypeIoMT);
  }

  lemma WiFiAPDefault()
    ensures DefaultBusinessImpact(TypeWiFiAP) == 0.6
  {
    ImpactOfWiFiAP(TypeWiFiAP);
  }

  lemma ImpactOfFirewall(t: string)
    requires |t| >= 8 && t[..8] == "Firewall"
    ensures DefaultBusinessImpact(t) == 0.9
  {
    HitGroup(t, ["Firewall", "EHR", "Database"], 0, 0);
    DecidedByHigh(t);
  }

  lemma ImpactOfRouter(t: string)
    requires 'f' !in t && 'F' !in t && 'h' !in t && 'H' !in t && 'd' !in t && 'D' !in t
    requires |t| >= 6 && t[..6] == "Router"
    ensures DefaultBusinessImpact(t) == 0.8
  {
    MissGroup(t, ["Firewall", "EHR", "Database"], [0, 1, 0], ['f', 'h', 'd'], ['F', 'H', 'D']);
    HitGroup(t, ["Router", "HL7"], 0, 0);
    DecidedByRouting(t);
  }

  lemma ImpactOfSwitch(t: string)
    requires 'f' !in t && 'F' !in t && 'e' !in t && 'E' !in t && 'd' !in t && 'D' !in t && 'r' !in t && 'R' !in t
    requires 'l' !in t && 'L' !in t && 'p' !in t && 'P' !in t
    requires |t| >= 6 && t[..6] == "Switch"
    ensures DefaultBusinessImpact(t) == 0.6
  {
    MissGroup(t, ["Firewall", "EHR", "Database"], [0, 0, 0], ['f', 'e', 'd'], ['F', 'E', 'D']);
    MissGroup(t, ["Router", "HL7"], [0, 1], ['r', 'l'], ['R', 'L']);
    MissGroup(t, ["Server", "PACS"], [1, 0], ['e', 'p'], ['E', 'P']);
    SwitchHit(t);
    DecidedByAccess(t);
  }

  lemma SwitchHit(t: string)
    requires |t| >= 6 && t[..6] == "Switch"
    ensures MatchesAny(t, ["Switch", "WiFi"])
  {
    HitGroup(t, ["Switch", "WiFi"], 0, 0);
  }

  lemma ImpactOfServer(t: string)
    requires 'f' !in t && 'F' !in t && 'h' !in t && 'H' !in t && 'd' !in t && 'D' !in t && 'o' !in t && 'O' !in t
    requires |t| >= 6 && t[..6] == "Server"
    ensures DefaultBusinessImpact(t) == 0.7
  {
    MissGroup(t, ["Firewall", "EHR", "Database"], [0, 1, 0], ['f', 'h', 'd'], ['F', 'H', 'D']);
    MissGroup(t, ["Router", "HL7"], [1, 0], ['o', 'h'], ['O', 'H']);
    ServerHit(t);
    DecidedByServing(t);
  }

  lemma ServerHit(t: string)
    requires |t| >= 6 && t[..6] == "Server"
    ensures MatchesAny(t, ["Server", "PACS"])
  {
    HitGroup(t, ["Server", "PACS"], 0, 0);
  }

  lemma ImpactOfDatabase(t: string)
    requires |t| >= 8 && t[..8] == "Database"
    ensures DefaultBusinessImpact(t) == 0.9
  {
    HitGroup(t, ["Firewall", "EHR", "Database"], 2, 0);
    DecidedByHigh(t);
  }

  lemma ImpactOfWorkstation(t: string)
    requires 'f' !in t && 'F' !in t && 'e' !in t && 'E' !in t && 'd' !in t && 'D' !in t && 'u' !in t && 'U' !in t
    requires 'h' !in t && 'H' !in t && 'p' !in t && 'P' !in t && 'c' !in t && 'C' !in t && 'm' !in t && 'M' !in t
    requires |t| >= 11 && t[..11] == "Workstation"
    ensures DefaultBusinessImpact(t) == 0.3
  {
    WorkstationMisses(t);
    WorkstationHit(t);
    DecidedByDesk(t);
  }

  lemma WorkstationHit(t: string)
    requires |t| >= 11 && t[..11] == "Workstation"
    ensures MatchesAny(t, ["Workstation"])
  {
    HitGroup(t, ["Workstation"], 0, 0);
  }

  /** The letters a workstation type lacks rule out the first five groups. */
  lemma WorkstationMisses(t: string)
    requires 'f' !in t && 'F' !in t && 'e' !in t && 'E' !in t && 'd' !in t && 'D' !in t && 'u' !in t && 'U' !in t
    requires 'h' !in t && 'H' !in t && 'p' !in t && 'P' !in t && 'c' !in t && 'C' !in t && 'm' !in t && 'M' !in t
    ensures !MatchesAny(t, ["Firewall", "EHR", "Database"]) && !MatchesAny(t, ["Router", "HL7"])
    ensures !MatchesAny(t, ["Server", "PACS"]) && !MatchesAny(t, ["Switch", "WiFi"])
    ensures !MatchesAny(t, ["Medical IoT"])
  {
    MissGroup(t, ["Firewall", "EHR", "Database"], [0, 0, 0], ['f', 'e', 'd'], ['F', 'E', 'D']);
    MissGroup(t, ["Router", "HL7"], [2, 0], ['u', 'h'], ['U', 'H']);
    MissGroup(t, ["Server", "PACS"], [1, 0], ['e', 'p'], ['E', 'P']);
    MissGroup(t, ["Switch", "WiFi"], [4, 2], ['c', 'f'], ['C', 'F']);
    MissGroup(t, ["Medical IoT"], [0], ['m'], ['M']);
  }

  lemma ImpactOfEHR(t: string)
    requires |t| >= 3 && t[..3] == "EHR"
    ensures DefaultBusinessImpact(t) == 0.9
  {
    HitGroup(t, ["Firewall", "EHR", "Database"], 1, 0);
    DecidedByHigh(t);
  }

  lemma ImpactOfPACS(t: string)
    requires 'f' !in t && 'F' !in t && 'e' !in t && 'E' !in t && 'd' !in t && 'D' !in t && 'r' !in t && 'R' !in t
    requires 'h' !in t && 'H' !in t
    requires |t| >= 4 && t[..4] == "PACS"
    ensures DefaultBusinessImpact(t) == 0.7
  {
    MissGroup(t, ["Firewall", "EHR", "Database"], [0, 0, 0], ['f', 'e', 'd'], ['F', 'E', 'D']);
    MissGroup(t, ["Router", "HL7"], [0, 0], ['r', 'h'], ['R', 'H']);
    HitGroup(t, ["Server", "PACS"], 1, 0);
    DecidedByServing(t);
  }

  lemma ImpactOfHL7(t: string)
    requires 'f' !in t && 'F' !in t && 'r' !in t && 'R' !in t && 'd' !in t && 'D' !in t
    requires |t| >= 3 && t[..3] == "HL7"
    ensures DefaultBusinessImpact(t) == 0.8
  {
    MissGroup(t, ["Firewall", "EHR", "Database"], [0, 2, 0], ['f', 'r', 'd'], ['F', 'R', 'D']);
    HitGroup(t, ["Router", "HL7"], 1, 0);
    DecidedByRouting(t);
  }

  lemma ImpactOfIoMT(t: string)
    requires 'f' !in t && 'F' !in t && 'h' !in t && 'H' !in t && 'b' !in t && 'B' !in t && 'r' !in t && 'R' !in t
    requires 's' !in t && 'S' !in t && 'p' !in t && 'P' !in t && 'w' !in t && 'W' !in t
    requires |t| >= 11 && t[..11] == "Medical IoT"
    ensures DefaultBusinessImpact(t) == 0.5
  {
    MedicalIoTMisses(t);
    MedicalIoTHit(t);
    DecidedByMedicalIoT(t);
  }

  lemma MedicalIoTHit(t: string)
    requires |t| >= 11 && t[..11] == "Medical IoT"
    ensures MatchesAny(t, ["Medical IoT"])
  {
    HitGroup(t, ["Medical IoT"], 0, 0);
  }

  /** The letters a medical IoT type lacks rule out the first four groups. */
  lemma MedicalIoTMisses(t: string)
    requires 'f' !in t && 'F' !in t && 'h' !in t && 'H' !in t && 'b' !in t && 'B' !in t && 'r' !in t && 'R' !in t
    requires 's' !in t && 'S' !in t && 'p' !in t && 'P' !in t && 'w' !in t && 'W' !in t
    ensures !MatchesAny(t, ["Firewall", "EHR", "Database"]) && !MatchesAny(t, ["Router", "HL7"])
    ensures !MatchesAny(t, ["Server", "PACS"]) && !MatchesAny(t, ["Switch", "WiFi"])
  {
    MissGroup(t, ["Firewall", "EHR", "Database"], [0, 1, 4], ['f', 'h', 'b'], ['F', 'H', 'B']);
    MissGroup(t, ["Router", "HL7"], [0, 0], ['r', 'h'], ['R', 'H']);
    MissGroup(t, ["Server", "PACS"], [0, 0], ['s', 'p'], ['S', 'P']);
    MissGroup(t, ["Switch", "WiFi"], [0, 0], ['s', 'w'], ['S', 'W']);
  }

  lemma ImpactOfWiFiAP(t: string)
    requires 'r' !in t && 'R' !in t && 'e' !in t && 'E' !in t && 'd' !in t && 'D' !in t && 'h' !in t && 'H' !in t
    requires 's' !in t && 'S' !in t && 'c' !in t && 'C' !in t
    requires |t| >= 4 && t[..4] == "WiFi"
    ensures DefaultBusinessImpact(t) == 0.6
  {
    MissGroup(t, ["Firewall", "EHR", "Database"], [2, 0, 0], ['r', 'e', 'd'], ['R', 'E', 'D']);
    MissGroup(t, ["Router", "HL7"], [0, 0], ['r', 'h'], ['R', 'H']);
    MissGroup(t, ["Server", "PACS"], [0, 2], ['s', 'c'], ['S', 'C']);
    WiFiHit(t);
    DecidedByAccess(t);
  }

  lemma WiFiHit(t: string)
    requires |t| >= 4 && t[..4] == "WiFi"
    ensures MatchesAny(t, ["Switch", "WiFi"])
  {
    HitGroup(t, ["Switch", "WiFi"], 1, 0);
  }

  /** The first matching group decides: group 1. */
  lemma DecidedByHigh(t: string)
    requires MatchesAny(t, ["Firewall", "EHR", "Database"])
    ensures DefaultBusinessImpact(t) == 0.9
  {
  }

  /** The first matching group decides: group 2. */
  lemma DecidedByRouting(t: string)
    requires !MatchesAny(t, ["Firewall", "EHR", "Database"])
    requires MatchesAny(t, ["Router", "HL7"])
    ensures DefaultBusinessImpact(t) == 0.8
  {
  }

  /** The first matching group decides: group 3. */
  lemma DecidedByServing(t: string)
    requires !MatchesAny(t, ["Firewall", "EHR", "Database"])
    requires !MatchesAny(t, ["Router", "HL7"])
    requires MatchesAny(t, ["Server", "PACS"])
    ensures DefaultBusinessImpact(t) == 0.7
  {
  }

  /** The first matching group decides: group 4. */
  lemma DecidedByAccess(t: string)
    requires !MatchesAny(t, ["Firewall", "EHR", "Database"])
    requires !MatchesAny(t, ["Router", "HL7"])
    requires !MatchesAny(t, ["Server", "PACS"])
    requires MatchesAny(t, ["Switch", "WiFi"])
    ensures DefaultBusinessImpact(t) == 0.6
  {
  }

  /** The first matching group decides: group 5. */
  lemma DecidedByMedicalIoT(t: string)
    requires !MatchesAny(t, ["Firewall", "EHR", "Database"])
    requires !MatchesAny(t, ["Router", "HL7"])
    requires !MatchesAny(t, ["Server", "PACS"])
    requires !MatchesAny(t, ["Switch", "WiFi"])
    requires MatchesAny(t, ["Medical IoT"])
    ensures DefaultBusinessImpact(t) == 0.5
  {
  }

  /** The first matching group decides: group 6. */
  lemma DecidedByDesk(t: string)
    requires !MatchesAny(t, ["Firewall", "EHR", "Database"])
    requires !MatchesAny(t, ["Router", "HL7"])
    requires !MatchesAny(t, ["Server", "PACS"])
    requires !MatchesAny(t, ["Switch", "WiFi"])
    requires !MatchesAny(t, ["Medical IoT"])
    requires MatchesAny(t, ["Workstation"])
    ensures DefaultBusinessImpact(t) == 0.3
  {
  }

  /** No group matches: the fallback 0.5. */
  lemma DecidedByNone(t: string)
    requires !MatchesAny(t, ["Firewall", "EHR", "Database"])
    requires !MatchesAny(t, ["Router", "HL7"])
    requires !MatchesAny(t, ["Server", "PACS"])
    requires !MatchesAny(t, ["Switch", "WiFi"])
    requires !MatchesAny(t, ["Medical IoT"])
    requires !MatchesAny(t, ["Workstation"])
    ensures DefaultBusinessImpact(t) == 0.5
  {
  }

  // ---------------------------------------------------------------------------
  // Topology signals
  // ---------------------------------------------------------------------------

  /** The number of links touching id. */
  function Degree(edges: seq<Link>, id: Id): nat {
    Simulate.CountTouching(edges, id, |edges|)
  }

  /** `Math.max(1, ...degrees)` over the first n nodes. */
  function MaxDegreeUpTo(nodes: seq<Node>, edges: seq<Link>, n: nat): (m: nat)
    requires n <= |nodes|
    ensures m >= 1
    ensures forall k :: 0 <= k < n ==> Degree(edges, nodes[k].id) <= m
    ensures m == 1 || exists k :: 0 <= k < n && Degree(edges, nodes[k].id) == m
  {
    if n == 0 then 1
    else
      var m := MaxDegreeUpTo(nodes, edges, n - 1);
      var d := Degree(edges, nodes[n - 1].id);
      if d > m then d else m
  }

  /** The largest degree of a node, and 1 when there is none or all are 0. */
  function MaxDegree(nodes: seq<Node>, edges: seq<Link>): nat {
    MaxDegreeUpTo(nodes, edges, |nodes|)
  }

  /** `degreeCentrality(nodes, edges, id)`. */
  function DegreeCentrality(nodes: seq<Node>, edges: seq<Link>, id: Id): (r: real)
    ensures 0.0 <= r <= 1.0
  {
    Clamp01(Degree(edges, id) as real / MaxDegree(nodes, edges) as real)
  }

  /**
   * For a listed node the centrality is its share of the largest degree,
   * and it is 1 exactly for the busiest nodes.
   */
  lemma CentralityIsShare(nodes: seq<Node>, edges: seq<Link>, k: int)
    requires 0 <= k < |nodes|
    ensures var id := nodes[k].id;
      && DegreeCentrality(nodes, edges, id) == Degree(edges, id) as real / MaxDegree(nodes, edges) as real
      && (DegreeCentrality(nodes, edges, id) == 1.0 <==> Degree(edges, id) == MaxDegree(nodes, edges))
  {
    var d := Degree(edges, nodes[k].id);
    var m := MaxDegree(nodes, edges);
    assert d <= m;
    ShareIsOne(d as real, m as real);
  }

  /** A share of at most the whole lies in [0,1] and is 1 exactly for the whole. */
  lemma ShareIsOne(d: real, m: real)
    requires 0.0 <= d <= m && m > 0.0
    ensures Clamp01(d / m) == d / m
    ensures d / m == 1.0 <==> d == m
  {
    DivAtMostOne(d, m);
    if d / m == 1.0 {
      assert d == (d / m) * m;
    }
  }

  lemma DivAtMostOne(d: real, m: real)
    requires 0.0 <= d <= m && m > 0.0
    ensures 0.0 <= d / m <= 1.0
  {
  }

  /** More links never mean less centrality. */
  lemma CentralityMonotone(nodes: seq<Node>, edges: seq<Link>, a: Id, b: Id)
    requires Degree(edges, a) <= Degree(edges, b)
    ensures DegreeCentrality(nodes, edges, a) <= DegreeCentrality(nodes, edges, b)
  {
    var m := MaxDegree(nodes, edges) as real;
    DivMonotone(Degree(edges, a) as real, Degree(edges, b) as real, m);
    ClampMonotone(Degree(edges, a) as real / m, Degree(edges, b) as real / m);
  }

  lemma DivMonotone(x: real, y: real, m: real)
    requires x <= y && m > 0.0
    ensures x / m <= y / m
  {
  }

  /**
   * The zone recorded for the other end when the link touches id:
   * `zById.get(other)`, which is None both for an unknown node and for a
   * node without zone.
   */
  predicate ZoneSeen(nodes: seq<Node>, e: Link, id: Id, z: Option<string>) {
    (e.source == id && z == Simulate.ZoneOf(nodes, e.target))
    || (e.target == id && z == Simulate.ZoneOf(nodes, e.source))
  }

  /** The set `zones` of `zoneBridgeBonus` after the first n links. */
  function NeighbourZonesUpTo(nodes: seq<Node>, edges: seq<Link>, id: Id, n: nat): (zs: set<Option<string>>)
    requires n <= |edges|
    ensures forall z :: z in zs <==> exists k :: 0 <= k < n && ZoneSeen(nodes, edges[k], id, z)
  {
    if n == 0 then {}
    else
      var e := edges[n - 1];
      NeighbourZonesUpTo(nodes, edges, id, n - 1)
        + (if e.source == id then {Simulate.ZoneOf(nodes, e.target)} else {})
        + (if e.target == id then {Simulate.ZoneOf(nodes, e.source)} else {})
  }

  function NeighbourZones(nodes: seq<Node>, edges: seq<Link>, id: Id): set<Option<string>> {
    NeighbourZonesUpTo(nodes, edges, id, |edges|)
  }

  /**
   * `zoneBridgeBonus(nodes, edges, id)`: 0 for neighbours in at most one
   * zone, 0.5 for two zones, 1 for three or more.
   */
  function ZoneBridgeBonus(nodes: seq<Node>, edges: seq<Link>, id: Id): (r: real)
    ensures 0.0 <= r <= 1.0
    ensures r == 0.0 <==> |NeighbourZones(nodes, edges, id)| <= 1
    ensures r == 0.5 <==> |NeighbourZones(nodes, edges, id)| == 2
    ensures r == 1.0 <==> |NeighbourZones(nodes, edges, id)| >= 3
  {
    Min(1.0, Max(0.0, (|NeighbourZones(nodes, edges, id)| as real - 1.0) / 2.0))
  }

  /**
   * An id linked to a node with a zone and to an id no node lists bridges
   * two "zones": the unknown neighbour's missing zone counts as one.
   */
  lemma UnknownNeighbourCounts(nodes: seq<Node>, edges: seq<Link>, id: Id, i: int, j: int, z: string)
    requires 0 <= i < |edges| && 0 <= j < |edges|
    requires edges[i].source == id && Simulate.ZoneOf(nodes, edges[i].target) == Some(z)
    requires edges[j].source == id && forall k :: 0 <= k < |nodes| ==> nodes[k].id != edges[j].target
    ensures ZoneBridgeBonus(nodes, edges, id) >= 0.5
  {
    var zs := NeighbourZones(nodes, edges, id);
    assert ZoneSeen(nodes, edges[i], id, Some(z));
    assert ZoneSeen(nodes, edges[j], id, None);
    assert {Some(z), None} <= zs;
    assert |{Some(z), None}| == 2;
    SubsetCard({Some(z), None}, zs);
  }

  lemma SubsetCard<T>(a: set<T>, b: set<T>)
    requires a <= b
    ensures |a| <= |b|
  {
    assert b == a + (b - a);
  }

  /** An id with no links bridges nothing. */
  lemma UnlinkedNoBonus(nodes: seq<Node>, edges: seq<Link>, id: Id)
    requires forall k :: 0 <= k < |edges| ==> !Simulate.Touches(edges[k], id)
    ensures ZoneBridgeBonus(nodes, edges, id) == 0.0
  {
  }

  // ---------------------------------------------------------------------------
  // Threat intelligence and context
  // ---------------------------------------------------------------------------

  /**
   * `ctx.intel`: each table may be absent. Due dates are milliseconds since
   * the epoch.
   */
  datatype Intel = Intel(
    epssByCve: Option<map<string, real>>,
    businessImpactById: Option<map<Id, real>>,
    kevSet: Option<set<string>>,
    kevDueByCve: Option<map<string, int>>)

  const NoIntel := Intel(None, None, None, None)

  /** `ctx`: the topology and the intelligence tables. */
  datatype Ctx = Ctx(nodes: seq<Node>, edges: seq<Link>, intel: Intel)

  /** The largest value m gives to one of the first n CVEs, if any has one. */
  function MaxKnownUpTo(cves: seq<string>, m: map<string, real>, n: nat): (r: Option<real>)
    requires n <= |cves|
    ensures r.None? <==> forall k :: 0 <= k < n ==> cves[k] !in m
    ensures r.Some? ==> exists k :: 0 <= k < n && cves[k] in m && m[cves[k]] == r.value
    ensures r.Some? ==> forall k :: 0 <= k < n && cves[k] in m ==> m[cves[k]] <= r.value
  {
    if n == 0 then None
    else
      var r := MaxKnownUpTo(cves, m, n - 1);
      var c := cves[n - 1];
      if c !in m then r
      else if r.None? || m[c] > r.value then Some(m[c])
      else r
  }

  /** `epssFromIntel`: the highest EPSS the intelligence gives to one of the asset's CVEs. */
  function IntelEpss(a: Asset, intel: Intel): (r: Option<real>)
    ensures r.None? <==> intel.epssByCve.None? || forall k :: 0 <= k < |a.cves| ==> a.cves[k] !in intel.epssByCve.value
    ensures r.Some? ==>
      exists k :: 0 <= k < |a.cves| && a.cves[k] in intel.epssByCve.value && intel.epssByCve.value[a.cves[k]] == r.value
    ensures r.Some? ==>
      forall k :: 0 <= k < |a.cves| && a.cves[k] in intel.epssByCve.value ==> intel.epssByCve.value[a.cves[k]] <= r.value
  {
    if intel.epssByCve.None? || |a.cves| == 0 then None
    else MaxKnownUpTo(a.cves, intel.epssByCve.value, |a.cves|)
  }

  /** The EPSS guessed from the CVSS band when the intelligence has none. */
  function FallbackEpss(cvss: real): (r: real)
    ensures cvss >= 9.0 ==> r == 0.6
    ensures 7.0 <= cvss < 9.0 ==> r == 0.35
    ensures 4.0 <= cvss < 7.0 ==> r == 0.12
    ensures cvss < 4.0 ==> r == 0.05
  {
    if cvss >= 9.0 then 0.6 else if cvss >= 7.0 then 0.35 else if cvss >= 4.0 then 0.12 else 0.05
  }

  /** A higher CVSS never lowers the guessed EPSS. */
  lemma FallbackMonotone(c1: real, c2: real)
    requires c1 <= c2
    ensures FallbackEpss(c1) <= FallbackEpss(c2)
  {
  }

  /** `Number.isFinite(asset.vuln) ? asset.vuln : 0`. */
  function CvssBase(a: Asset): real {
    a.vuln.GetOr(0.0)
  }

  /** `clamp01(epssFromIntel ?? fallback)`: the intelligence's EPSS when it has one, else the CVSS-band guess. */
  function Epss(a: Asset, intel: Intel): (r: real)
    ensures 0.0 <= r <= 1.0
    ensures IntelEpss(a, intel).Some? ==> r == Clamp01(IntelEpss(a, intel).value)
    ensures IntelEpss(a, intel).None? ==> r == FallbackEpss(CvssBase(a))
  {
    Clamp01(IntelEpss(a, intel).GetOr(FallbackEpss(CvssBase(a))))
  }

  /** `asset.businessImpact ?? businessImpactById.get(id) ?? defaultBusinessImpact(type)`, clamped. */
  function Bia(a: Asset, intel: Intel): (r: real)
    ensures 0.0 <= r <= 1.0
    ensures a.businessImpact.Some? ==> r == Clamp01(a.businessImpact.value)
    ensures a.businessImpact.None? && intel.businessImpactById.Some? && a.id in intel.businessImpactById.value ==>
      r == Clamp01(intel.businessImpactById.value[a.id])
    ensures a.businessImpact.None? && (intel.businessImpactById.None? || a.id !in intel.businessImpactById.value) ==>
      r == DefaultBusinessImpact(a.deviceType)
  {
    Clamp01(
      if a.businessImpact.Some? then a.businessImpact.value
      else if intel.businessImpactById.Some? && a.id in intel.businessImpactById.value
      then intel.businessImpactById.value[a.id]
      else DefaultBusinessImpact(a.deviceType))
  }

  /** The asset's own business impact wins over any intelligence. */
  lemma OwnImpactWins(a: Asset, i1: Intel, i2: Intel)
    requires a.businessImpact.Some?
    ensures Bia(a, i1) == Bia(a, i2) == Clamp01(a.businessImpact.value)
  {
  }

  /** Some CVE of the asset is in the known-exploited set. */
  predicate Kev(a: Asset, intel: Intel): (b: bool)
    ensures b <==> intel.kevSet.Some? && exists c :: c in a.cves && c in intel.kevSet.value
  {
    intel.kevSet.Some? && exists k :: 0 <= k < |a.cves| && a.cves[k] in intel.kevSet.value
  }

  /** `offlineImpact(ctx.nodes, ctx.edges, asset.id).isSpof`. */
  function Spof(id: Id, ctx: Ctx): (b: bool)
    ensures b <==> id != "" && id in Simulate.ArticulationPoints(ctx.nodes, ctx.edges)
  {
    Simulate.OfflineImpact(ctx.nodes, ctx.edges, Some(id)).isSpof
  }

  /** The topology factor: centrality, zone bridging and a bonus for a single point of failure. */
  function Topo(id: Id, ctx: Ctx): (r: real)
    ensures 0.0 <= r <= 1.0
  {
    Clamp01(0.6 * DegreeCentrality(ctx.nodes, ctx.edges, id)
            + 0.4 * ZoneBridgeBonus(ctx.nodes, ctx.edges, id)
            + (if Spof(id, ctx) then 0.3 else 0.0))
  }

  // ---------------------------------------------------------------------------
  // Score and bucket
  // ---------------------------------------------------------------------------

  datatype Priority = Low | Medium | High | Emergency

  /** The order of the buckets. */
  function Rank(p: Priority): nat {
    match p
    case Low => 0
    case Medium => 1
    case High => 2
    case Emergency => 3
  }

  /** The bucket of a score; a known-exploited CVE is always an emergency. */
  function Bucket(kev: bool, score: real): (p: Priority)
    ensures kev ==> p == Emergency
    ensures !kev ==> (p == Emergency <==> score >= 0.8)
    ensures !kev ==> (p == High <==> 0.6 <= score < 0.8)
    ensures !kev ==> (p == Medium <==> 0.4 <= score < 0.6)
    ensures !kev ==> (p == Low <==> score < 0.4)
  {
    if kev || score >= 0.8 then Emergency
    else if score >= 0.6 then High
    else if score >= 0.4 then Medium
    else Low
  }

  /** Higher scores and a KEV flag never lower the bucket. */
  lemma BucketMonotone(k1: bool, s1: real, k2: bool, s2: real)
    requires (k1 ==> k2) && s1 <= s2
    ensures Rank(Bucket(k1, s1)) <= Rank(Bucket(k2, s2))
  {
  }

  /** The weighted score of the five factors. */
  function Weighted(severity: real, epss: real, bia: real, topo: real, kev: bool): (r: real)
    ensures 0.0 <= r <= 1.0
  {
    Clamp01(0.38 * severity + 0.27 * epss + 0.25 * bia + 0.10 * topo + (if kev then 0.08 else 0.0))
  }

  /** The factors behind a score, as `scorePatchPriority` reports them in `explain`. */
  datatype Breakdown = Breakdown(cvssBase: real, epss: real, bia: real, topo: real, isKev: bool, isSpof: bool)

  datatype Scored = Scored(priority: Priority, score: real, explain: Breakdown)

  /** `scorePatchPriority(asset, ctx)`. */
  function ScorePatchPriority(a: Asset, ctx: Ctx): (s: Scored)
    ensures 0.0 <= s.score <= 1.0
    ensures 0.0 <= s.explain.epss <= 1.0 && 0.0 <= s.explain.bia <= 1.0 && 0.0 <= s.explain.topo <= 1.0
    ensures s.explain.cvssBase == a.vuln.GetOr(0.0)
    ensures s.explain.isKev <==> Kev(a, ctx.intel)
    ensures s.explain.isSpof <==> a.id != "" && a.id in Simulate.ArticulationPoints(ctx.nodes, ctx.edges)
    ensures s.explain.isKev ==> s.priority == Emergency
    ensures s.priority == Bucket(s.explain.isKev, s.score)
  {
    Assemble(CvssBase(a), Epss(a, ctx.intel), Bia(a, ctx.intel), Topo(a.id, ctx), Kev(a, ctx.intel), Spof(a.id, ctx))
  }

  /** The score, bucket and explanation from the factors. */
  function Assemble(cvss: real, epss: real, bia: real, topo: real, kev: bool, spof: bool): (s: Scored)
    ensures s.explain == Breakdown(cvss, epss, bia, topo, kev, spof)
    ensures 0.0 <= s.score <= 1.0
    ensures kev ==> s.priority == Emergency
    ensures s.priority == Bucket(kev, s.score)
  {
    var score := Weighted(Clamp01(cvss / 10.0), epss, bia, topo, kev);
    Scored(Bucket(kev, score), score, Breakdown(cvss, epss, bia, topo, kev, spof))
  }

  /**
   * Raising the CVSS of an asset never lowers its score or its bucket: the
   * severity and the guessed EPSS both grow with it, and nothing else
   * depends on it.
   */
  lemma ScoreGrowsWithCvss(a: Asset, ctx: Ctx, v1: real, v2: real)
    requires v1 <= v2
    ensures var s1 := ScorePatchPriority(a.(vuln := Some(v1)), ctx);
      var s2 := ScorePatchPriority(a.(vuln := Some(v2)), ctx);
      s1.score <= s2.score && Rank(s1.priority) <= Rank(s2.priority)
  {
    var a1 := a.(vuln := Some(v1));
    var a2 := a.(vuln := Some(v2));
    EpssGrowsWithCvss(a, ctx.intel, v1, v2);
    ScoreOfCvss(a, ctx, v1);
    ScoreOfCvss(a, ctx, v2);
    AssembleMonotone(v1, v2, Epss(a1, ctx.intel), Epss(a2, ctx.intel),
                     Bia(a, ctx.intel), Topo(a.id, ctx), Kev(a, ctx.intel), Spof(a.id, ctx));
  }

  /** Only the CVSS and the EPSS of the score depend on the asset's CVSS. */
  lemma ScoreOfCvss(a: Asset, ctx: Ctx, v: real)
    ensures var a1 := a.(vuln := Some(v));
      ScorePatchPriority(a1, ctx)
        == Assemble(v, Epss(a1, ctx.intel), Bia(a, ctx.intel), Topo(a.id, ctx), Kev(a, ctx.intel), Spof(a.id, ctx))
  {
    var a1 := a.(vuln := Some(v));
    assert Kev(a1, ctx.intel) == Kev(a, ctx.intel);
    assert Bia(a1, ctx.intel) == Bia(a, ctx.intel);
  }

  /** A higher CVSS never lowers the EPSS used: the intelligence value ignores it, the guess grows with it. */
  lemma EpssGrowsWithCvss(a: Asset, intel: Intel, v1: real, v2: real)
    requires v1 <= v2
    ensures Epss(a.(vuln := Some(v1)), intel) <= Epss(a.(vuln := Some(v2)), intel)
  {
    var a1 := a.(vuln := Some(v1));
    var a2 := a.(vuln := Some(v2));
    FallbackMonotone(v1, v2);
    assert IntelEpss(a1, intel) == IntelEpss(a2, intel) == IntelEpss(a, intel);
    ClampMonotone(IntelEpss(a, intel).GetOr(FallbackEpss(v1)), IntelEpss(a, intel).GetOr(FallbackEpss(v2)));
  }

  /** A higher CVSS and EPSS never lower the assembled score or bucket. */
  lemma AssembleMonotone(c1: real, c2: real, e1: real, e2: real, bia: real, topo: real, kev: bool, spof: bool)
    requires c1 <= c2 && e1 <= e2
    ensures Assemble(c1, e1, bia, topo, kev, spof).score <= Assemble(c2, e2, bia, topo, kev, spof).score
    ensures Rank(Assemble(c1, e1, bia, topo, kev, spof).priority) <= Rank(Assemble(c2, e2, bia, topo, kev, spof).priority)
  {
    ClampMonotone(c1 / 10.0, c2 / 10.0);
    WeightedMonotone(Clamp01(c1 / 10.0), Clamp01(c2 / 10.0), e1, e2, bia, topo, kev);
    BucketMonotone(kev, Assemble(c1, e1, bia, topo, kev, spof).score, kev, Assemble(c2, e2, bia, topo, kev, spof).score);
  }

  lemma WeightedMonotone(sv1: real, sv2: real, e1: real, e2: real, bia: real, topo: real, kev: bool)
    requires sv1 <= sv2 && e1 <= e2
    ensures Weighted(sv1, e1, bia, topo, kev) <= Weighted(sv2, e2, bia, topo, kev)
  {
    var k := if kev then 0.08 else 0.0;
    ClampMonotone(0.38 * sv1 + 0.27 * e1 + 0.25 * bia + 0.10 * topo + k,
                  0.38 * sv2 + 0.27 * e2 + 0.25 * bia + 0.10 * topo + k);
  }

  // ---------------------------------------------------------------------------
  // SLA and cost of delay
  // ---------------------------------------------------------------------------

  const DayMs := 86400000

  /** `slaDaysFromCvss(cvss)`. */
  function SlaDays(cvss: real): (d: nat)
    ensures d == 7 <==> cvss >= 9.0
    ensures d == 15 <==> 7.0 <= cvss < 9.0
    ensures d == 30 <==> 4.0 <= cvss < 7.0
    ensures d == 60 <==> cvss < 4.0
  {
    if cvss >= 9.0 then 7 else if cvss >= 7.0 then 15 else if cvss >= 4.0 then 30 else 60
  }

  /** A more severe CVSS never allows more days. */
  lemma SlaAntitone(c1: real, c2: real)
    requires c1 <= c2
    ensures SlaDays(c2) <= SlaDays(c1)
  {
  }

  /** The earliest due date m gives to one of the first n CVEs, if any has one. */
  function EarliestUpTo(cves: seq<string>, m: map<string, int>, n: nat): (r: Option<int>)
    requires n <= |cves|
    ensures r.None? <==> forall k :: 0 <= k < n ==> cves[k] !in m
    ensures r.Some? ==> exists k :: 0 <= k < n && cves[k] in m && m[cves[k]] == r.value
    ensures r.Some? ==> forall k :: 0 <= k < n && cves[k] in m ==> r.value <= m[cves[k]]
  {
    if n == 0 then None
    else
      var r := EarliestUpTo(cves, m, n - 1);
      var c := cves[n - 1];
      if c !in m then r
      else if r.None? || m[c] < r.value then Some(m[c])
      else r
  }

  /** The due date from the KEV catalogue, when one of the asset's CVEs has one. */
  function KevDue(a: Asset, intel: Intel): Option<int> {
    if intel.kevDueByCve.None? || |a.cves| == 0 then None
    else EarliestUpTo(a.cves, intel.kevDueByCve.value, |a.cves|)
  }

  datatype Cod = Cod(cod: real, sev: real, dueAt: int, timeLeftDays: int)

  /**
   * `costOfDelay(asset, days, ctx)` at time now: the rounded cost
   * `epss * cvss/10 * bia * days`, the due date (the earliest KEV due date,
   * else the SLA from now) and the whole days left until it.
   */
  function CostOfDelay(a: Asset, days: real, ctx: Ctx, now: int): (c: Cod)
    ensures c.sev == a.vuln.GetOr(0.0)
    ensures var ex := ScorePatchPriority(a, ctx).explain;
      c.cod == CodOf(PerDayRisk(ex), days)
    ensures (c.timeLeftDays - 1) * DayMs < c.dueAt - now <= c.timeLeftDays * DayMs
  {
    var ex := ScorePatchPriority(a, ctx).explain;
    var cod := CodOf(PerDayRisk(ex), days);
    var due := KevDue(a, ctx.intel);
    var dueAt := if due.Some? then due.value else now + SlaDays(ex.cvssBase) * DayMs;
    Cod(cod, ex.cvssBase, dueAt, CeilDiv(dueAt - now, DayMs))
  }

  /**
   * The due date is the earliest KEV due date among the asset's CVEs, and
   * without one it is the SLA deadline, with exactly the SLA days left.
   */
  lemma DueDateMeaning(a: Asset, days: real, ctx: Ctx, now: int)
    ensures var c := CostOfDelay(a, days, ctx, now);
      var m := ctx.intel.kevDueByCve;
      && (m.Some? ==> forall k :: 0 <= k < |a.cves| && a.cves[k] in m.value ==> c.dueAt <= m.value[a.cves[k]])
      && (m.Some? && (exists k :: 0 <= k < |a.cves| && a.cves[k] in m.value) ==>
            exists k :: 0 <= k < |a.cves| && a.cves[k] in m.value && c.dueAt == m.value[a.cves[k]])
      && (KevDue(a, ctx.intel).None? ==>
            c.dueAt == now + SlaDays(c.sev) * DayMs && c.timeLeftDays == SlaDays(c.sev))
  {
    var c := CostOfDelay(a, days, ctx, now);
    if KevDue(a, ctx.intel).None? {
      CeilDivExact(SlaDays(c.sev), DayMs);
    }
  }

  lemma CeilDivExact(d: int, b: int)
    requires b > 0
    ensures CeilDiv(d * b, b) == d
  {
    var r := CeilDiv(d * b, b);
    if r < d {
      MulLe(r, d - 1, b);
    } else if r > d {
      MulLe(d, r - 1, b);
    }
  }

  lemma MulLe(x: int, y: int, b: int)
    requires x <= y && b > 0
    ensures x * b <= y * b
  {
  }

  /** `epss * (cvssBase / 10) * bia`: roughly probability times impact. */
  function PerDayRisk(ex: Breakdown): (r: real)
    ensures 0.0 <= ex.epss && 0.0 <= ex.cvssBase && 0.0 <= ex.bia ==> r >= 0.0
  {
    NonNegProduct(ex.epss, ex.cvssBase / 10.0, ex.bia);
    ex.epss * (ex.cvssBase / 10.0) * ex.bia
  }

  /**
   * The cost of delay written out on the factors of the score:
   * `Math.round(epss * (cvssBase / 10) * bia * days * 100) / 100`.
   */
  lemma CodOfFactors(ex: Breakdown, days: real)
    ensures PerDayRisk(ex) == ex.epss * (ex.cvssBase / 10.0) * ex.bia
    ensures CodOf(PerDayRisk(ex), days) == Hundredths(PerDayRisk(ex) * days)
  {
  }

  lemma NonNegProduct(x: real, y: real, z: real)
    ensures 0.0 <= x && 0.0 <= y && 0.0 <= z ==> x * y * z >= 0.0
  {
    if 0.0 <= x && 0.0 <= y && 0.0 <= z {
      MulMonotone(0.0, x, y);
      MulMonotone(0.0, x * y, z);
    }
  }

  /** `Math.round(perDayRisk * days * 100) / 100`. */
  function CodOf(perDayRisk: real, days: real): real {
    Hundredths(perDayRisk * days)
  }

  /** `Math.round(x * 100) / 100`: x to the nearest hundredth, a half rounded up. */
  function Hundredths(x: real): real {
    Round(x * 100.0) as real / 100.0
  }

  /** The rounded value is a whole number of hundredths, the one nearest x, a half rounded up. */
  lemma HundredthsMeaning(x: real)
    ensures var r := Hundredths(x);
      (r * 100.0).Floor as real == r * 100.0 && r * 100.0 <= x * 100.0 + 0.5 < r * 100.0 + 1.0
  {
  }

  /** For a non-negative daily risk the cost grows with the delay and is never negative. */
  lemma CodOfMonotone(p: real, d1: real, d2: real)
    requires p >= 0.0 && 0.0 <= d1 <= d2
    ensures 0.0 <= CodOf(p, d1) <= CodOf(p, d2)
  {
    MulMonotone(0.0, d1, p);
    MulMonotone(d1, d2, p);
    assert d1 * p == p * d1 && d2 * p == p * d2;
    MulMonotone(p * d1, p * d2, 100.0);
    MulMonotone(0.0, p * d1, 100.0);
    RoundMonotone(0.0, p * d1 * 100.0);
    RoundMonotone(p * d1 * 100.0, p * d2 * 100.0);
    RoundOfInt(0);
  }

  /** Waiting longer never costs less, and the cost is never negative for a non-negative CVSS. */
  lemma CodGrowsWithDelay(a: Asset, d1: real, d2: real, ctx: Ctx, now: int)
    requires 0.0 <= d1 <= d2 && a.vuln.GetOr(0.0) >= 0.0
    ensures 0.0 <= CostOfDelay(a, d1, ctx, now).cod <= CostOfDelay(a, d2, ctx, now).cod
  {
    var ex := ScorePatchPriority(a, ctx).explain;
    CodOfMonotone(PerDayRisk(ex), d1, d2);
  }

  // ---------------------------------------------------------------------------
  // Maintenance windows
  // ---------------------------------------------------------------------------

  const HourMs := 3600000

  /** A maintenance window `[start, end)` in milliseconds. */
  datatype Window = Window(start: int, end: int)

  /** `getDay()` of day number d since the epoch (day 0 is a Thursday): 0 is Sunday. */
  function Weekday(d: int): (w: int)
    ensures 0 <= w < 7
  {
    (d + 4) % 7
  }

  /** The window of day d: 18:00-22:00 on Monday to Friday, 09:00-13:00 at the weekend. */
  function WindowOn(d: int): (w: Window)
    ensures d * DayMs <= w.start && w.end < (d + 1) * DayMs
    ensures 1 <= Weekday(d) <= 5 ==> w.start == d * DayMs + 18 * HourMs && w.end == d * DayMs + 22 * HourMs
    ensures !(1 <= Weekday(d) <= 5) ==> w.start == d * DayMs + 9 * HourMs && w.end == d * DayMs + 13 * HourMs
    ensures w.end - w.start == 240 * 60000
  {
    if 1 <= Weekday(d) <= 5 then Window(d * DayMs + 18 * HourMs, d * DayMs + 22 * HourMs)
    else Window(d * DayMs + 9 * HourMs, d * DayMs + 13 * HourMs)
  }

  /** `upcomingWindows(limitDays)`: one window per day, from the day of now on. */
  function UpcomingWindows(now: int, limitDays: int): (ws: seq<Window>)
    ensures |ws| == if limitDays < 0 then 0 else limitDays
    ensures forall i :: 0 <= i < |ws| ==> ws[i] == WindowOn(now / DayMs + i)
  {
    seq(if limitDays < 0 then 0 else limitDays, d => WindowOn(now / DayMs + d))
  }

  /** The windows follow each other in time without overlapping. */
  lemma WindowsOrdered(now: int, limitDays: int, i: int, j: int)
    requires 0 <= i < j < |UpcomingWindows(now, limitDays)|
    ensures UpcomingWindows(now, limitDays)[i].end < UpcomingWindows(now, limitDays)[j].start
  {
    var ws := UpcomingWindows(now, limitDays);
    var d0 := now / DayMs;
    assert ws[i] == WindowOn(d0 + i) && ws[j] == WindowOn(d0 + j);
    MulLe(d0 + i + 1, d0 + j, DayMs);
  }

  /** The first window, from position i on, that has not ended by now. */
  function FirstOpen(ws: seq<Window>, now: int, i: nat): (r: Option<Window>)
    requires i <= |ws|
    ensures r.None? <==> forall k :: i <= k < |ws| ==> ws[k].end <= now
    ensures r.Some? ==> exists k :: (i <= k < |ws| && ws[k] == r.value && ws[k].end > now
      && forall k2 :: i <= k2 < k ==> ws[k2].end <= now)
    decreases |ws| - i
  {
    if i == |ws| then None
    else if ws[i].end > now then Some(ws[i])
    else FirstOpen(ws, now, i + 1)
  }

  /** `suggestNextWindow(asset, ctx)`: the first of the next 28 windows that has not ended. */
  function SuggestNextWindow(now: int): (r: Option<Window>)
    ensures r == Some(if WindowOn(now / DayMs).end > now then WindowOn(now / DayMs) else WindowOn(now / DayMs + 1))
  {
    FirstOpenOfDays(now);
    FirstOpen(UpcomingWindows(now, 28), now, 0)
  }

  /** Tomorrow's window never ends before now, so the search stops at today's or tomorrow's. */
  lemma FirstOpenOfDays(now: int)
    ensures var d0 := now / DayMs;
      FirstOpen(UpcomingWindows(now, 28), now, 0)
        == Some(if WindowOn(d0).end > now then WindowOn(d0) else WindowOn(d0 + 1))
  {
    var ws := UpcomingWindows(now, 28);
    var d0 := now / DayMs;
    assert ws[0] == WindowOn(d0) && ws[1] == WindowOn(d0 + 1);
    assert now < (d0 + 1) * DayMs;
    if ws[0].end <= now {
      assert FirstOpen(ws, now, 0) == FirstOpen(ws, now, 1);
    }
  }

  /**
   * A window is always found (the `null` result cannot happen): it has not
   * ended, and it starts before two days from now.
   */
  lemma NextWindowFound(now: int)
    ensures var w := SuggestNextWindow(now);
      w.Some? && w.value.end > now && w.value.start < now + 2 * DayMs
  {
    var d0 := now / DayMs;
    assert d0 * DayMs <= now < (d0 + 1) * DayMs;
    assert WindowOn(d0 + 1).end > now;
  }

}
