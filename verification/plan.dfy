/**
 * The patch plan of `src/decision/plan.js`: the device class decides the
 * method and its steps; urgency appends the emergency-change step, and an
 * offline impact raises the risk to elevated and quotes what would be cut
 * off.
 */
module Plan {
  import opened Domain
  import Simulate

  // ---------------------------------------------------------------------------
  // Device classes
  // ---------------------------------------------------------------------------

  const NetPatterns: seq<string> := ["Firewall", "Router", "Switch"]
  const DbPatterns: seq<string> := ["Database"]
  const SrvPatterns: seq<string> := ["Server", "EHR", "HL7", "PACS"]
  const EdgePatterns: seq<string> := ["WiFi AP", "Workstation", "Medical IoT"]

  /** The pattern groups in the order the classifiers are tried. */
  const Groups: seq<seq<string>> := [NetPatterns, DbPatterns, SrvPatterns, EdgePatterns]

  datatype DeviceClass = NetworkClass | DatabaseClass | ServerClass | EdgeClass | OtherClass

  /** The position of a class in the precedence order; `OtherClass` comes last. */
  function Rank(c: DeviceClass): nat {
    match c
    case NetworkClass => 0
    case DatabaseClass => 1
    case ServerClass => 2
    case EdgeClass => 3
    case OtherClass => 4
  }

  /** `isNet`, `isDB`, `isSrv`, `isEdge`, tried in that order. */
  function Classify(t: string): (c: DeviceClass)
    ensures Rank(c) < 4 ==> MatchesAny(t, Groups[Rank(c)])
    ensures forall j :: 0 <= j < Rank(c) ==> !MatchesAny(t, Groups[j])
  {
    if MatchesAny(t, NetPatterns) then NetworkClass
    else if MatchesAny(t, DbPatterns) then DatabaseClass
    else if MatchesAny(t, SrvPatterns) then ServerClass
    else if MatchesAny(t, EdgePatterns) then EdgeClass
    else OtherClass
  }

  /**
   * How the eleven device types of the inventory are classified: firewalls,
   * routers and switches are network devices, the HL7 engine, EHR and PACS
   * are servers, and WiFi access points, workstations and medical IoT are
   * edge devices.
   */
  lemma ClassOfTypes()
    ensures Classify(TypeFirewall) == NetworkClass
    ensures Classify(TypeRouter) == NetworkClass
    ensures Classify(TypeSwitch) == NetworkClass
    ensures Classify(TypeDatabase) == DatabaseClass
    ensures Classify(TypeServer) == ServerClass
    ensures Classify(TypeEHR) == ServerClass
    ensures Classify(TypeHL7) == ServerClass
    ensures Classify(TypePACS) == ServerClass
    ensures Classify(TypeWiFiAP) == EdgeClass
    ensures Classify(TypeWorkstation) == EdgeClass
    ensures Classify(TypeIoMT) == EdgeClass
  {
    FirewallTypeClass();
    RouterTypeClass();
    SwitchTypeClass();
    DatabaseTypeClass();
    ServerTypeClass();
    EHRTypeClass();
    HL7TypeClass();
    PACSTypeClass();
    WiFiAPTypeClass();
    WorkstationTypeClass();
    IoMTTypeClass();
  }

  lemma FirewallTypeClass()
    ensures Classify(TypeFirewall) == NetworkClass
  {
    ClassOfFirewall(TypeFirewall);
  }

  lemma RouterTypeClass()
    ensures Classify(TypeRouter) == NetworkClass
  {
    ClassOfRouter(TypeRouter);
  }

  lemma SwitchTypeClass()
    ensures Classify(TypeSwitch) == NetworkClass
  {
    ClassOfSwitch(TypeSwitch);
  }

  lemma DatabaseTypeClass()
    ensures Classify(TypeDatabase) == DatabaseClass
  {
    ClassOfDatabase(TypeDatabase);
  }

  lemma ServerTypeClass()
    ensures Classify(TypeServer) == ServerClass
  {
    ClassOfServer(TypeServer);
  }

  lemma EHRTypeClass()
    ensures Classify(TypeEHR) == ServerClass
  {
    ClassOfEHR(TypeEHR);
  }

  lemma HL7TypeClass()
    ensures Classify(TypeHL7) == ServerClass
  {
    ClassOfHL7(TypeHL7);
  }

  lemma PACSTypeClass()
    ensures Classify(TypePACS) == ServerClass
  {
    ClassOfPACS(TypePACS);
  }

  lemma WiFiAPTypeClass()
    ensures Classify(TypeWiFiAP) == EdgeClass
  {
    ClassOfWiFiAP(TypeWiFiAP);
  }

  lemma WorkstationTypeClass()
    ensures Classify(TypeWorkstation) == EdgeClass
  {
    WorkstationLacks();
    WorkstationLacksMore();
    ClassOfWorkstation(TypeWorkstation);
  }

  lemma IoMTTypeClass()
    ensures Classify(TypeIoMT) == EdgeClass
  {
    ClassOfIoMT(TypeIoMT);
  }

  /** A type that starts with "Firewall" is classified as NetworkClass. */
  lemma ClassOfFirewall(t: string)
    requires |t| >= 8 && t[..8] == "Firewall"
    ensures Classify(t) == NetworkClass
  {
    FirewallHit(t);
  }

  lemma FirewallHit(t: string)
    requires |t| >= 8 && t[..8] == "Firewall"
    ensures MatchesAny(t, NetPatterns)
  {
    HitGroup(t, NetPatterns, 0, 0);
  }

  /** A type that starts with "Router" is classified as NetworkClass. */
  lemma ClassOfRouter(t: string)
    requires |t| >= 6 && t[..6] == "Router"
    ensures Classify(t) == NetworkClass
  {
    RouterHit(t);
  }

  lemma RouterHit(t: string)
    requires |t| >= 6 && t[..6] == "Router"
    ensures MatchesAny(t, NetPatterns)
  {
    HitGroup(t, NetPatterns, 1, 0);
  }

  /** A type that starts with "Switch" is classified as NetworkClass. */
  lemma ClassOfSwitch(t: string)
    requires |t| >= 6 && t[..6] == "Switch"
    ensures Classify(t) == NetworkClass
  {
    SwitchHit(t);
  }

  lemma SwitchHit(t: string)
    requires |t| >= 6 && t[..6] == "Switch"
    ensures MatchesAny(t, NetPatterns)
  {
    HitGroup(t, NetPatterns, 2, 0);
  }

  /** A type that starts with "Database" and lacks the letters listed is classified as DatabaseClass. */
  lemma ClassOfDatabase(t: string)
    requires 'f' !in t && 'F' !in t && 'o' !in t && 'O' !in t && 'w' !in t && 'W' !in t
    requires |t| >= 8 && t[..8] == "Database"
    ensures Classify(t) == DatabaseClass
  {
    DatabaseMisses(t);
    DatabaseHit(t);
  }

  lemma DatabaseHit(t: string)
    requires |t| >= 8 && t[..8] == "Database"
    ensures MatchesAny(t, DbPatterns)
  {
    HitGroup(t, DbPatterns, 0, 0);
  }

  lemma DatabaseMisses(t: string)
    requires 'f' !in t && 'F' !in t && 'o' !in t && 'O' !in t && 'w' !in t && 'W' !in t
    ensures !MatchesAny(t, NetPatterns)
  {
    MissGroup(t, NetPatterns, [0, 1, 1], ['f', 'o', 'w'], ['F', 'O', 'W']);
  }

  /** A type that starts with "Server" and lacks the letters listed is classified as ServerClass. */
  lemma ClassOfServer(t: string)
    requires 'd' !in t && 'D' !in t && 'f' !in t && 'F' !in t && 'o' !in t && 'O' !in t && 'w' !in t && 'W' !in t
    requires |t| >= 6 && t[..6] == "Server"
    ensures Classify(t) == ServerClass
  {
    ServerMisses(t);
    ServerHit(t);
  }

  lemma ServerHit(t: string)
    requires |t| >= 6 && t[..6] == "Server"
    ensures MatchesAny(t, SrvPatterns)
  {
    HitGroup(t, SrvPatterns, 0, 0);
  }

  lemma ServerMisses(t: string)
    requires 'd' !in t && 'D' !in t && 'f' !in t && 'F' !in t && 'o' !in t && 'O' !in t && 'w' !in t && 'W' !in t
    ensures !MatchesAny(t, NetPatterns) && !MatchesAny(t, DbPatterns)
  {
    MissGroup(t, NetPatterns, [0, 1, 1], ['f', 'o', 'w'], ['F', 'O', 'W']);
    MissGroup(t, DbPatterns, [0], ['d'], ['D']);
  }

  /** A type that starts with "EHR" and lacks the letters listed is classified as ServerClass. */
  lemma ClassOfEHR(t: string)
    requires 'd' !in t && 'D' !in t && 'f' !in t && 'F' !in t && 'o' !in t && 'O' !in t && 'w' !in t && 'W' !in t
    requires |t| >= 3 && t[..3] == "EHR"
    ensures Classify(t) == ServerClass
  {
    ServerMisses(t);
    EHRHit(t);
  }

  lemma EHRHit(t: string)
    requires |t| >= 3 && t[..3] == "EHR"
    ensures MatchesAny(t, SrvPatterns)
  {
    HitGroup(t, SrvPatterns, 1, 0);
  }

  /** A type that starts with "HL7" and lacks the letters listed is classified as ServerClass. */
  lemma ClassOfHL7(t: string)
    requires 'd' !in t && 'D' !in t && 'f' !in t && 'F' !in t && 'o' !in t && 'O' !in t && 'w' !in t && 'W' !in t
    requires |t| >= 3 && t[..3] == "HL7"
    ensures Classify(t) == ServerClass
  {
    ServerMisses(t);
    HL7Hit(t);
  }

  lemma HL7Hit(t: string)
    requires |t| >= 3 && t[..3] == "HL7"
    ensures MatchesAny(t, SrvPatterns)
  {
    HitGroup(t, SrvPatterns, 2, 0);
  }

  /** A type that starts with "PACS" and lacks the letters listed is classified as ServerClass. */
  lemma ClassOfPACS(t: string)
    requires 'd' !in t && 'D' !in t && 'f' !in t && 'F' !in t && 'o' !in t && 'O' !in t && 'w' !in t && 'W' !in t
    requires |t| >= 4 && t[..4] == "PACS"
    ensures Classify(t) == ServerClass
  {
    ServerMisses(t);
    PACSHit(t);
  }

  lemma PACSHit(t: string)
    requires |t| >= 4 && t[..4] == "PACS"
    ensures MatchesAny(t, SrvPatterns)
  {
    HitGroup(t, SrvPatterns, 3, 0);
  }

  /** A type that starts with "WiFi AP" and lacks the letters listed is classified as EdgeClass. */
  lemma ClassOfWiFiAP(t: string)
    requires 'c' !in t && 'C' !in t && 'd' !in t && 'D' !in t && 'e' !in t && 'E' !in t && 'h' !in t && 'H' !in t
    requires 'o' !in t && 'O' !in t && 'r' !in t && 'R' !in t && 's' !in t && 'S' !in t
    requires |t| >= 7 && t[..7] == "WiFi AP"
    ensures Classify(t) == EdgeClass
  {
    WiFiAPMisses(t);
    WiFiAPHit(t);
  }

  lemma WiFiAPHit(t: string)
    requires |t| >= 7 && t[..7] == "WiFi AP"
    ensures MatchesAny(t, EdgePatterns)
  {
    HitGroup(t, EdgePatterns, 0, 0);
  }

  lemma WiFiAPMisses(t: string)
    requires 'c' !in t && 'C' !in t && 'd' !in t && 'D' !in t && 'e' !in t && 'E' !in t && 'h' !in t && 'H' !in t
    requires 'o' !in t && 'O' !in t && 'r' !in t && 'R' !in t && 's' !in t && 'S' !in t
    ensures !MatchesAny(t, NetPatterns) && !MatchesAny(t, DbPatterns) && !MatchesAny(t, SrvPatterns)
  {
    MissGroup(t, NetPatterns, [2, 1, 0], ['r', 'o', 's'], ['R', 'O', 'S']);
    MissGroup(t, DbPatterns, [0], ['d'], ['D']);
    MissGroup(t, SrvPatterns, [0, 0, 0, 2], ['s', 'e', 'h', 'c'], ['S', 'E', 'H', 'C']);
  }

  /** A type that starts with "Workstation" and lacks the letters listed is classified as EdgeClass. */
  lemma ClassOfWorkstation(t: string)
    requires 'c' !in t && 'C' !in t && 'd' !in t && 'D' !in t && 'e' !in t && 'E' !in t && 'f' !in t && 'F' !in t
    requires 'h' !in t && 'H' !in t && 'p' !in t && 'P' !in t && 'u' !in t && 'U' !in t
    requires |t| >= 11 && t[..11] == "Workstation"
    ensures Classify(t) == EdgeClass
  {
    WorkstationMisses(t);
    WorkstationHit(t);
  }

  lemma WorkstationHit(t: string)
    requires |t| >= 11 && t[..11] == "Workstation"
    ensures MatchesAny(t, EdgePatterns)
  {
    HitGroup(t, EdgePatterns, 1, 0);
  }

  lemma WorkstationMisses(t: string)
    requires 'c' !in t && 'C' !in t && 'd' !in t && 'D' !in t && 'e' !in t && 'E' !in t && 'f' !in t && 'F' !in t
    requires 'h' !in t && 'H' !in t && 'p' !in t && 'P' !in t && 'u' !in t && 'U' !in t
    ensures !MatchesAny(t, NetPatterns) && !MatchesAny(t, DbPatterns) && !MatchesAny(t, SrvPatterns)
  {
    MissGroup(t, NetPatterns, [0, 2, 4], ['f', 'u', 'c'], ['F', 'U', 'C']);
    MissGroup(t, DbPatterns, [0], ['d'], ['D']);
    MissGroup(t, SrvPatterns, [1, 0, 0, 0], ['e', 'e', 'h', 'p'], ['E', 'E', 'H', 'P']);
  }

  /** A type that starts with "Medical IoT" and lacks the letters listed is classified as EdgeClass. */
  lemma ClassOfIoMT(t: string)
    requires 'b' !in t && 'B' !in t && 'f' !in t && 'F' !in t && 'h' !in t && 'H' !in t && 'p' !in t && 'P' !in t
    requires 'r' !in t && 'R' !in t && 's' !in t && 'S' !in t
    requires |t| >= 11 && t[..11] == "Medical IoT"
    ensures Classify(t) == EdgeClass
  {
    IoMTMisses(t);
    IoMTHit(t);
  }

  lemma IoMTHit(t: string)
    requires |t| >= 11 && t[..11] == "Medical IoT"
    ensures MatchesAny(t, EdgePatterns)
  {
    HitGroup(t, EdgePatterns, 2, 0);
  }

  lemma IoMTMisses(t: string)
    requires 'b' !in t && 'B' !in t && 'f' !in t && 'F' !in t && 'h' !in t && 'H' !in t && 'p' !in t && 'P' !in t
    requires 'r' !in t && 'R' !in t && 's' !in t && 'S' !in t
    ensures !MatchesAny(t, NetPatterns) && !MatchesAny(t, DbPatterns) && !MatchesAny(t, SrvPatterns)
  {
    MissGroup(t, NetPatterns, [0, 0, 0], ['f', 'r', 's'], ['F', 'R', 'S']);
    MissGroup(t, DbPatterns, [4], ['b'], ['B']);
    MissGroup(t, SrvPatterns, [0, 1, 0, 0], ['s', 'h', 'h', 'p'], ['S', 'H', 'H', 'P']);
  }

  // ---------------------------------------------------------------------------
  // The plan
  // ---------------------------------------------------------------------------

  datatype Method = Standard | HAFailover | Rolling | ReplicaSwitchover | DrainAndPatch

  /** The method's name as the plan reports it. */
  function MethodName(m: Method): string {
    match m
    case Standard => "standard"
    case HAFailover => "HA-failover"
    case Rolling => "rolling"
    case ReplicaSwitchover => "replica-switchover"
    case DrainAndPatch => "drain-and-patch"
  }

  datatype PlanRisk = Normal | High | Elevated

  /** A plan: the patching approach (the `method` field), the risk level and the steps. */
  datatype PatchPlan = PatchPlan(approach: Method, risk: PlanRisk, steps: seq<string>)

  /** The part of the decision the plan reads: the KEV flag and the days left, if known. */
  datatype Urgency = Urgency(isKev: bool, timeLeftDays: Option<int>)

  /** A KEV item, or a known deadline that has passed. */
  predicate Urgent(u: Urgency) {
    u.isKev || (u.timeLeftDays.Some? && u.timeLeftDays.value <= 0)
  }

  /** Taking the device offline would isolate devices or break zone bridges. */
  predicate Exposed(impact: Simulate.Impact) {
    |impact.disconnected| > 0 || impact.lostZoneBridges > 0
  }

  const StepHaPeer := "Ensure an HA peer is healthy and in-sync."
  const StepHaSwap := "Fail traffic to peer; patch passive; verify; reverse roles; patch second."
  const StepDrainLinks := "Drain/reroute adjacent links; patch; restore."
  const StepBackup := "Confirm recent backup/snapshot."
  const StepPromote := "Promote replica / switch primary; patch old primary; rejoin."
  const StepDrainLb := "Remove from LB / drain sessions; patch; health-check; re-add."
  const StepBatches := "Patch in small batches to limit client impact."
  const StepSop := "Follow standard maintenance SOP for this class."
  const StepUrgent := "Treat as emergency change if no near-term window exists (document variance)."

  const IsolationPre := "Taking offline could isolate "
  const IsolationMid := " device(s) and break "
  const IsolationPost := " zone bridge(s)."

  /** The step that quotes what going offline would cut off. */
  function IsolationStep(devices: nat, bridges: nat): string {
    Quote(IsolationPre, IsolationMid, IsolationPost, devices, bridges)
  }

  /** Text with two numbers spliced in: `${pre}${n}${mid}${m}${post}`. */
  function Quote(pre: string, mid: string, post: string, n: nat, m: nat): string {
    pre + (NatToString(n) + (mid + (NatToString(m) + post)))
  }

  /** The method, the risk before the offline check, and the class's steps. */
  function ClassPlan(c: DeviceClass, isSpof: bool): PatchPlan {
    match c
    case NetworkClass =>
      if isSpof then PatchPlan(HAFailover, High, [StepHaPeer, StepHaSwap])
      else PatchPlan(Rolling, Normal, [StepDrainLinks])
    case DatabaseClass => PatchPlan(ReplicaSwitchover, Normal, [StepBackup, StepPromote])
    case ServerClass => PatchPlan(DrainAndPatch, Normal, [StepDrainLb])
    case EdgeClass => PatchPlan(Rolling, Normal, [StepBatches])
    case OtherClass => PatchPlan(Standard, Normal, [StepSop])
  }

  /** `suggestPatchPlan(asset, decision, impact)`. */
  function SuggestPatchPlan(t: string, u: Urgency, impact: Simulate.Impact): (p: PatchPlan)
    ensures |p.steps| > 0
    ensures p.approach == HAFailover <==> Classify(t) == NetworkClass && impact.isSpof
    ensures p.risk == Elevated <==> Exposed(impact)
    ensures !Exposed(impact) ==> (p.risk == High <==> p.approach == HAFailover)
    ensures Exposed(impact) ==>
      p.steps[|p.steps| - 1] == IsolationStep(|impact.disconnected|, impact.lostZoneBridges)
  {
    var base := ClassPlan(Classify(t), impact.isSpof);
    var steps := base.steps + (if Urgent(u) then [StepUrgent] else []);
    if Exposed(impact) then
      PatchPlan(base.approach, Elevated,
        steps + [IsolationStep(|impact.disconnected|, impact.lostZoneBridges)])
    else PatchPlan(base.approach, base.risk, steps)
  }

  /** The class's own steps come first, in order, with one or two of them. */
  lemma ClassStepsFirst(t: string, u: Urgency, impact: Simulate.Impact)
    ensures var n := |ClassPlan(Classify(t), impact.isSpof).steps|;
      && 1 <= n <= 2 && n <= |SuggestPatchPlan(t, u, impact).steps|
      && SuggestPatchPlan(t, u, impact).steps[..n] == ClassPlan(Classify(t), impact.isSpof).steps
  {
    var base := ClassPlan(Classify(t), impact.isSpof).steps;
    var steps := base + (if Urgent(u) then [StepUrgent] else []);
    var p := SuggestPatchPlan(t, u, impact).steps;
    assert p == steps || p == steps + [IsolationStep(|impact.disconnected|, impact.lostZoneBridges)];
    assert p[..|base|] == base;
  }

  /**
   * The emergency-change step follows the class's steps exactly when the
   * decision is urgent, and the isolation step comes last exactly when the
   * device is exposed; there are no other steps.
   */
  lemma StepCount(t: string, u: Urgency, impact: Simulate.Impact)
    ensures var n := |ClassPlan(Classify(t), impact.isSpof).steps|;
      && |SuggestPatchPlan(t, u, impact).steps| == n + (if Urgent(u) then 1 else 0) + (if Exposed(impact) then 1 else 0)
      && (Urgent(u) ==> SuggestPatchPlan(t, u, impact).steps[n] == StepUrgent)
  {
  }

  /** The isolation step determines both counts it quotes. */
  lemma IsolationStepQuotes(d1: nat, b1: nat, d2: nat, b2: nat)
    requires IsolationStep(d1, b1) == IsolationStep(d2, b2)
    ensures d1 == d2 && b1 == b2
  {
    assert IsolationMid[0] == ' ' && IsolationPost[0] == ' ';
    QuotesInjective(IsolationPre, IsolationMid, IsolationPost, d1, b1, d2, b2);
  }

  /** Both numbers can be read back from the spliced text. */
  lemma QuotesInjective(pre: string, mid: string, post: string, n1: nat, m1: nat, n2: nat, m2: nat)
    requires |mid| > 0 && !('0' <= mid[0] <= '9') && |post| > 0 && !('0' <= post[0] <= '9')
    requires Quote(pre, mid, post, n1, m1) == Quote(pre, mid, post, n2, m2)
    ensures n1 == n2 && m1 == m2
  {
    var y1 := NatToString(m1) + post;
    var y2 := NatToString(m2) + post;
    CancelPrefix(pre, NatToString(n1) + (mid + y1), NatToString(n2) + (mid + y2));
    assert (mid + y1)[0] == mid[0] && (mid + y2)[0] == mid[0];
    DigitsSplit(NatToString(n1), mid + y1, NatToString(n2), mid + y2);
    NatToStringInjective(n1, n2);
    CancelPrefix(mid, y1, y2);
    DigitsSplit(NatToString(m1), post, NatToString(m2), post);
    NatToStringInjective(m1, m2);
  }

  lemma CancelPrefix(p: string, a: string, b: string)
    requires p + a == p + b
    ensures a == b
  {
    assert a == (p + a)[|p|..];
    assert b == (p + b)[|p|..];
  }
}
