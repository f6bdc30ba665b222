/**
 * The plain-language narrative of `src/decision/explain.js`: qualitative
 * words for severity, likelihood, impact and topology, a headline and an
 * action word, and the when, why, how and risk lines.
 */
module Explain {
  import opened Domain
  import Engine
  import Plan
  import Decide
  import Simulate

  /**
   * The renderings the narrative borrows from the runtime: a date-time and
   * a time of day in local format, and JavaScript's number-to-text
   * conversion.
   */
  datatype Locale = Locale(dateTime: int -> string, timeOfDay: int -> string, number: real -> string)

  // ---------------------------------------------------------------------------
  // Words
  // ---------------------------------------------------------------------------

  const SevWords: seq<string> := ["low", "moderate", "serious", "very serious"]
  const LikelihoodWords: seq<string> :=
    ["unlikely to be exploited", "could be exploited", "likely to be exploited", "very likely to be exploited soon"]
  const ImpactWords: seq<string> :=
    ["low impact", "helpful but not critical", "important to operations", "critical to operations"]

  /** The band of x among three ascending thresholds: 0 below the first, 3 at or above the last. */
  function Band(x: real, t1: real, t2: real, t3: real): (b: nat)
    requires t1 <= t2 <= t3
    ensures b <= 3
    ensures b == 3 <==> x >= t3
    ensures b == 2 <==> t2 <= x < t3
    ensures b == 1 <==> t1 <= x < t2
    ensures b == 0 <==> x < t1
  {
    if x >= t3 then 3 else if x >= t2 then 2 else if x >= t1 then 1 else 0
  }

  /** A larger value never falls into a lower band. */
  lemma BandMonotone(x: real, y: real, t1: real, t2: real, t3: real)
    requires t1 <= t2 <= t3
    requires x <= y
    ensures Band(x, t1, t2, t3) <= Band(y, t1, t2, t3)
  {
  }

  /** `sevWord(cvss)`: bands at 9, 7 and 4. */
  function SevWord(cvss: real): (w: string)
    ensures w == "very serious" <==> cvss >= 9.0
    ensures w == "serious" <==> 7.0 <= cvss < 9.0
    ensures w == "moderate" <==> 4.0 <= cvss < 7.0
    ensures w == "low" <==> cvss < 4.0
  {
    SevWords[Band(cvss, 4.0, 7.0, 9.0)]
  }

  /** `likelihoodWord(epss)`: bands at 0.75, 0.4 and 0.1. */
  function LikelihoodWord(epss: real): (w: string)
    ensures w == "very likely to be exploited soon" <==> epss >= 0.75
    ensures w == "likely to be exploited" <==> 0.4 <= epss < 0.75
    ensures w == "could be exploited" <==> 0.1 <= epss < 0.4
    ensures w == "unlikely to be exploited" <==> epss < 0.1
  {
    LikelihoodWords[Band(epss, 0.1, 0.4, 0.75)]
  }

  /** `impactWord(bia)`: bands at 0.8, 0.5 and 0.2. */
  function ImpactWord(bia: real): (w: string)
    ensures w == "critical to operations" <==> bia >= 0.8
    ensures w == "important to operations" <==> 0.5 <= bia < 0.8
    ensures w == "helpful but not critical" <==> 0.2 <= bia < 0.5
    ensures w == "low impact" <==> bia < 0.2
  {
    ImpactWords[Band(bia, 0.2, 0.5, 0.8)]
  }

  /**
   * The severity word follows the same CVSS bands as the patch SLA: very
   * serious exactly for the 7-day SLA, serious for 15 days, moderate for 30
   * days and low for 60 days.
   */
  lemma SevWordMatchesSla(cvss: real)
    ensures SevWord(cvss) == SevWords[3] <==> Engine.SlaDays(cvss) == 7
    ensures SevWord(cvss) == SevWords[2] <==> Engine.SlaDays(cvss) == 15
    ensures SevWord(cvss) == SevWords[1] <==> Engine.SlaDays(cvss) == 30
    ensures SevWord(cvss) == SevWords[0] <==> Engine.SlaDays(cvss) == 60
  {
    WordsDistinct();
  }

  /** The four words of each scale are distinct. */
  lemma WordsDistinct()
    ensures forall i, j :: 0 <= i < j < 4 ==> SevWords[i] != SevWords[j]
    ensures forall i, j :: 0 <= i < j < 4 ==> LikelihoodWords[i] != LikelihoodWords[j]
    ensures forall i, j :: 0 <= i < j < 4 ==> ImpactWords[i] != ImpactWords[j]
  {
  }

  const TopoSpof := "removing it would break part of the network"
  const TopoBridge := "it connects important parts of the network"
  const TopoBusy := "it sits in a busy part of the network"
  const TopoSome := "it’s somewhat connected"
  const TopoEdge := "it’s on the edge of the network"

  /** `topoWord(topo, isSpof, lost)`: SPOF, then lost bridges, then centrality bands at 0.66 and 0.33. */
  function TopoWord(topo: real, isSpof: bool, lost: nat): (w: string)
    ensures isSpof ==> w == TopoSpof
    ensures !isSpof && lost > 0 ==> w == TopoBridge
    ensures !isSpof && lost == 0 && topo >= 0.66 ==> w == TopoBusy
    ensures !isSpof && lost == 0 && 0.33 <= topo < 0.66 ==> w == TopoSome
    ensures !isSpof && lost == 0 && topo < 0.33 ==> w == TopoEdge
  {
    if isSpof then TopoSpof
    else if lost > 0 then TopoBridge
    else if topo >= 0.66 then TopoBusy
    else if topo >= 0.33 then TopoSome
    else TopoEdge
  }

  /** `actionWord(action)`: anything but an emergency or a Block reads as scheduling. */
  function ActionWord(d: Option<Decide.Decision>): (w: string)
    ensures w == "Patch now" <==> d.Some? && d.value.PatchNow?
    ensures w == "Do not patch yet" <==> d.Some? && d.value.Block?
    ensures w == "Schedule patch" <==> d.None? || d.value.Windowed? || d.value.Unwindowed?
  {
    if d.Some? && d.value.PatchNow? then "Patch now"
    else if d.Some? && d.value.Block? then "Do not patch yet"
    else "Schedule patch"
  }

  /** The action word reads the decision's action label: the emergency and the Block each have their own word. */
  lemma ActionWordFollowsLabel(d: Option<Decide.Decision>)
    ensures ActionWord(d) == "Patch now" <==> d.Some? && Decide.Action(d.value) == Decide.ActionPatchNow
    ensures ActionWord(d) == "Do not patch yet" <==> d.Some? && Decide.Action(d.value) == Decide.ActionBlock
  {
  }

  // ---------------------------------------------------------------------------
  // Minutes and percentages
  // ---------------------------------------------------------------------------

  /** `fmtMins(m)`: "Hh Mm" from an hour on, else "Mm". */
  function FmtMins(m: int): (s: string)
    ensures |s| >= 2 && s[|s| - 1] == 'm'
  {
    if m >= 60 then IntToString(m / 60) + "h " + IntToString(m % 60) + "m"
    else IntToString(m) + "m"
  }

  /** Distinct non-negative durations render differently. */
  lemma FmtMinsInjective(m1: nat, m2: nat)
    requires FmtMins(m1) == FmtMins(m2)
    ensures m1 == m2
  {
    if m1 >= 60 && m2 >= 60 {
      HoursMinutes(m1);
      HoursMinutes(m2);
      DigitsSplit(NatToString(m1 / 60), "h " + (NatToString(m1 % 60) + "m"),
                  NatToString(m2 / 60), "h " + (NatToString(m2 % 60) + "m"));
      NatToStringInjective(m1 / 60, m2 / 60);
      assert NatToString(m1 % 60) + "m" == ("h " + (NatToString(m1 % 60) + "m"))[2..];
      assert NatToString(m2 % 60) + "m" == ("h " + (NatToString(m2 % 60) + "m"))[2..];
      DigitsSplit(NatToString(m1 % 60), "m", NatToString(m2 % 60), "m");
      NatToStringInjective(m1 % 60, m2 % 60);
    } else if m1 < 60 && m2 < 60 {
      DigitsSplit(NatToString(m1), "m", NatToString(m2), "m");
      NatToStringInjective(m1, m2);
    } else if m1 >= 60 {
      HoursMinutes(m1);
      DigitsSplit(NatToString(m1 / 60), "h " + (NatToString(m1 % 60) + "m"), NatToString(m2), "m");
    } else {
      HoursMinutes(m2);
      DigitsSplit(NatToString(m1), "m", NatToString(m2 / 60), "h " + (NatToString(m2 % 60) + "m"));
    }
  }

  /** A non-negative duration shows an hour part exactly from an hour on. */
  lemma FmtMinsHours(m: nat)
    ensures 'h' in FmtMins(m) <==> m >= 60
  {
    var s := FmtMins(m);
    if m >= 60 {
      HoursMinutes(m);
      assert s[|NatToString(m / 60)|] == 'h';
    } else {
      var a := NatToString(m);
      assert s == a + "m";
      assert forall i :: 0 <= i < |s| ==> s[i] != 'h' by {
        forall i | 0 <= i < |s| ensures s[i] != 'h' {
          if i < |a| { assert s[i] == a[i]; }
        }
      }
    }
  }

  /** The long form of a duration of an hour or more, as digits and separators: a proof aid for the two lemmas above. */
  lemma HoursMinutes(m: nat)
    requires m >= 60
    ensures FmtMins(m) == NatToString(m / 60) + ("h " + (NatToString(m % 60) + "m"))
  {
  }

  /** `pct(x)`: the rounded percentage of x clamped to [0, 1]. */
  function Pct(x: real): (s: string)
    ensures exists n: nat :: n <= 100 && s == NatToString(n) + "%"
  {
    var n := Round(Clamp01(x) * 100.0);
    assert 0 <= n <= 100;
    IntToString(n) + "%"
  }

  // ---------------------------------------------------------------------------
  // The story
  // ---------------------------------------------------------------------------

  datatype Story = Story(headline: string, action: string, when: Option<string>,
                         why: seq<string>, how: seq<string>, risk: string)

  /** The label of a maintenance window: its local start, an arrow, its local end time. */
  function WindowLabel(loc: Locale, w: Engine.Window): string {
    loc.dateTime(w.start) + " → " + loc.timeOfDay(w.end)
  }

  /** `x || d` for a duration: zero falls back to d. */
  function OrDefault(m: int, d: int): int {
    if m == 0 then d else m
  }

  /** The when line: emergency start, then the target window, then the due date. */
  function WhenLine(b: Decide.Bundle, d: Option<Decide.Decision>, loc: Locale): (r: Option<string>)
    ensures r.Some?
  {
    if d.Some? && d.value.PatchNow? then
      Some("Start now and expect about " + FmtMins(OrDefault(b.duration.p50, 30)) + ".")
    else if d.Some? && d.value.Windowed? then
      Some("Target window: " + WindowLabel(loc, d.value.when) + ". Estimated "
        + FmtMins(OrDefault(b.duration.p50, 30)) + " (up to " + FmtMins(OrDefault(b.duration.p90, 45)) + ").")
    else
      Some("Due by " + loc.dateTime(b.dueAt) + " (" + IntToString(if b.timeLeftDays < 0 then 0 else b.timeLeftDays)
        + " days left).")
  }

  const KevLine := "It’s on the government’s known-exploited list."
  const SpofLine := "Taking it offline could split the network; use a failover plan."

  /** The line on isolated devices, quoting their number. */
  function IsolationLine(n: nat): string {
    "If offline, about " + NatToString(n) + " other device(s) could be isolated."
  }

  /** The opening why line: the severity word and the technical score. */
  function SeverityLine(cvss: real, loc: Locale): string {
    "The issue is " + SevWord(cvss) + " (technical score " + loc.number(cvss) + "/10)."
  }

  /** The likelihood why line: the word and the rounded percentage. */
  function LikelihoodLine(epss: real): string {
    "It is " + LikelihoodWord(epss) + " (" + Pct(epss) + " chance)."
  }

  /** The impact why line. */
  function ImpactLine(bia: real): string {
    "This device is " + ImpactWord(bia) + "."
  }

  /** The topology why line. */
  function TopologyLine(topo: real, isSpof: bool, lost: nat): string {
    "In the network, " + TopoWord(topo, isSpof, lost) + "."
  }

  /**
   * The why list: severity, KEV (if listed), likelihood and impact of the
   * clamped EPSS and business impact, topology, then SPOF or isolation.
   */
  function Why(b: Decide.Bundle, loc: Locale): (why: seq<string>)
    ensures |why| == 4 + (if b.explain.isKev then 1 else 0)
      + (if b.impact.isSpof || |b.impact.disconnected| > 0 then 1 else 0)
    ensures why[0] == SeverityLine(b.explain.cvssBase, loc)
    ensures b.explain.isKev ==>
      && why[1] == KevLine
      && why[2] == LikelihoodLine(Clamp01(b.explain.epss))
      && why[3] == ImpactLine(Clamp01(b.explain.bia))
      && why[4] == TopologyLine(b.explain.topo, b.impact.isSpof, b.impact.lostZoneBridges)
    ensures !b.explain.isKev ==>
      && why[1] == LikelihoodLine(Clamp01(b.explain.epss))
      && why[2] == ImpactLine(Clamp01(b.explain.bia))
      && why[3] == TopologyLine(b.explain.topo, b.impact.isSpof, b.impact.lostZoneBridges)
    ensures b.impact.isSpof ==> why[|why| - 1] == SpofLine
    ensures !b.impact.isSpof && |b.impact.disconnected| > 0 ==>
      why[|why| - 1] == IsolationLine(|b.impact.disconnected|)
  {
    var ex := b.explain;
    WhyList(SeverityLine(ex.cvssBase, loc), ex.isKev, LikelihoodLine(Clamp01(ex.epss)), ImpactLine(Clamp01(ex.bia)),
            TopologyLine(ex.topo, b.impact.isSpof, b.impact.lostZoneBridges),
            if b.impact.isSpof then [SpofLine]
            else if |b.impact.disconnected| > 0 then [IsolationLine(|b.impact.disconnected|)]
            else [])
  }

  /** The why lines in order: severity, the KEV line if listed, likelihood, impact, topology, then the closing lines. */
  function WhyList(severity: string, isKev: bool, likelihood: string, impact: string, topology: string,
                   tail: seq<string>): (why: seq<string>)
    ensures |why| == 4 + (if isKev then 1 else 0) + |tail|
    ensures why[0] == severity
    ensures isKev ==> why[1] == KevLine && why[2] == likelihood && why[3] == impact && why[4] == topology
    ensures !isKev ==> why[1] == likelihood && why[2] == impact && why[3] == topology
    ensures why[|why| - |tail|..] == tail
  {
    (if isKev then [severity, KevLine, likelihood, impact, topology] else [severity, likelihood, impact, topology]) + tail
  }

  /** The plain instruction for each patching approach. */
  function ApproachText(m: Plan.Method): string {
    match m
    case HAFailover => "Switch traffic to the standby/peer, patch, then switch back."
    case DrainAndPatch => "Drain it from the load balancer, patch, verify, then return to service."
    case ReplicaSwitchover => "Promote a replica, patch the primary, then rejoin."
    case Rolling => "Patch a small batch at a time to limit impact."
    case Standard => "Follow the standard maintenance steps."
  }

  /** The how list: the approach's instruction, then the plan's steps in order. */
  function How(b: Decide.Bundle): (how: seq<string>)
    ensures |how| == 1 + |b.plan.steps|
    ensures how[0] == ApproachText(b.plan.approach) && how[1..] == b.plan.steps
  {
    [ApproachText(b.plan.approach)] + b.plan.steps
  }

  const RiskBlocked := "Risk of outage is too high right now. Prepare a safer plan first."
  const RiskHigh := "Risk is high; ensure backups, failover and a tested rollback."
  const RiskElevated := "Risk is elevated; notify stakeholders and ensure backups."
  const RiskManageable := "Risk is manageable with the plan shown."

  /** The risk line: Block, then a high-risk plan or a SPOF, then an elevated plan. */
  function RiskLine(b: Decide.Bundle, d: Option<Decide.Decision>): (r: string)
    ensures r in [RiskBlocked, RiskHigh, RiskElevated, RiskManageable]
    ensures d.Some? && d.value.Block? ==> r == RiskBlocked
    ensures r == RiskManageable ==> !b.impact.isSpof
    ensures r == RiskManageable ==> b.plan.risk.Normal?
    ensures r == RiskBlocked <==> d.Some? && d.value.Block?
    ensures !(d.Some? && d.value.Block?) && (b.plan.risk == Plan.High || b.impact.isSpof) ==> r == RiskHigh
    ensures !(d.Some? && d.value.Block?) && !b.impact.isSpof && b.plan.risk == Plan.Elevated ==> r == RiskElevated
    ensures r == RiskManageable <==> !(d.Some? && d.value.Block?) && !b.impact.isSpof && b.plan.risk == Plan.Normal
  {
    if d.Some? && d.value.Block? then RiskBlocked
    else if b.plan.risk == Plan.High || b.impact.isSpof then RiskHigh
    else if b.plan.risk == Plan.Elevated then RiskElevated
    else RiskManageable
  }

  /** The headline names the asset and reads like the action word. */
  function Headline(name: string, d: Option<Decide.Decision>): (h: string)
    ensures d.Some? && d.value.Block? ==> h == "Do not patch " + name + " yet"
    ensures d.Some? && d.value.PatchNow? ==> h == "Patch " + name + " now"
    ensures d.None? || d.value.Windowed? || d.value.Unwindowed? ==> h == "Schedule patch for " + name
  {
    if d.Some? && d.value.Block? then "Do not patch " + name + " yet"
    else if d.Some? && d.value.PatchNow? then "Patch " + name + " now"
    else "Schedule patch for " + name
  }

  /** `explainForHumans(asset, bundle, finalDecision)`; nothing without an asset and a bundle. */
  function ExplainForHumans(a: Option<Asset>, b: Option<Decide.Bundle>, d: Option<Decide.Decision>,
                            loc: Locale): (r: Option<Story>)
    ensures r.None? <==> a.None? || b.None?
  {
    if a.None? || b.None? then None
    else
      Some(Story(Headline(a.value.name, d), ActionWord(d), WhenLine(b.value, d, loc),
                 Why(b.value, loc), How(b.value), RiskLine(b.value, d)))
  }

  /** The headline and the action word tell the same story. */
  lemma HeadlineAgreesWithAction(name: string, d: Option<Decide.Decision>)
    ensures ActionWord(d) == "Do not patch yet" <==> Headline(name, d) == "Do not patch " + name + " yet"
    ensures ActionWord(d) == "Patch now" <==> Headline(name, d) == "Patch " + name + " now"
  {
    var h := Headline(name, d);
    assert h[0] == if d.Some? && d.value.Block? then 'D' else if d.Some? && d.value.PatchNow? then 'P' else 'S';
    assert ("Do not patch " + name + " yet")[0] == 'D';
    assert ("Patch " + name + " now")[0] == 'P';
  }

  /**
   * The when line opens with the emergency start exactly for Patch Now,
   * with the target window exactly for a windowed Schedule, and with the
   * due date otherwise.
   */
  lemma WhenLineFollowsDecision(b: Decide.Bundle, d: Option<Decide.Decision>, loc: Locale)
    ensures var w := WhenLine(b, d, loc).value;
      && |w| > 0
      && (w[0] == 'S' <==> d.Some? && d.value.PatchNow?)
      && (w[0] == 'T' <==> d.Some? && d.value.Windowed?)
      && (w[0] == 'D' <==> !(d.Some? && (d.value.PatchNow? || d.value.Windowed?)))
  {
    var w := WhenLine(b, d, loc).value;
    assert w[0] == if d.Some? && d.value.PatchNow? then 'S' else if d.Some? && d.value.Windowed? then 'T' else 'D';
  }
}
