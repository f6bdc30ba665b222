/**
 * The decision rule chain of `src/decision/decide.js`: Block, then
 * Patch Now (Emergency), then Schedule without a window, then Schedule or
 * Schedule (Different Window) by whether the p90 duration fits the window.
 * The first rule that applies wins.
 */
module Decide {
  import opened Domain
  import Engine
  import Duration
  import Plan
  import Simulate

  /**
   * The decision bundle the pipeline gathers for one asset: the score and
   * its explanation, the cost of delay with its due date, the window, the
   * duration estimate, the offline impact and the plan.
   */
  datatype Bundle = Bundle(
    priority: Engine.Priority,
    explain: Engine.Breakdown,
    cod7d: real,
    sev: real,
    dueAt: int,
    timeLeftDays: int,
    window: Option<Engine.Window>,
    duration: Duration.Estimate,
    impact: Simulate.Impact,
    plan: Plan.PatchPlan)

  /** The window's reserved capacity next to the minutes the patch may need. */
  datatype Capacity = Capacity(required: int, window: int)

  /**
   * The four outcomes. `startAt` is the clock reading of the emergency
   * start; `urgencyNote` is the second note of an emergency (the first one
   * quotes the due date in local time).
   */
  datatype Decision =
    | Block(reason: string, required: seq<string>)
    | PatchNow(startAt: int, approach: Plan.Method, estMinutes: int, dueAt: int, urgencyNote: string,
               prechecks: seq<string>, steps: seq<string>)
    | Unwindowed(reason: string, todo: seq<string>)
    | Windowed(fits: bool, when: Engine.Window, approach: Plan.Method, estMinutes: int,
               capacity: Capacity, notes: seq<string>, prechecks: seq<string>, steps: seq<string>)

  const ActionBlock := "Block"
  const ActionPatchNow := "Patch Now (Emergency)"
  const ActionSchedule := "Schedule"
  const ActionReschedule := "Schedule (Different Window)"

  /** The `action` label of a decision. */
  function Action(d: Decision): (a: string)
    ensures a in [ActionBlock, ActionPatchNow, ActionSchedule, ActionReschedule]
  {
    match d
    case Block(_, _) => ActionBlock
    case PatchNow(_, _, _, _, _, _, _) => ActionPatchNow
    case Unwindowed(_, _) => ActionSchedule
    case Windowed(fits, _, _, _, _, _, _, _) => if fits then ActionSchedule else ActionReschedule
  }

  /** The priority's name as the notes quote it. */
  function PriorityName(p: Engine.Priority): string {
    match p
    case Low => "Low"
    case Medium => "Medium"
    case High => "High"
    case Emergency => "Emergency"
  }

  /** A KEV item due within three days. */
  predicate KevUrgent(s: Bundle) {
    s.explain.isKev && s.timeLeftDays <= 3
  }

  /** The conditions of the emergency rule. */
  predicate Emergency(s: Bundle) {
    KevUrgent(s) || s.timeLeftDays <= 0 || s.priority == Engine.Emergency
  }

  /** A single point of failure without an HA peer to fail over to. */
  predicate Blocked(s: Bundle) {
    s.impact.isSpof && s.plan.approach != Plan.HAFailover
  }

  /** The length of a window in minutes, `(end - start) / 60000`. */
  function WindowMinutes(w: Engine.Window): real {
    (w.end - w.start) as real / 60000.0
  }

  /** `decide(asset, signals)` at clock reading now. */
  function Decide(s: Bundle, now: int): (d: Decision)
    ensures d.Block? <==> Blocked(s)
    ensures d.PatchNow? <==> !Blocked(s) && Emergency(s)
    ensures d.Unwindowed? <==> !Blocked(s) && !Emergency(s) && s.window.None?
    ensures d.Windowed? ==> s.window == Some(d.when)
    ensures d.PatchNow? ==> d.urgencyNote == (if KevUrgent(s) then "KEV item" else "SLA overdue")
    ensures d.PatchNow? || d.Windowed? ==>
      d.approach == s.plan.approach && d.estMinutes == s.duration.p50 && d.steps == s.plan.steps
  {
    if Blocked(s) then
      Block("SPOF without HA path", ["Provision/validate HA peer", "Document rollback"])
    else if Emergency(s) then
      PatchNow(now, s.plan.approach, s.duration.p50, s.dueAt,
        if KevUrgent(s) then "KEV item" else "SLA overdue",
        ["Backup/Snapshot", "Peer/LB drain ready", "Change comms sent"], s.plan.steps)
    else if s.window.None? then
      Unwindowed("No active maintenance window", ["Pick next window", "Line up approvals"])
    else
      var w := s.window.value;
      var minutes := WindowMinutes(w);
      Windowed(s.duration.p90 as real <= minutes, w, s.plan.approach, s.duration.p50,
        Capacity(s.duration.p90, Round(minutes)),
        ["Priority=" + PriorityName(s.priority), "Days left=" + IntToString(s.timeLeftDays)],
        ["Backup/Snapshot", "Rollback defined", "Stakeholders notified"], s.plan.steps)
  }

  /**
   * With a window and no earlier rule applying, the action is Schedule
   * exactly when the p90 estimate fits the window, and the capacity quotes
   * p90 and the rounded window length.
   */
  lemma WindowFit(s: Bundle, now: int)
    requires !Blocked(s) && !Emergency(s) && s.window.Some?
    ensures Action(Decide(s, now)) == ActionSchedule
      <==> s.duration.p90 as real <= WindowMinutes(s.window.value)
    ensures Decide(s, now).capacity == Capacity(s.duration.p90, Round(WindowMinutes(s.window.value)))
  {
  }

  /** A Block stands whatever the priority, the days left, the window or the duration. */
  lemma BlockIgnoresUrgency(s: Bundle, s2: Bundle, now: int)
    requires Blocked(s) && s2.impact.isSpof == s.impact.isSpof && s2.plan == s.plan
    ensures Decide(s2, now) == Decide(s, now)
  {
  }

  /** Less time left never makes a decision less urgent: an emergency stays one. */
  lemma FewerDaysStillEmergency(s: Bundle, days: int, now: int)
    requires days <= s.timeLeftDays
    requires Decide(s, now).PatchNow?
    ensures Decide(s.(timeLeftDays := days), now).PatchNow?
  {
  }

  /** A window at least as long fits whatever a shorter one fits. */
  lemma LongerWindowStillFits(s: Bundle, w: Engine.Window, now: int)
    requires Decide(s, now).Windowed? && Decide(s, now).fits
    requires WindowMinutes(s.window.value) <= WindowMinutes(w)
    ensures Action(Decide(s.(window := Some(w)), now)) == ActionSchedule
  {
  }
}
