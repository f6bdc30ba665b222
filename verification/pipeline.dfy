/**
 * The decision pipeline of the dashboard (`src/SimpleNetworkDashboard.jsx`):
 * score, cost of delay over seven days, next window, baseline duration,
 * offline impact and plan are gathered into one bundle, which the decision
 * rules and then the plain-language story read.
 */
module Pipeline {
  import opened Domain
  import Engine
  import Duration
  import Simulate
  import Plan
  import Decide
  import Explain

  /** The bundle, the decision taken on it and the story told about both. */
  datatype Evaluation = Evaluation(bundle: Decide.Bundle, decision: Decide.Decision, story: Option<Explain.Story>)

  /** The signals gathered for one asset at clock reading now; no duration history is passed. */
  function Gather(a: Asset, ctx: Engine.Ctx, now: int): (b: Decide.Bundle)
    ensures b.explain.isKev ==> b.priority == Engine.Emergency
    ensures b.window.Some? && b.window.value.end > now
    ensures b.duration == Duration.FromBaseline(a.deviceType)
    ensures (b.timeLeftDays - 1) * Engine.DayMs < b.dueAt - now <= b.timeLeftDays * Engine.DayMs
    ensures b.plan.approach == Plan.HAFailover <==> Plan.Classify(a.deviceType) == Plan.NetworkClass && b.impact.isSpof
  {
    var scored := Engine.ScorePatchPriority(a, ctx);
    var c := Engine.CostOfDelay(a, 7.0, ctx, now);
    var window := Engine.SuggestNextWindow(now);
    Engine.NextWindowFound(now);
    var duration := Duration.EstimatePatchDuration(a.deviceType, []);
    var impact := Simulate.OfflineImpact(ctx.nodes, ctx.edges, Some(a.id));
    var plan := Plan.SuggestPatchPlan(a.deviceType, Plan.Urgency(scored.explain.isKev, Some(c.timeLeftDays)), impact);
    Decide.Bundle(scored.priority, scored.explain, c.cod, c.sev, c.dueAt, c.timeLeftDays, window, duration, impact, plan)
  }

  /** The whole evaluation of the selected asset. */
  function Evaluate(a: Asset, ctx: Engine.Ctx, now: int, loc: Explain.Locale): (e: Evaluation)
    ensures e.story.Some?
    ensures !e.decision.Unwindowed?
  {
    var b := Gather(a, ctx, now);
    var d := Decide.Decide(b, now);
    Evaluation(b, d, Explain.ExplainForHumans(Some(a), Some(b), Some(d), loc))
  }

  /** The score and the offline simulation agree on whether the asset is a single point of failure. */
  lemma SpofFlagsAgree(a: Asset, ctx: Engine.Ctx, now: int)
    ensures Gather(a, ctx, now).explain.isSpof == Gather(a, ctx, now).impact.isSpof
  {
  }

  /**
   * The asset is blocked exactly when it is a single point of failure that
   * is not a network device: only network devices get the HA-failover plan.
   */
  lemma BlockedIffSpofOffNetwork(a: Asset, ctx: Engine.Ctx, now: int, loc: Explain.Locale)
    ensures var e := Evaluate(a, ctx, now, loc);
      e.decision.Block? <==> e.bundle.impact.isSpof && Plan.Classify(a.deviceType) != Plan.NetworkClass
  {
  }

  /** A KEV-listed asset is either blocked or patched at once. */
  lemma KevIsPatchedNowOrBlocked(a: Asset, ctx: Engine.Ctx, now: int, loc: Explain.Locale)
    requires Gather(a, ctx, now).explain.isKev
    ensures var d := Evaluate(a, ctx, now, loc).decision;
      d.Block? || d.PatchNow?
  {
  }

  /**
   * The next window always exists and lasts four hours, and every baseline
   * p90 is at most 65 minutes, so a scheduled patch always fits:
   * Schedule (Different Window) never comes out of the pipeline.
   */
  lemma ScheduledAlwaysFits(a: Asset, ctx: Engine.Ctx, now: int, loc: Explain.Locale)
    ensures var e := Evaluate(a, ctx, now, loc);
      Decide.Action(e.decision) != Decide.ActionReschedule
  {
    var b := Gather(a, ctx, now);
    var d := Decide.Decide(b, now);
    if d.Windowed? {
      Duration.BaselineOrdered(a.deviceType);
      Engine.NextWindowFound(now);
      WindowOfFour(now);
      assert b.duration.p90 <= 65;
      Decide.WindowFit(b, now);
    }
  }

  /** The suggested window is one day's window: 240 minutes long. */
  lemma WindowOfFour(now: int)
    ensures Engine.SuggestNextWindow(now).Some? ==>
      Decide.WindowMinutes(Engine.SuggestNextWindow(now).value) == 240.0
  {
    var ws := Engine.UpcomingWindows(now, 28);
    var w := Engine.SuggestNextWindow(now);
    if w.Some? {
      var k :| 0 <= k < |ws| && ws[k] == w.value;
      assert ws[k] == Engine.WindowOn(now / Engine.DayMs + k);
    }
  }

  /** The story's action word follows the decision's action label. */
  lemma StoryFollowsDecision(a: Asset, ctx: Engine.Ctx, now: int, loc: Explain.Locale)
    ensures var e := Evaluate(a, ctx, now, loc);
      && (e.story.value.action == "Patch now" <==> Decide.Action(e.decision) == Decide.ActionPatchNow)
      && (e.story.value.action == "Do not patch yet" <==> Decide.Action(e.decision) == Decide.ActionBlock)
  {
    var e := Evaluate(a, ctx, now, loc);
    Explain.ActionWordFollowsLabel(Some(e.decision));
  }
}
