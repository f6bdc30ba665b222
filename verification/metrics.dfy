/**
 * The dashboard metrics of `src/metrics.js`: patch compliance, availability
 * against the agreed service time, the backlog ETA, the median detection
 * and response times, the alert counts of the last window and the
 * criticality of an asset.
 */
module Metrics {
  import opened Domain

  // ---------------------------------------------------------------------------
  // Patch compliance
  // ---------------------------------------------------------------------------

  /** An asset's patch level, 0 when unknown (`a.patch ?? 0`). */
  function PatchLevel(a: Asset): real {
    if a.patch.Some? then a.patch.value else 0.0
  }

  predicate Compliant(a: Asset, target: real) {
    PatchLevel(a) >= target
  }

  /** The number of compliant assets among the first n. */
  function CountCompliant(assets: seq<Asset>, target: real, n: nat): (c: nat)
    requires n <= |assets|
    ensures c <= n
  {
    if n == 0 then 0
    else CountCompliant(assets, target, n - 1) + (if Compliant(assets[n - 1], target) then 1 else 0)
  }

  /** Every one of the first n assets is compliant exactly when all n are counted; none exactly when none are. */
  lemma {:induction false} CountCompliantExtremes(assets: seq<Asset>, target: real, n: nat)
    requires n <= |assets|
    ensures CountCompliant(assets, target, n) == n <==> forall i :: 0 <= i < n ==> Compliant(assets[i], target)
    ensures CountCompliant(assets, target, n) == 0 <==> forall i :: 0 <= i < n ==> !Compliant(assets[i], target)
  {
    if n > 0 {
      CountCompliantExtremes(assets, target, n - 1);
    }
  }

  /** Raising the target never makes more assets compliant. */
  lemma {:induction false} CountCompliantAntitone(assets: seq<Asset>, t1: real, t2: real, n: nat)
    requires n <= |assets| && t1 <= t2
    ensures CountCompliant(assets, t2, n) <= CountCompliant(assets, t1, n)
  {
    if n > 0 {
      CountCompliantAntitone(assets, t1, t2, n - 1);
    }
  }

  datatype Compliance = Compliance(compliancePct: int, total: nat, compliant: nat, targetPct: int)

  /** `metricPatchCompliance(assets, patchTarget)`; the target defaults to 0.9 at the call. */
  function PatchCompliance(assets: seq<Asset>, target: real): (r: Compliance)
    ensures r.total == if |assets| == 0 then 1 else |assets|
    ensures r.compliant <= r.total
    ensures 0 <= r.compliancePct <= 100
    ensures |assets| == 0 ==> r.compliant == 0 && r.compliancePct == 0
    ensures r.compliant == |assets| <==> forall i :: 0 <= i < |assets| ==> Compliant(assets[i], target)
    ensures r.targetPct == Round(target * 100.0)
  {
    var total := if |assets| == 0 then 1 else |assets|;
    var compliant := CountCompliant(assets, target, |assets|);
    CountCompliantExtremes(assets, target, |assets|);
    var ratio := compliant as real / total as real;
    UnitRatio(compliant as real, total as real);
    PercentRounds(ratio);
    Compliance(Round(ratio * 100.0), total, compliant, Round(target * 100.0))
  }

  const DefaultPatchTarget := 0.9

  /** A fraction in [0, 1] rounds to a whole percentage in [0, 100], and 0 to 0. */
  lemma PercentRounds(x: real)
    requires 0.0 <= x <= 1.0
    ensures 0 <= Round(x * 100.0) <= 100
    ensures x == 0.0 ==> Round(x * 100.0) == 0
  {
    RoundOfInt(0);
    RoundOfInt(100);
    RoundMonotone(0.0, x * 100.0);
    RoundMonotone(x * 100.0, 100.0);
  }

  // ---------------------------------------------------------------------------
  // Availability
  // ---------------------------------------------------------------------------

  /**
   * `metricAvailabilitySLA`: the percentage of the agreed service minutes
   * (at least 1) not lost to downtime, rounded to two decimals. A missing
   * downtime is 0.
   */
  function AvailabilitySla(agreedServiceMinutes: real, downtimeMinutes: Option<real>): (r: real)
    ensures 0.0 <= r <= 100.0
    ensures downtimeMinutes.None? || downtimeMinutes.value <= 0.0 ==> r == 100.0
    ensures downtimeMinutes.Some? && downtimeMinutes.value >= Max(1.0, agreedServiceMinutes) ==> r == 0.0
  {
    var ast := Max(1.0, agreedServiceMinutes);
    var dt := Clamp(if downtimeMinutes.Some? then downtimeMinutes.value else 0.0, 0.0, ast);
    var up := (ast - dt) / ast;
    UnitRatio(ast - dt, ast);
    RoundOfInt(10000);
    RoundOfInt(0);
    Round(up * 100.0 * 100.0) as real / 100.0
  }

  /** A part of a positive whole is a fraction in [0, 1], and 1 for the whole itself. */
  lemma UnitRatio(x: real, y: real)
    requires 0.0 <= x <= y && y > 0.0
    ensures 0.0 <= x / y <= 1.0
    ensures x == y ==> x / y == 1.0
  {
    assert x / y * y == x;
  }

  /** More downtime never raises availability. */
  lemma AvailabilityAntitone(agreed: real, d1: real, d2: real)
    requires d1 <= d2
    ensures AvailabilitySla(agreed, Some(d2)) <= AvailabilitySla(agreed, Some(d1))
  {
    var ast := Max(1.0, agreed);
    var c1 := Clamp(d1, 0.0, ast);
    var c2 := Clamp(d2, 0.0, ast);
    assert c1 <= c2;
    var u1 := (ast - c1) / ast;
    var u2 := (ast - c2) / ast;
    assert u2 <= u1 by {
      assert u1 - u2 == (c2 - c1) / ast;
    }
    RoundMonotone(u2 * 100.0 * 100.0, u1 * 100.0 * 100.0);
  }

  // ---------------------------------------------------------------------------
  // Backlog ETA
  // ---------------------------------------------------------------------------

  /** `metricETA(backlog, perDay)`: whole days to clear the backlog; `None` stands for Infinity. */
  function Eta(backlog: real, perDay: real): (r: Option<int>)
    ensures r.None? <==> perDay <= 0.0
    ensures r.Some? ==> (r.value - 1) as real * perDay < backlog <= r.value as real * perDay
  {
    if perDay <= 0.0 then None
    else
      var q := backlog / perDay;
      var c := Ceil(q);
      assert backlog == q * perDay;
      MulMonotone(q, c as real, perDay);
      assert (c - 1) as real * perDay < q * perDay by {
        assert (c - 1) as real < q;
      }
      Some(c)
  }

  /** For whole numbers the ETA is the integer ceiling of the division. */
  lemma EtaOfIntegers(backlog: int, perDay: int)
    requires perDay > 0
    ensures Eta(backlog as real, perDay as real) == Some(CeilDiv(backlog, perDay))
  {
    var r := Eta(backlog as real, perDay as real).value;
    var c := CeilDiv(backlog, perDay);
    CeilUnique(r, c, backlog, perDay);
  }

  /** At most one integer r has (r - 1) * p < b <= r * p. */
  lemma CeilUnique(r: int, c: int, b: int, p: int)
    requires p > 0
    requires (r - 1) * p < b <= r * p
    requires (c - 1) * p < b <= c * p
    ensures r == c
  {
    assert (r - 1 - c) * p == (r - 1) * p - c * p;
    NegFactor(r - 1 - c, p);
    assert (c - 1 - r) * p == (c - 1) * p - r * p;
    NegFactor(c - 1 - r, p);
  }

  /** A negative product with a positive factor has a negative other factor. */
  lemma NegFactor(x: int, p: int)
    requires p > 0 && x * p < 0
    ensures x < 0
  {
  }

  /** A larger backlog never takes fewer days. */
  lemma EtaMonotone(b1: real, b2: real, perDay: real)
    requires b1 <= b2 && perDay > 0.0
    ensures Eta(b1, perDay).value <= Eta(b2, perDay).value
  {
    var r1 := Eta(b1, perDay).value;
    var r2 := Eta(b2, perDay).value;
    if r1 > r2 {
      MulMonotone(r2 as real, (r1 - 1) as real, perDay);
    }
  }

  // ---------------------------------------------------------------------------
  // Mean time to detect and to respond
  // ---------------------------------------------------------------------------

  /** An incident's creation, detection and response timestamps in milliseconds. */
  datatype Incident = Incident(created: int, detected: int, responded: int)

  /** Detection lags run from creation to detection, response lags from detection to response. */
  datatype Lag = DetectLag | RespondLag

  function From(i: Incident, k: Lag): int {
    if k == DetectLag then i.created else i.detected
  }

  function To(i: Incident, k: Lag): int {
    if k == DetectLag then i.detected else i.responded
  }

  /** The incident's lag of kind k in minutes. */
  function Minutes(i: Incident, k: Lag): real {
    (To(i, k) - From(i, k)) as real / 60000.0
  }

  /** The lags in minutes of those of the first n incidents whose lag is not negative, in order. */
  function Lags(incidents: seq<Incident>, k: Lag, n: nat): (ls: seq<real>)
    requires n <= |incidents|
    ensures |ls| <= n
    ensures forall j :: 0 <= j < |ls| ==> ls[j] >= 0.0
  {
    if n == 0 then []
    else
      var i := incidents[n - 1];
      Lags(incidents, k, n - 1) + (if To(i, k) >= From(i, k) then [Minutes(i, k)] else [])
  }

  /** Exactly the incidents with a non-negative lag contribute their lag. */
  lemma {:induction false} LagsMeaning(incidents: seq<Incident>, k: Lag, n: nat, x: real)
    requires n <= |incidents|
    ensures x in Lags(incidents, k, n) <==>
      exists j :: 0 <= j < n && To(incidents[j], k) >= From(incidents[j], k) && Minutes(incidents[j], k) == x
  {
    if n > 0 {
      LagsMeaning(incidents, k, n - 1, x);
      var i := incidents[n - 1];
      if To(i, k) >= From(i, k) && Minutes(i, k) == x {
        assert x in Lags(incidents, k, n);
      }
    }
  }

  /** No lag at all exactly when no incident has a non-negative lag. */
  lemma {:induction false} LagsEmpty(incidents: seq<Incident>, k: Lag, n: nat)
    requires n <= |incidents|
    ensures |Lags(incidents, k, n)| == 0 <==> forall j :: 0 <= j < n ==> To(incidents[j], k) < From(incidents[j], k)
  {
    if n > 0 {
      LagsEmpty(incidents, k, n - 1);
    }
  }

  datatype MeanTimes = MeanTimes(mttdMin: int, mttrMin: int)

  /** The rounded median lag of kind k. */
  function MedianLag(incidents: seq<Incident>, k: Lag): (m: int)
    ensures m >= 0
  {
    var ls := Lags(incidents, k, |incidents|);
    MedianBetweenMinMax(ls);
    RoundMonotone(0.0, Median(ls));
    RoundOfInt(0);
    Round(Median(ls))
  }

  /** `metricMTTx(incidents)`: the rounded median detection and response lags in minutes. */
  function Mttx(incidents: seq<Incident>): (r: MeanTimes)
    ensures r.mttdMin >= 0 && r.mttrMin >= 0
  {
    MeanTimes(MedianLag(incidents, DetectLag), MedianLag(incidents, RespondLag))
  }

  /** When no incident has a non-negative lag of a kind, its mean time is 0. */
  lemma MttxNoneQualify(incidents: seq<Incident>, k: Lag)
    requires forall j :: 0 <= j < |incidents| ==> To(incidents[j], k) < From(incidents[j], k)
    ensures MedianLag(incidents, k) == 0
  {
    LagsEmpty(incidents, k, |incidents|);
    RoundOfInt(0);
  }

  /** The mean time of a kind does not depend on the order of the incidents. */
  lemma MttxOrderFree(a: seq<Incident>, b: seq<Incident>, k: Lag)
    requires multiset(Lags(a, k, |a|)) == multiset(Lags(b, k, |b|))
    ensures MedianLag(a, k) == MedianLag(b, k)
  {
    MedianPermutation(Lags(a, k, |a|), Lags(b, k, |b|));
  }

  // ---------------------------------------------------------------------------
  // Alert counts
  // ---------------------------------------------------------------------------

  datatype Alert = Alert(time: int, severity: string)

  /** The alerts among the first n at or after the cutoff, in order. */
  function Recent(alerts: seq<Alert>, since: int, n: nat): (rs: seq<Alert>)
    requires n <= |alerts|
    ensures |rs| <= n
  {
    if n == 0 then []
    else Recent(alerts, since, n - 1) + (if alerts[n - 1].time >= since then [alerts[n - 1]] else [])
  }

  /** Each alert at or after the cutoff is kept as often as it occurs; the others are dropped. */
  lemma {:induction false} RecentMultiset(alerts: seq<Alert>, since: int, n: nat, a: Alert)
    requires n <= |alerts|
    ensures multiset(Recent(alerts, since, n))[a] ==
      if a.time >= since then multiset(alerts[..n])[a] else 0
  {
    if n > 0 {
      RecentMultiset(alerts, since, n - 1, a);
      var x := alerts[n - 1];
      var prev := Recent(alerts, since, n - 1);
      assert alerts[..n] == alerts[..n - 1] + [x];
      CountSnoc(alerts[..n - 1], x, a);
      if x.time >= since {
        CountSnoc(prev, x, a);
      }
    }
  }

  /** Appending x adds one occurrence of x and none of anything else. */
  lemma CountSnoc(s: seq<Alert>, x: Alert, a: Alert)
    ensures multiset(s + [x])[a] == multiset(s)[a] + (if x == a then 1 else 0)
  {
    assert multiset(s + [x]) == multiset(s) + multiset{x};
  }

  /** The number of alerts of severity s among the first n. */
  function CountSeverity(rs: seq<Alert>, s: string, n: nat): (c: nat)
    requires n <= |rs|
    ensures c <= n
  {
    if n == 0 then 0 else CountSeverity(rs, s, n - 1) + (if rs[n - 1].severity == s then 1 else 0)
  }

  /** The tally before any alert: each severity of `SEV` at 0. */
  const ZeroCounts: map<string, nat> := map["low" := 0, "medium" := 0, "high" := 0, "critical" := 0]

  /** `counts[a.severity] = (counts[a.severity] || 0) + 1` over the first n alerts. */
  function Tally(rs: seq<Alert>, n: nat): (m: map<string, nat>)
    requires n <= |rs|
    ensures ZeroCounts.Keys <= m.Keys
  {
    if n == 0 then ZeroCounts
    else
      var m := Tally(rs, n - 1);
      var s := rs[n - 1].severity;
      m[s := (if s in m then m[s] else 0) + 1]
  }

  /**
   * The tally holds a key for each severity of `SEV` and for each severity
   * seen, and each key's count is the number of alerts of that severity.
   */
  lemma {:induction false} TallyMeaning(rs: seq<Alert>, n: nat, s: string)
    requires n <= |rs|
    ensures s in Tally(rs, n) <==> s in Severities || exists j :: 0 <= j < n && rs[j].severity == s
    ensures s in Tally(rs, n) ==> Tally(rs, n)[s] == CountSeverity(rs, s, n)
    ensures s !in Tally(rs, n) ==> CountSeverity(rs, s, n) == 0
  {
    if n > 0 {
      TallyMeaning(rs, n - 1, s);
      if rs[n - 1].severity == s {
        assert s in Tally(rs, n);
      }
    } else {
      assert s in ZeroCounts <==> s in Severities;
    }
  }

  /** When every severity is one of `SEV`, the four counts add up to the number of alerts. */
  lemma {:induction false} TallySums(rs: seq<Alert>, n: nat)
    requires n <= |rs|
    requires forall j :: 0 <= j < n ==> rs[j].severity in Severities
    ensures CountSeverity(rs, "low", n) + CountSeverity(rs, "medium", n)
      + CountSeverity(rs, "high", n) + CountSeverity(rs, "critical", n) == n
  {
    if n > 0 {
      TallySums(rs, n - 1);
      assert rs[n - 1].severity in Severities;
    }
  }

  datatype AlertCounts = AlertCounts(windowMin: int, counts: map<string, nat>, total: nat)

  /**
   * `metricAlertCounts(alerts, winMin)` at clock reading now; the window
   * defaults to 60 minutes. The total counts exactly the alerts at or after
   * the cutoff, each as often as it occurs, and each severity of `SEV` has
   * a count: the number of those alerts of that severity.
   */
  function CountAlerts(alerts: seq<Alert>, winMin: int, now: int): (r: AlertCounts)
    ensures r.windowMin == winMin
    ensures r.total == |InWindow(alerts, winMin, now)|
    ensures KeepsWindow(alerts, Cutoff(winMin, now))
    ensures CountsBySeverity(r.counts, InWindow(alerts, winMin, now))
    ensures r.counts == Tally(InWindow(alerts, winMin, now), |InWindow(alerts, winMin, now)|)
  {
    var rs := InWindow(alerts, winMin, now);
    RecentKeeps(alerts, Cutoff(winMin, now));
    TallySev(rs);
    AlertCounts(winMin, Tally(rs, |rs|), |rs|)
  }

  /** The start of a window of winMin minutes ending at now. */
  function Cutoff(winMin: int, now: int): int {
    now - winMin * 60000
  }

  /** The alerts at or after the cutoff, in order. */
  function InWindow(alerts: seq<Alert>, winMin: int, now: int): seq<Alert> {
    Recent(alerts, Cutoff(winMin, now), |alerts|)
  }

  const DefaultWindowMin := 60

  /** The recent alerts are each alert at or after the cutoff, as often as it occurs, and no other. */
  ghost predicate KeepsWindow(alerts: seq<Alert>, since: int) {
    forall a: Alert ::
      multiset(Recent(alerts, since, |alerts|))[a] == (if a.time >= since then multiset(alerts)[a] else 0)
  }

  /** Each severity of `SEV` has a count in m: the number of alerts of rs with that severity. */
  ghost predicate CountsBySeverity(m: map<string, nat>, rs: seq<Alert>) {
    forall s :: s in Severities ==> s in m && m[s] == CountSeverity(rs, s, |rs|)
  }

  /** Filtering keeps each alert at or after the cutoff as often as it occurs, and no other. */
  lemma RecentKeeps(alerts: seq<Alert>, since: int)
    ensures KeepsWindow(alerts, since)
  {
    assert alerts[..|alerts|] == alerts;
    forall a: Alert
      ensures multiset(Recent(alerts, since, |alerts|))[a] == (if a.time >= since then multiset(alerts)[a] else 0)
    {
      RecentMultiset(alerts, since, |alerts|, a);
    }
  }

  /** When no other severity occurs, the four counts of `SEV` add up to the total. */
  lemma AlertCountsSum(alerts: seq<Alert>, winMin: int, now: int)
    requires forall j :: 0 <= j < |alerts| ==> alerts[j].severity in Severities
    ensures var r := CountAlerts(alerts, winMin, now);
      r.counts["low"] + r.counts["medium"] + r.counts["high"] + r.counts["critical"] == r.total
  {
    var rs := InWindow(alerts, winMin, now);
    RecentSeverities(alerts, Cutoff(winMin, now));
    TallySums(rs, |rs|);
    SevSum(CountAlerts(alerts, winMin, now).counts, rs);
  }

  /** Counts that agree with the alerts on every severity of `SEV` add up to the four severity counts. */
  lemma SevSum(m: map<string, nat>, rs: seq<Alert>)
    requires CountsBySeverity(m, rs)
    ensures "low" in m && "medium" in m && "high" in m && "critical" in m
    ensures m["low"] + m["medium"] + m["high"] + m["critical"] == CountSeverity(rs, "low", |rs|)
      + CountSeverity(rs, "medium", |rs|) + CountSeverity(rs, "high", |rs|) + CountSeverity(rs, "critical", |rs|)
  {
    assert "low" in Severities && "medium" in Severities && "high" in Severities && "critical" in Severities;
  }

  /** The tally's entry for each severity of `SEV`. */
  lemma TallySev(rs: seq<Alert>)
    ensures CountsBySeverity(Tally(rs, |rs|), rs)
  {
    forall s | s in Severities
      ensures s in Tally(rs, |rs|) && Tally(rs, |rs|)[s] == CountSeverity(rs, s, |rs|)
    {
      TallyMeaning(rs, |rs|, s);
    }
  }

  /** Filtering keeps only severities that occur among the alerts. */
  lemma RecentSeverities(alerts: seq<Alert>, since: int)
    requires forall j :: 0 <= j < |alerts| ==> alerts[j].severity in Severities
    ensures forall j :: 0 <= j < |Recent(alerts, since, |alerts|)| ==>
      Recent(alerts, since, |alerts|)[j].severity in Severities
  {
    var rs := Recent(alerts, since, |alerts|);
    forall j | 0 <= j < |rs| ensures rs[j].severity in Severities {
      RecentFrom(alerts, since, |alerts|, j);
    }
  }

  /** Every recent alert is one of the alerts. */
  lemma {:induction false} RecentFrom(alerts: seq<Alert>, since: int, n: nat, j: int)
    requires n <= |alerts|
    requires 0 <= j < |Recent(alerts, since, n)|
    ensures exists i :: 0 <= i < n && alerts[i] == Recent(alerts, since, n)[j]
  {
    var prev := Recent(alerts, since, n - 1);
    if j < |prev| {
      RecentFrom(alerts, since, n - 1, j);
    } else {
      assert Recent(alerts, since, n)[j] == alerts[n - 1];
    }
  }

  // ---------------------------------------------------------------------------
  // Criticality
  // ---------------------------------------------------------------------------

  /** Half the normalised vulnerability score plus half the missing patch level. */
  function Exposure(vuln: real, patch: real): real {
    0.5 * (vuln / 10.0) + 0.5 * (1.0 - patch)
  }

  /**
   * `criticality(asset)`: the exposure weighted by status, as a whole number
   * in [0, 100]. A missing score or patch level makes the arithmetic NaN,
   * modelled as `None`.
   */
  function Criticality(a: Asset): (r: Option<int>)
    ensures r.None? <==> a.vuln.None? || a.patch.None?
    ensures r.Some? ==> 0 <= r.value <= 100
  {
    if a.vuln.None? || a.patch.None? then None
    else
      var x := Clamp(100.0 * Exposure(a.vuln.value, a.patch.value) * StatusMul(a.status), 0.0, 100.0);
      RoundOfInt(0);
      RoundOfInt(100);
      RoundMonotone(0.0, x);
      RoundMonotone(x, 100.0);
      Some(Round(x))
  }

  /** A worse vulnerability score or a lower patch level never lowers criticality. */
  lemma CriticalityMonotone(a: Asset, vuln: real, patch: real)
    requires a.vuln.Some? && a.patch.Some?
    requires a.vuln.value <= vuln && patch <= a.patch.value
    ensures Criticality(a).value <= Criticality(a.(vuln := Some(vuln), patch := Some(patch))).value
  {
    var e1 := Exposure(a.vuln.value, a.patch.value);
    var e2 := Exposure(vuln, patch);
    MulMonotone(100.0 * e1, 100.0 * e2, StatusMul(a.status));
    var x1 := 100.0 * e1 * StatusMul(a.status);
    var x2 := 100.0 * e2 * StatusMul(a.status);
    assert Clamp(x1, 0.0, 100.0) <= Clamp(x2, 0.0, 100.0);
    RoundMonotone(Clamp(x1, 0.0, 100.0), Clamp(x2, 0.0, 100.0));
  }

  /** With a non-negative exposure, a worse status never lowers criticality. */
  lemma CriticalityStatusOrder(a: Asset)
    requires a.vuln.Some? && a.patch.Some? && Exposure(a.vuln.value, a.patch.value) >= 0.0
    ensures Criticality(a.(status := Healthy)).value <= Criticality(a.(status := Degraded)).value
    ensures Criticality(a.(status := Degraded)).value <= Criticality(a.(status := Outage)).value
  {
    var e := 100.0 * Exposure(a.vuln.value, a.patch.value);
    MulMonotone(1.0, 1.1, e);
    MulMonotone(1.1, 1.25, e);
    RoundMonotone(Clamp(e * 1.0, 0.0, 100.0), Clamp(e * 1.1, 0.0, 100.0));
    RoundMonotone(Clamp(e * 1.1, 0.0, 100.0), Clamp(e * 1.25, 0.0, 100.0));
  }
}
