/**
 * The patch-duration estimate of `src/decision/duration.js`: a per-type
 * baseline, or the rounded median and nearest-rank 90th percentile of the
 * valid historical durations (minutes).
 */
module Duration {
  import opened Domain

  /** A pair of duration percentiles, in minutes. */
  datatype Pctls = Pctls(p50: int, p90: int)

  /** One row of the baseline table. */
  datatype Row = Row(deviceType: string, base: Pctls)

  /** The baseline table, keyed by the exact device-type string. */
  const Baselines: seq<Row> := [
    Row(TypeFirewall, Pctls(35, 50)),
    Row(TypeRouter, Pctls(30, 45)),
    Row(TypeSwitch, Pctls(25, 40)),
    Row(TypeServer, Pctls(25, 40)),
    Row(TypeDatabase, Pctls(40, 60)),
    Row(TypeHL7, Pctls(35, 55)),
    Row(TypePACS, Pctls(35, 55)),
    Row(TypeEHR, Pctls(40, 65)),
    Row(TypeIoMT, Pctls(20, 35)),
    Row(TypeWiFiAP, Pctls(20, 35)),
    Row(TypeWorkstation, Pctls(15, 25))
  ]

  /** The baseline of a type missing from the table. */
  const DefaultBaseline := Pctls(30, 45)

  /** The breakdown reported with a baseline estimate. */
  const BaselineBreakdown: seq<string> := ["Prep 5m", "Apply 10-20m", "Reboot/Verify 5-15m"]

  /** The breakdown reported with a history-derived estimate. */
  const DerivedBreakdown: seq<string> := ["Derived from historical patches"]

  /**
   * Every baseline row expects the 90th percentile strictly above the
   * median, and every baseline lies between 15 and 65 minutes.
   */
  lemma BaselinesOrdered()
    ensures forall k :: 0 <= k < |Baselines| ==> Baselines[k].base.p50 < Baselines[k].base.p90
    ensures forall k :: 0 <= k < |Baselines| ==> 15 <= Baselines[k].base.p50 && Baselines[k].base.p90 <= 65
    ensures DefaultBaseline.p50 < DefaultBaseline.p90
    ensures 15 <= DefaultBaseline.p50 && DefaultBaseline.p90 <= 65
  {
  }

  /** The first row among the first n whose type is t. */
  function LookupUpTo(t: string, n: nat): (r: Option<Pctls>)
    requires n <= |Baselines|
    ensures r.Some? <==> exists k :: 0 <= k < n && Baselines[k].deviceType == t
    ensures r.Some? ==> exists k :: 0 <= k < n && Baselines[k].deviceType == t && Baselines[k].base == r.value
  {
    if n == 0 then None
    else
      match LookupUpTo(t, n - 1)
      case Some(b) => Some(b)
      case None => if Baselines[n - 1].deviceType == t then Some(Baselines[n - 1].base) else None
  }

  /** `BASELINE[asset.type] || { p50: 30, p90: 45 }`. */
  function BaselineFor(t: string): (r: Pctls)
    ensures (exists k :: 0 <= k < |Baselines| && Baselines[k].deviceType == t && Baselines[k].base == r)
      || (r == DefaultBaseline && forall k :: 0 <= k < |Baselines| ==> Baselines[k].deviceType != t)
  {
    LookupUpTo(t, |Baselines|).GetOr(DefaultBaseline)
  }

  /** No device type has two rows. */
  lemma BaselineKeysDistinct()
    ensures forall i, j :: 0 <= i < j < |Baselines| ==> Baselines[i].deviceType != Baselines[j].deviceType
  {
  }

  /** A listed device type gets the baseline of its own row. */
  lemma BaselineOfListed(k: int)
    requires 0 <= k < |Baselines|
    ensures BaselineFor(Baselines[k].deviceType) == Baselines[k].base
  {
    BaselineKeysDistinct();
  }

  /** Every baseline, from the table or the default, has 15 <= p50 < p90 <= 65. */
  lemma BaselineOrdered(t: string)
    ensures BaselineFor(t).p50 < BaselineFor(t).p90
    ensures 15 <= BaselineFor(t).p50 && BaselineFor(t).p90 <= 65
  {
    BaselinesOrdered();
  }

  // ---------------------------------------------------------------------------
  // Samples and percentiles
  // ---------------------------------------------------------------------------

  /** A history entry: a finite number, or anything `Number.isFinite` rejects. */
  datatype Sample = Finite(v: real) | NotFinite

  predicate Valid(x: Sample) {
    x.Finite? && x.v > 0.0
  }

  /** The values of the valid samples among the first n, in order. */
  function ValidUpTo(h: seq<Sample>, n: nat): (r: seq<real>)
    requires n <= |h|
    ensures |r| <= n
  {
    if n == 0 then []
    else
      var r0 := ValidUpTo(h, n - 1);
      if Valid(h[n - 1]) then r0 + [h[n - 1].v] else r0
  }

  /** Each positive value is kept as often as it occurs as a finite sample; nothing else is kept. */
  lemma {:induction false} ValidCounts(h: seq<Sample>, n: nat)
    requires n <= |h|
    ensures forall x :: multiset(ValidUpTo(h, n))[x] == if x > 0.0 then multiset(h[..n])[Finite(x)] else 0
    decreases n
  {
    if n > 0 {
      ValidCounts(h, n - 1);
      assert h[..n] == h[..n - 1] + [h[n - 1]];
    }
  }

  /** `history.filter(x => Number.isFinite(x) && x > 0)`. */
  function ValidSamples(h: seq<Sample>): seq<real> {
    ValidUpTo(h, |h|)
  }

  /** A value is kept exactly when it is positive and occurs as a finite sample. */
  lemma ValidMembership(h: seq<Sample>, x: real)
    ensures x in ValidSamples(h) <==> x > 0.0 && Finite(x) in h
  {
    assert h[..|h|] == h;
    ValidCounts(h, |h|);
    assert x in ValidSamples(h) <==> multiset(ValidSamples(h))[x] > 0;
    assert Finite(x) in h <==> multiset(h)[Finite(x)] > 0;
  }

  /** Reordering the history only reorders the valid samples. */
  lemma ValidPermutation(h1: seq<Sample>, h2: seq<Sample>)
    requires multiset(h1) == multiset(h2)
    ensures multiset(ValidSamples(h1)) == multiset(ValidSamples(h2))
  {
    assert h1[..|h1|] == h1 && h2[..|h2|] == h2;
    ValidCounts(h1, |h1|);
    ValidCounts(h2, |h2|);
    forall x ensures multiset(ValidSamples(h1))[x] == multiset(ValidSamples(h2))[x] {
    }
  }

  /** The sorted index `pctl` reads: `min(n - 1, max(0, round(p / 100 * (n - 1))))`. */
  function PctlIndex(n: nat, p: real): (i: int)
    requires n > 0
    ensures 0 <= i < n
  {
    var i := Round(p / 100.0 * (n - 1) as real);
    if i < 0 then 0 else if i > n - 1 then n - 1 else i
  }

  /** `pctl(a, p)`: the nearest-rank percentile of the sorted copy, 0 for an empty list. */
  function Pctl(a: seq<real>, p: real): (r: real)
    ensures |a| == 0 ==> r == 0.0
    ensures |a| > 0 ==> r in multiset(a)
    ensures |a| > 0 && Sorted(a) ==> r == a[PctlIndex(|a|, p)]
  {
    if |a| == 0 then 0.0
    else
      var s := Sort(a);
      assert s[PctlIndex(|a|, p)] in multiset(s);
      SortOfSorted(a);
      s[PctlIndex(|a|, p)]
  }

  /** The percentile of a non-empty list is one of its elements. */
  lemma PctlIsSample(a: seq<real>, p: real)
    requires |a| > 0
    ensures exists i :: 0 <= i < |a| && a[i] == Pctl(a, p)
  {
    SortElements(a, PctlIndex(|a|, p));
  }

  /** The percentile does not depend on the order of the samples. */
  lemma PctlPermutation(a: seq<real>, b: seq<real>, p: real)
    requires multiset(a) == multiset(b)
    ensures Pctl(a, p) == Pctl(b, p)
  {
    SortPermutation(a, b);
    assert |a| == |multiset(a)| && |b| == |multiset(b)|;
  }

  /** The 90th-percentile index never falls below the upper middle index. */
  lemma P90AboveMiddle(n: nat)
    requires n > 0
    ensures n / 2 <= PctlIndex(n, 90.0)
  {
    var x := 90.0 / 100.0 * (n - 1) as real;
    assert x == 0.9 * (n - 1) as real;
    assert (n / 2) as real <= x + 0.5;
  }

  /** The median of a non-empty list never exceeds its 90th percentile. */
  lemma MedianAtMostP90(a: seq<real>)
    requires |a| > 0
    ensures Median(a) <= Pctl(a, 90.0)
  {
    var s := Sort(a);
    var n := |s|;
    P90AboveMiddle(n);
    assert s[n / 2] <= s[PctlIndex(n, 90.0)];
    if n % 2 == 0 {
      assert s[n / 2 - 1] <= s[n / 2];
    } else {
      assert (n - 1) / 2 == n / 2;
    }
  }

  // ---------------------------------------------------------------------------
  // The estimate
  // ---------------------------------------------------------------------------

  datatype Estimate = Estimate(p50: int, p90: int, breakdown: seq<string>)

  function FromBaseline(t: string): Estimate {
    Estimate(BaselineFor(t).p50, BaselineFor(t).p90, BaselineBreakdown)
  }

  /**
   * `estimatePatchDuration(asset, history)`: the baseline when no sample is
   * usable, otherwise the rounded median and 90th percentile of the valid
   * samples.
   */
  function EstimatePatchDuration(t: string, history: seq<Sample>): (e: Estimate)
    ensures |history| == 0 ==> e == FromBaseline(t)
    ensures |ValidSamples(history)| == 0 ==> e == FromBaseline(t)
    ensures |ValidSamples(history)| > 0 ==>
      e == Estimate(Round(Median(ValidSamples(history))), Round(Pctl(ValidSamples(history), 90.0)), DerivedBreakdown)
  {
    if |history| == 0 then FromBaseline(t)
    else
      var mins := ValidSamples(history);
      if |mins| == 0 then FromBaseline(t)
      else Estimate(Round(Median(mins)), Round(Pctl(mins, 90.0)), DerivedBreakdown)
  }

  /** No usable sample means the baseline, with its three-step breakdown and p50 < p90. */
  lemma BaselineWithoutSamples(t: string, history: seq<Sample>)
    requires forall k :: 0 <= k < |history| ==> !Valid(history[k])
    ensures EstimatePatchDuration(t, history) == FromBaseline(t)
    ensures EstimatePatchDuration(t, history).breakdown == BaselineBreakdown
    ensures EstimatePatchDuration(t, history).p50 < EstimatePatchDuration(t, history).p90
  {
    if |ValidSamples(history)| > 0 {
      var x := ValidSamples(history)[0];
      ValidMembership(history, x);
    }
    BaselineOrdered(t);
  }

  /**
   * A usable sample means a history-derived estimate: p50 <= p90, both
   * rounded from samples that occur in the history.
   */
  lemma DerivedFromSamples(t: string, history: seq<Sample>, k: int)
    requires 0 <= k < |history| && Valid(history[k])
    ensures EstimatePatchDuration(t, history).breakdown == DerivedBreakdown
    ensures EstimatePatchDuration(t, history).p50 <= EstimatePatchDuration(t, history).p90
    ensures exists x :: Finite(x) in history && x > 0.0 && EstimatePatchDuration(t, history).p90 == Round(x)
  {
    var mins := ValidSamples(history);
    ValidMembership(history, history[k].v);
    MedianAtMostP90(mins);
    RoundMonotone(Median(mins), Pctl(mins, 90.0));
    PctlIsSample(mins, 90.0);
    var i :| 0 <= i < |mins| && mins[i] == Pctl(mins, 90.0);
    ValidMembership(history, mins[i]);
  }

  /** The estimate does not depend on the order of the history. */
  lemma EstimateOrderFree(t: string, h1: seq<Sample>, h2: seq<Sample>)
    requires multiset(h1) == multiset(h2)
    ensures EstimatePatchDuration(t, h1) == EstimatePatchDuration(t, h2)
  {
    assert |h1| == |multiset(h1)| && |h2| == |multiset(h2)|;
    var m1, m2 := ValidSamples(h1), ValidSamples(h2);
    ValidPermutation(h1, h2);
    assert |m1| == |multiset(m1)| && |m2| == |multiset(m2)|;
    MedianPermutation(m1, m2);
    PctlPermutation(m1, m2, 90.0);
  }

  /**
   * An already ascending history of positive samples: the estimate reads
   * the median and the 90th-percentile position straight off the history.
   */
  lemma SortedHistory(t: string, h: seq<Sample>, s: seq<real>)
    requires 0 < |h| == |s| && Sorted(s)
    requires forall k :: 0 <= k < |h| ==> h[k] == Finite(s[k]) && s[k] > 0.0
    ensures EstimatePatchDuration(t, h)
      == Estimate(Round(Middle(s)), Round(s[PctlIndex(|s|, 90.0)]), DerivedBreakdown)
  {
    AllValid(h, s);
    SortedUnique(Sort(s), s);
  }

  /**
   * Five positive samples in ascending order: the median is the middle one
   * and the 90th percentile (index round(0.9 * 4) = 4) the largest.
   */
  lemma FiveSamples(t: string, a: real, b: real, c: real, d: real, e: real)
    requires 0.0 < a <= b <= c <= d <= e
    ensures EstimatePatchDuration(t, [Finite(a), Finite(b), Finite(c), Finite(d), Finite(e)])
      == Estimate(Round(c), Round(e), DerivedBreakdown)
  {
    var s := [a, b, c, d, e];
    assert Sorted(s);
    assert PctlIndex(5, 90.0) == 4;
    SortedHistory(t, [Finite(a), Finite(b), Finite(c), Finite(d), Finite(e)], s);
  }

  /** History [10, 20, 30, 40, 50] yields p50 = 30 and p90 = 50. */
  lemma FiveSampleExample(t: string)
    ensures EstimatePatchDuration(t, [Finite(10.0), Finite(20.0), Finite(30.0), Finite(40.0), Finite(50.0)])
      == Estimate(30, 50, DerivedBreakdown)
  {
    FiveSamples(t, 10.0, 20.0, 30.0, 40.0, 50.0);
  }

  /** A history of positive finite samples keeps every value, in order. */
  lemma {:induction false} AllValid(h: seq<Sample>, s: seq<real>)
    requires |h| == |s|
    requires forall k :: 0 <= k < |h| ==> h[k] == Finite(s[k]) && s[k] > 0.0
    ensures ValidSamples(h) == s
  {
    ValidPrefix(h, s, |h|);
  }

  lemma {:induction false} ValidPrefix(h: seq<Sample>, s: seq<real>, n: nat)
    requires n <= |h| == |s|
    requires forall k :: 0 <= k < |h| ==> h[k] == Finite(s[k]) && s[k] > 0.0
    ensures ValidUpTo(h, n) == s[..n]
    decreases n
  {
    if n > 0 {
      ValidPrefix(h, s, n - 1);
      assert s[..n] == s[..n - 1] + [s[n - 1]];
    }
  }
}
