/**
 * The fuel-efficiency analytics panel: the MPG series of one vehicle, the
 * three-way trend computed from it, the alerts that trend switches on, and
 * the average / best / worst summary.
 *
 * JS doubles are modelled as `real`; rounding and `toFixed` display are not.
 */
module Analytics {
  import opened Optional

  datatype Trend = Up | Down | Stable

  /** One fuel-log row as fetched: its creation time and its (non-null) mpg. */
  datatype FuelLog = FuelLog(createdAt: string, mpg: real)

  /** One point of the stored series (the locale display date is not modelled). */
  datatype MpgPoint = MpgPoint(date: string, mpg: real)

  datatype Summary = Summary(average: real, best: real, worst: real)

  ghost predicate AllPositive(s: seq<real>)
  {
    forall i :: 0 <= i < |s| ==> s[i] > 0.0
  }

  function MaxZero(k: int): nat
  {
    if k < 0 then 0 else k
  }

  // ---------------------------------------------------------------------
  // Array.prototype.slice and reduce, as the panel uses them

  /** Where `slice` starts or stops for a (possibly negative) relative index. */
  function RelativeIndex(k: int, n: nat): (r: nat)
    ensures r <= n
    ensures k < 0 ==> r == MaxZero(n + k)
    ensures 0 <= k <= n ==> r == k
  {
    if k < 0 then MaxZero(n + k) else if k < n then k else n
  }

  /** `s.slice(begin, end)`: empty when the resolved end is not after the start. */
  function Slice<T>(s: seq<T>, begin: int, end: int): (r: seq<T>)
    ensures |r| <= |s|
  {
    var a, b := RelativeIndex(begin, |s|), RelativeIndex(end, |s|);
    if a < b then s[a..b] else []
  }

  /** `s.reduce((sum, x) => sum + x, 0)`: a left fold from the first element. */
  function Sum(s: seq<real>): real
  {
    if s == [] then 0.0 else Sum(s[..|s| - 1]) + s[|s| - 1]
  }

  /** A non-empty series of positive samples has a positive sum, hence a positive mean. */
  lemma {:induction false} SumPositive(s: seq<real>)
    requires AllPositive(s) && |s| > 0
    ensures Sum(s) > 0.0 && Mean(s) > 0.0
  {
    if |s| > 1 {
      SumPositive(s[..|s| - 1]);
    }
  }

  function Mean(s: seq<real>): real
    requires |s| > 0
  {
    Sum(s) / |s| as real
  }

  // ---------------------------------------------------------------------
  // Trend classification

  /** `slice(-3)`: the three newest samples (fewer if there are fewer). */
  function RecentWindow(s: seq<real>): seq<real>
  {
    Slice(s, -3, |s|)
  }

  /** `slice(-6, -3)`: the up-to-three samples just before the recent window. */
  function PriorWindow(s: seq<real>): seq<real>
  {
    Slice(s, -6, -3)
  }

  /** The prior window holds readings of the series, so it is positive when the series is. */
  lemma PriorWindowPositive(values: seq<real>)
    requires AllPositive(values)
    ensures AllPositive(PriorWindow(values))
  {
    var older := PriorWindow(values);
    forall i | 0 <= i < |older| ensures older[i] > 0.0 {
      assert older[i] == values[MaxZero(|values| - 6) + i];
    }
  }

  function PercentDifference(recent: real, prior: real): real
    requires prior != 0.0
  {
    ((recent - prior) / prior) * 100.0
  }

  /** Strict +-5 thresholds; a difference of exactly 5 either way is stable. */
  function Classify(difference: real): (t: Trend)
    ensures t == Down <==> difference < -5.0
    ensures t == Up <==> difference > 5.0
    ensures t == Stable <==> -5.0 <= difference <= 5.0
  {
    if difference < -5.0 then Down
    else if difference > 5.0 then Up
    else Stable
  }

  /**
   * The trend one load would set, or None when it sets none: with one to
   * three samples the trend is left alone, and an empty load resets it to
   * Stable (see NextTrend).
   */
  function Classification(values: seq<real>): (r: Option<Trend>)
    requires AllPositive(values)
    ensures r.Some? <==> |values| >= 4
  {
    if |values| >= 3 then
      var recent := Sum(RecentWindow(values)) / 3.0;
      var older := PriorWindow(values);
      if |older| > 0 then
        PriorWindowPositive(values);
        SumPositive(older);
        Some(Classify(PercentDifference(recent, Mean(older))))
      else None
    else None
  }

  /** The recent window is exactly the last three samples. */
  lemma RecentWindowIsLastThree(s: seq<real>)
    requires |s| >= 3
    ensures RecentWindow(s) == s[|s| - 3..]
    ensures Sum(RecentWindow(s)) == s[|s| - 3] + s[|s| - 2] + s[|s| - 1]
  {
    var w := s[|s| - 3..];
    assert w[..2][..1][..0] == [];
    assert Sum(w[..2][..1]) == w[0];
    assert Sum(w[..2]) == w[0] + w[1];
    assert Sum(w) == Sum(w[..2]) + w[2];
  }

  /** The prior window is positions [max(n-6,0), n-3), so it holds min(n-3, 3) samples. */
  lemma PriorWindowShape(s: seq<real>)
    requires |s| >= 3
    ensures PriorWindow(s) == s[MaxZero(|s| - 6)..|s| - 3]
    ensures |PriorWindow(s)| == if |s| - 3 < 3 then |s| - 3 else 3
  {
  }

  /**
   * Without the division: with a positive prior mean, the trend is Down
   * exactly when the recent mean is below 95% of it and Up exactly when it
   * is above 105% of it.
   */
  lemma {:induction false} DivisionFreeThresholds(recent: real, prior: real)
    requires prior > 0.0
    ensures Classify(PercentDifference(recent, prior)) == Down <==> recent < 0.95 * prior
    ensures Classify(PercentDifference(recent, prior)) == Up <==> recent > 1.05 * prior
    ensures Classify(PercentDifference(recent, prior)) == Stable <==>
              0.95 * prior <= recent <= 1.05 * prior
  {
    var q := (recent - prior) / prior;
    assert q * prior == recent - prior;
    assert PercentDifference(recent, prior) == q * 100.0;
    assert q < -0.05 <==> q * prior < -0.05 * prior by {
      if q < -0.05 { assert q * prior < -0.05 * prior; }
      if q * prior < -0.05 * prior { assert q < -0.05; }
    }
    assert q > 0.05 <==> q * prior > 0.05 * prior by {
      if q > 0.05 { assert q * prior > 0.05 * prior; }
      if q * prior > 0.05 * prior { assert q > 0.05; }
    }
  }

  /** For four or more samples, the classification in terms of the two window means. */
  lemma ClassificationByMeans(values: seq<real>)
    requires AllPositive(values) && |values| >= 4
    ensures |PriorWindow(values)| > 0 && Mean(PriorWindow(values)) > 0.0
    ensures Classification(values) == Some(Down) <==>
              Mean(RecentWindow(values)) < 0.95 * Mean(PriorWindow(values))
    ensures Classification(values) == Some(Up) <==>
              Mean(RecentWindow(values)) > 1.05 * Mean(PriorWindow(values))
  {
    var older := PriorWindow(values);
    PriorWindowPositive(values);
    SumPositive(older);
    var recent := RecentWindow(values);
    assert |recent| == 3;
    assert Mean(recent) == Sum(recent) / 3.0;
    assert Classification(values) == Some(Classify(PercentDifference(Mean(recent), Mean(older))));
    DivisionFreeThresholds(Mean(recent), Mean(older));
  }

  function Scale(s: seq<real>, k: real): (r: seq<real>)
    ensures |r| == |s|
  {
    seq(|s|, i requires 0 <= i < |s| => k * s[i])
  }

  lemma ScaleInit(s: seq<real>, k: real)
    requires |s| > 0
    ensures Scale(s, k)[..|s| - 1] == Scale(s[..|s| - 1], k)
  {
    var init := s[..|s| - 1];
    forall i | 0 <= i < |init| ensures Scale(s, k)[i] == Scale(init, k)[i] {
    }
  }

  lemma {:induction false} SumScale(s: seq<real>, k: real)
    ensures Sum(Scale(s, k)) == k * Sum(s)
  {
    if s == [] {
      assert Scale(s, k) == [];
    } else {
      var init, scaled := s[..|s| - 1], Scale(s, k);
      ScaleInit(s, k);
      SumScale(init, k);
      assert Sum(scaled) == Sum(Scale(init, k)) + k * s[|s| - 1];
      assert Sum(s) == Sum(init) + s[|s| - 1];
      Distribute(k, Sum(init), s[|s| - 1]);
    }
  }

  lemma SliceScale(s: seq<real>, k: real, begin: int, end: int)
    ensures Slice(Scale(s, k), begin, end) == Scale(Slice(s, begin, end), k)
  {
    var a, b := RelativeIndex(begin, |s|), RelativeIndex(end, |s|);
    if a < b {
      var l, r := Slice(Scale(s, k), begin, end), Scale(Slice(s, begin, end), k);
      var sliced := Slice(s, begin, end);
      assert l == Scale(s, k)[a..b] && sliced == s[a..b];
      forall i | 0 <= i < |l| ensures l[i] == r[i] {
        assert l[i] == Scale(s, k)[a + i] == k * s[a + i];
        assert r[i] == k * sliced[i] && sliced[i] == s[a + i];
      }
    }
  }

  lemma MeanScale(s: seq<real>, k: real)
    requires |s| > 0
    ensures Mean(Scale(s, k)) == k * Mean(s)
  {
    SumScale(s, k);
    var n, total := |s| as real, Sum(s);
    ScaleQuotient(k, total, n);
  }

  lemma ScalePositive(values: seq<real>, k: real)
    requires AllPositive(values) && k > 0.0
    ensures AllPositive(Scale(values, k))
  {
    var scaled := Scale(values, k);
    forall i | 0 <= i < |scaled| ensures scaled[i] > 0.0 {
      assert scaled[i] == k * values[i];
    }
  }

  /** Both window means of a scaled series are the scaled window means. */
  lemma ScaledWindowMeans(values: seq<real>, k: real)
    requires |values| >= 4
    ensures |RecentWindow(values)| == 3 && |PriorWindow(values)| > 0
    ensures Mean(RecentWindow(Scale(values, k))) == k * Mean(RecentWindow(values))
    ensures Mean(PriorWindow(Scale(values, k))) == k * Mean(PriorWindow(values))
  {
    SliceScale(values, k, -3, |values|);
    SliceScale(values, k, -6, -3);
    MeanScale(RecentWindow(values), k);
    MeanScale(PriorWindow(values), k);
  }

  /** Multiplying every sample by the same positive factor never changes the trend. */
  lemma ScaleInvariance(values: seq<real>, k: real)
    requires AllPositive(values) && k > 0.0
    ensures AllPositive(Scale(values, k))
    ensures Classification(Scale(values, k)) == Classification(values)
  {
    var scaled := Scale(values, k);
    ScalePositive(values, k);
    if |values| >= 4 {
      ScaledWindowMeans(values, k);
      ClassificationByMeans(values);
      ClassificationByMeans(scaled);
      ScaledComparison(Mean(RecentWindow(values)), Mean(PriorWindow(values)),
                       Mean(RecentWindow(scaled)), Mean(PriorWindow(scaled)), k);
    }
  }

  lemma ScaledComparison(r: real, p: real, rs: real, ps: real, k: real)
    requires k > 0.0 && rs == k * r && ps == k * p
    ensures rs < 0.95 * ps <==> r < 0.95 * p
    ensures rs > 1.05 * ps <==> r > 1.05 * p
  {
    assert 0.95 * ps == k * (0.95 * p);
    assert 1.05 * ps == k * (1.05 * p);
    MulMonotone(r, 0.95 * p, k);
    MulMonotone(0.95 * p, r, k);
    MulMonotone(r, 1.05 * p, k);
    MulMonotone(1.05 * p, r, k);
  }

  /**
   * The trend after one successful fetch: an empty result resets it to
   * Stable; otherwise a classification replaces it, and when the series
   * does not classify the previous trend stays.
   */
  function NextTrend(previous: Trend, values: seq<real>): (t: Trend)
    requires AllPositive(values)
    ensures |values| == 0 ==> t == Stable
    ensures 1 <= |values| <= 3 ==> t == previous
    ensures |values| >= 4 ==> Classification(values) == Some(t)
  {
    if |values| == 0 then Stable
    else match Classification(values)
      case None => previous
      case Some(t) => t
  }

  // ---------------------------------------------------------------------
  // Stored series, alerts and summary

  /** `data.map(log => ({date, mpg, displayDate}))`, one point per log in order. */
  function Format(logs: seq<FuelLog>): (points: seq<MpgPoint>)
    ensures |points| == |logs|
    ensures forall i :: 0 <= i < |logs| ==>
              points[i].date == logs[i].createdAt && points[i].mpg == logs[i].mpg
  {
    seq(|logs|, i requires 0 <= i < |logs| => MpgPoint(logs[i].createdAt, logs[i].mpg))
  }

  function Mpgs(points: seq<MpgPoint>): (s: seq<real>)
    ensures |s| == |points|
  {
    seq(|points|, i requires 0 <= i < |points| => points[i].mpg)
  }

  /** The "EFFICIENCY DROPPING" banner. */
  predicate DecliningAlert(trend: Trend, count: nat)
  {
    trend == Down && count >= 3
  }

  /** The "EFFICIENCY IMPROVING" banner. */
  predicate ImprovingAlert(trend: Trend, count: nat)
  {
    trend == Up && count >= 3
  }

  /** At most one banner shows, and neither shows for fewer than three entries. */
  lemma AlertsNeedData(trend: Trend, count: nat)
    ensures !(DecliningAlert(trend, count) && ImprovingAlert(trend, count))
    ensures count < 3 ==> !DecliningAlert(trend, count) && !ImprovingAlert(trend, count)
    ensures DecliningAlert(trend, count) ==> trend == Down
    ensures ImprovingAlert(trend, count) ==> trend == Up
  {
  }

  /** After a load of four or more samples, each banner reflects that load's own data. */
  lemma AlertsAfterLoad(previous: Trend, values: seq<real>)
    requires AllPositive(values) && |values| >= 4
    ensures DecliningAlert(NextTrend(previous, values), |values|) <==>
              Mean(RecentWindow(values)) < 0.95 * Mean(PriorWindow(values))
    ensures ImprovingAlert(NextTrend(previous, values), |values|) <==>
              Mean(RecentWindow(values)) > 1.05 * Mean(PriorWindow(values))
  {
    ClassificationByMeans(values);
  }

  /** `Math.max(...values)` */
  function MaxOf(s: seq<real>): (m: real)
    requires |s| > 0
    ensures m in s
    ensures forall i :: 0 <= i < |s| ==> s[i] <= m
  {
    if |s| == 1 then s[0]
    else
      var rest := MaxOf(s[..|s| - 1]);
      if s[|s| - 1] > rest then s[|s| - 1] else rest
  }

  /** `Math.min(...values)` */
  function MinOf(s: seq<real>): (m: real)
    requires |s| > 0
    ensures m in s
    ensures forall i :: 0 <= i < |s| ==> m <= s[i]
  {
    if |s| == 1 then s[0]
    else
      var rest := MinOf(s[..|s| - 1]);
      if s[|s| - 1] < rest then s[|s| - 1] else rest
  }

  /** The AVERAGE / BEST / WORST panel, shown only for a non-empty series. */
  function SummaryOf(values: seq<real>): (r: Option<Summary>)
    ensures r.None? <==> |values| == 0
  {
    if |values| == 0 then None
    else Some(Summary(Mean(values), MaxOf(values), MinOf(values)))
  }

  lemma {:induction false} SumBetween(s: seq<real>, lo: real, hi: real)
    requires forall i :: 0 <= i < |s| ==> lo <= s[i] <= hi
    ensures |s| as real * lo <= Sum(s) <= |s| as real * hi
  {
    if s != [] {
      var n := |s|;
      SumBetween(s[..n - 1], lo, hi);
      assert (n - 1) as real * lo + lo == n as real * lo;
      assert (n - 1) as real * hi + hi == n as real * hi;
    }
  }

  /** For a non-empty series: worst <= average <= best and both extremes are samples. */
  lemma SummaryBounds(values: seq<real>)
    requires |values| > 0
    ensures SummaryOf(values).Some?
    ensures var sm := SummaryOf(values).value;
              && sm.worst <= sm.average <= sm.best
              && sm.best in values && sm.worst in values
              && sm.average == Mean(values)
  {
    MeanBetween(values, MinOf(values), MaxOf(values));
  }

  /** A mean lies between any bounds of its samples, and times the count it gives back the sum. */
  lemma MeanBetween(s: seq<real>, lo: real, hi: real)
    requires |s| > 0
    requires forall i :: 0 <= i < |s| ==> lo <= s[i] <= hi
    ensures lo <= Mean(s) <= hi
    ensures Mean(s) * |s| as real == Sum(s)
  {
    var n, total := |s| as real, Sum(s);
    SumBetween(s, lo, hi);
    QuotientBetween(total, n, lo, hi);
  }

  lemma QuotientBetween(total: real, n: real, lo: real, hi: real)
    requires n > 0.0 && n * lo <= total <= n * hi
    ensures lo <= total / n <= hi && (total / n) * n == total
  {
    var q := total / n;
    assert q * n == total;
    MulMonotone(q, lo, n);
    MulMonotone(hi, q, n);
  }

  // Small facts of real arithmetic, kept apart so each proof stays cheap.

  lemma Distribute(k: real, a: real, b: real)
    ensures k * a + k * b == k * (a + b)
  {
  }

  lemma ScaleQuotient(k: real, t: real, n: real)
    requires n != 0.0
    ensures (k * t) / n == k * (t / n)
  {
  }

  lemma MulMonotone(a: real, b: real, n: real)
    requires n > 0.0
    ensures a < b ==> a * n < b * n
  {
  }

  /** A drop from 30 to 20 mpg is declining; a rise from 20 to 26 is improving; +2% is stable. */
  lemma TrendExamples()
    ensures Classification([30.0, 30.0, 30.0, 30.0, 30.0, 20.0, 20.0, 20.0]) == Some(Down)
    ensures Classification([20.0, 20.0, 20.0, 20.0, 20.0, 26.0, 26.0, 26.0]) == Some(Up)
    ensures Classification([25.0, 25.0, 25.0, 25.0, 25.0, 25.5, 25.5, 25.5]) == Some(Stable)
  {
    var down := [30.0, 30.0, 30.0, 30.0, 30.0, 20.0, 20.0, 20.0];
    var up := [20.0, 20.0, 20.0, 20.0, 20.0, 26.0, 26.0, 26.0];
    var flat := [25.0, 25.0, 25.0, 25.0, 25.0, 25.5, 25.5, 25.5];
    WindowMeans(down, 20.0, 30.0);
    WindowMeans(up, 26.0, 20.0);
    WindowMeans(flat, 25.5, 25.0);
    ClassificationByMeans(down);
    ClassificationByMeans(up);
    ClassificationByMeans(flat);
  }

  /** The two window means of an eight-sample series, from its last six samples. */
  lemma WindowMeans(s: seq<real>, recent: real, prior: real)
    requires |s| == 8
    requires s[2] == s[3] == s[4] == prior && s[5] == s[6] == s[7] == recent
    ensures Mean(RecentWindow(s)) == recent && Mean(PriorWindow(s)) == prior
  {
    RecentWindowIsLastThree(s);
    RecentWindowIsLastThree(s[..5]);
    assert PriorWindow(s) == s[2..5] == s[..5][2..];
  }

  /** The summary of 10, 15 and 20 mpg is an average of 15, a best of 20 and a worst of 10. */
  lemma SummaryExample()
    ensures SummaryOf([10.0, 15.0, 20.0]) == Some(Summary(15.0, 20.0, 10.0))
  {
    var s := [10.0, 15.0, 20.0];
    RecentWindowIsLastThree(s);
    assert RecentWindow(s) == s;
  }

  // ---------------------------------------------------------------------
  // Finding: a series that does not classify keeps the previous trend

  /**
   * As written: a previous Down trend survives a load of exactly three
   * samples (a vehicle switch, say), and with three entries the declining
   * banner shows although nothing was compared.
   */
  lemma StaleTrendAlert()
    ensures var v := [30.0, 30.0, 30.0];
              && AllPositive(v)
              && Classification(v) == None
              && NextTrend(Down, v) == Down
              && DecliningAlert(NextTrend(Down, v), |v|)
  {
  }

  /** As evidently intended: a load that does not classify shows Stable. */
  function TrendOrStable(values: seq<real>): (t: Trend)
    requires AllPositive(values)
    ensures |values| < 4 ==> t == Stable
    ensures |values| >= 4 ==> Classification(values) == Some(t)
  {
    match Classification(values)
    case None => Stable
    case Some(t) => t
  }

  /** With the correction, a banner shows exactly when the loaded data itself crossed the threshold. */
  lemma CorrectedAlertsReflectData(values: seq<real>)
    requires AllPositive(values)
    ensures DecliningAlert(TrendOrStable(values), |values|) <==>
              |values| >= 4 && Mean(RecentWindow(values)) < 0.95 * Mean(PriorWindow(values))
    ensures ImprovingAlert(TrendOrStable(values), |values|) <==>
              |values| >= 4 && Mean(RecentWindow(values)) > 1.05 * Mean(PriorWindow(values))
  {
    if |values| >= 4 {
      ClassificationByMeans(values);
    }
  }

  // ---------------------------------------------------------------------
  // The panel's state

  class MpgAnalytics {
    var mpgData: seq<MpgPoint>
    var trend: Trend
    var loading: bool

    constructor ()
      ensures mpgData == [] && trend == Stable && !loading
    {
      mpgData := [];
      trend := Stable;
      loading := false;
    }

    /**
     * `loadMpgData` once the fetch has answered: `fetched` is None when the
     * query reported an error, otherwise the vehicle's non-null mpg logs,
     * oldest first.
     */
    method LoadMpgData(fetched: Option<seq<FuelLog>>)
      requires fetched.Some? ==> AllPositive(Mpgs(Format(fetched.value)))
      modifies this
      ensures !loading
      ensures fetched.None? ==> mpgData == old(mpgData) && trend == old(trend)
      ensures fetched.Some? ==> mpgData == Format(fetched.value)
      ensures fetched.Some? ==> trend == NextTrend(old(trend), Mpgs(Format(fetched.value)))
    {
      loading := true;
      if fetched.Some? {
        var data := fetched.value;
        if |data| > 0 {
          var formatted := Format(data);
          mpgData := formatted;
          var values := Mpgs(formatted);
          if |formatted| >= 3 {
            var recent := Sum(RecentWindow(values)) / 3.0;
            var older := PriorWindow(values);
            if |older| > 0 {
              ClassificationByMeans(values);
              var olderAvg := Mean(older);
              var difference := PercentDifference(recent, olderAvg);
              if difference < -5.0 {
                trend := Down;
              } else if difference > 5.0 {
                trend := Up;
              } else {
                trend := Stable;
              }
            }
          }
        } else {
          mpgData := [];
          trend := Stable;
        }
      }
      loading := false;
    }
  }

}
