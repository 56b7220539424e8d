/** The three-sigma outlier detector and the schedule of its scans. */
module Abuse {
  import opened Common

  datatype Stats = Stats(mean: real, stddev: real, n: nat)

  /** The square root is library code: any function that returns the non-negative root of non-negative numbers. */
  ghost predicate IsSqrt(sqrt: real -> real) {
    forall x: real | x >= 0.0 :: sqrt(x) >= 0.0 && sqrt(x) * sqrt(x) == x
  }

  function Sum(v: seq<real>): real { if v == [] then 0.0 else Sum(v[..|v| - 1]) + v[|v| - 1] }

  function Square(x: real): real { x * x }

  lemma SquareNonNegative(x: real)
    ensures Square(x) >= 0.0
  {
    if x >= 0.0 {
    } else {
      assert Square(x) == (-x) * (-x);
    }
  }

  /** Sum of squared deviations from `m`. */
  function SquareDev(v: seq<real>, m: real): real {
    if v == [] then 0.0 else SquareDev(v[..|v| - 1], m) + Square(v[|v| - 1] - m)
  }

  lemma {:induction false} SquareDevNonNegative(v: seq<real>, m: real)
    ensures SquareDev(v, m) >= 0.0
  {
    if v != [] {
      SquareDevNonNegative(v[..|v| - 1], m);
      SquareNonNegative(v[|v| - 1] - m);
    }
  }

  function Mean(v: seq<real>): real
    requires v != []
  {
    Sum(v) / (|v| as real)
  }

  /** The sample variance. */
  function Variance(v: seq<real>): real
    requires |v| >= 2
  {
    SquareDev(v, Mean(v)) / ((|v| - 1) as real)
  }

  function PopulationStats(v: seq<real>, sqrt: real -> real): Stats {
    if v == [] then Stats(0.0, 0.0, 0)
    else if |v| < 2 then Stats(Mean(v), 0.0, |v|)
    else Stats(Mean(v), sqrt(Variance(v)), |v|)
  }

  predicate Flagged(st: Stats, x: real, sigma: real) { st.stddev > 0.0 && (x - st.mean) / st.stddev >= sigma }

  function CountFlagged(v: seq<real>, st: Stats, sigma: real): nat {
    if v == [] then 0
    else CountFlagged(v[..|v| - 1], st, sigma) + (if Flagged(st, v[|v| - 1], sigma) then 1 else 0)
  }

  // ----- the detector -----

  datatype Metric = CallVolume | SpendAtomic

  datatype AccountAggregate = AccountAggregate(accountAddress: string, callVolume: int, spendAtomic: int)

  datatype AbuseFlag = AbuseFlag(
    accountAddress: string, metric: Metric, zscore: real, windowStartMs: int, windowEndMs: int)

  function MetricOf(a: AccountAggregate, m: Metric): real {
    match m case CallVolume => a.callVolume as real case SpendAtomic => a.spendAtomic as real
  }

  function Values(aggs: seq<AccountAggregate>, m: Metric): (v: seq<real>)
    ensures |v| == |aggs|
  {
    seq(|aggs|, i requires 0 <= i < |aggs| => MetricOf(aggs[i], m))
  }

  function FlagFor(a: AccountAggregate, m: Metric, st: Stats, sigma: real, start: int, end: int): seq<AbuseFlag> {
    if Flagged(st, MetricOf(a, m), sigma) then
      [AbuseFlag(a.accountAddress, m, (MetricOf(a, m) - st.mean) / st.stddev, start, end)]
    else []
  }

  /** One flag per account and metric over the bar, in account order. */
  function FlagsOf(
    aggs: seq<AccountAggregate>, vol: Stats, spend: Stats, sigma: real, start: int, end: int): seq<AbuseFlag>
  {
    if aggs == [] then [] else
    var a := aggs[|aggs| - 1];
    FlagsOf(aggs[..|aggs| - 1], vol, spend, sigma, start, end)
      + FlagFor(a, CallVolume, vol, sigma, start, end)
      + FlagFor(a, SpendAtomic, spend, sigma, start, end)
  }

  method DetectAbuse(aggs: seq<AccountAggregate>, start: int, end: int, sigma: real, sqrt: real -> real)
    returns (flags: seq<AbuseFlag>)
    ensures flags == if |aggs| < 2 then [] else
      FlagsOf(aggs, PopulationStats(Values(aggs, CallVolume), sqrt), PopulationStats(Values(aggs, SpendAtomic), sqrt),
              sigma, start, end)
    ensures |aggs| >= 2 && DistinctAccounts(aggs) ==>
      FlagsRight(flags, aggs, PopulationStats(Values(aggs, CallVolume), sqrt), PopulationStats(Values(aggs, SpendAtomic), sqrt),
                 sigma, start, end)
  {
    if |aggs| < 2 {
      return [];
    }
    var vol := PopulationStats(Values(aggs, CallVolume), sqrt);
    var spend := PopulationStats(Values(aggs, SpendAtomic), sqrt);
    flags := [];
    for i := 0 to |aggs|
      invariant flags == FlagsOf(aggs[..i], vol, spend, sigma, start, end)
    {
      assert aggs[..i + 1][..i] == aggs[..i];
      var a := aggs[i];
      if vol.stddev > 0.0 {
        var z := (MetricOf(a, CallVolume) - vol.mean) / vol.stddev;
        if z >= sigma {
          flags := flags + [AbuseFlag(a.accountAddress, CallVolume, z, start, end)];
        }
      }
      if spend.stddev > 0.0 {
        var z := (MetricOf(a, SpendAtomic) - spend.mean) / spend.stddev;
        if z >= sigma {
          flags := flags + [AbuseFlag(a.accountAddress, SpendAtomic, z, start, end)];
        }
      }
    }
    assert aggs[..|aggs|] == aggs;
    if DistinctAccounts(aggs) {
      hide FlagsOf;
      hide FlagsRight;
      FlagsOfRight(aggs, |aggs|, vol, spend, sigma, start, end);
    }
  }

  // ----- what the flags say, account by account -----

  predicate DistinctAccounts(aggs: seq<AccountAggregate>) {
    forall i, j | 0 <= i < j < |aggs| :: aggs[i].accountAddress != aggs[j].accountAddress
  }

  /** The value of entry `i` on the metric lies `sigma` deviations or more above the mean. */
  predicate Outlier(v: seq<real>, st: Stats, sigma: real, i: nat)
    requires i < |v|
  {
    st.stddev > 0.0 && v[i] >= st.mean + sigma * st.stddev
  }

  /** The flag names the account of entry `i`, its score on the metric's values `v`, and the window. */
  predicate FlagNames(
    f: AbuseFlag, aggs: seq<AccountAggregate>, m: Metric, v: seq<real>, st: Stats, start: int, end: int, i: nat)
    requires i < |aggs| == |v|
  {
    && f.accountAddress == aggs[i].accountAddress && f.metric == m
    && f.zscore * st.stddev == v[i] - st.mean
    && f.windowStartMs == start && f.windowEndMs == end
  }

  predicate HasFlag(flags: seq<AbuseFlag>, account: string, m: Metric) {
    exists k :: 0 <= k < |flags| && flags[k].accountAddress == account && flags[k].metric == m
  }

  /** The flags on one metric are the outliers among the entries, by name, each with its own score. */
  ghost predicate FlagsOutliers(
    flags: seq<AbuseFlag>, aggs: seq<AccountAggregate>, m: Metric, v: seq<real>, st: Stats, sigma: real, start: int, end: int)
    requires |v| == |aggs|
  {
    && (forall i | 0 <= i < |aggs| :: HasFlag(flags, aggs[i].accountAddress, m) <==> Outlier(v, st, sigma, i))
    && (forall k | 0 <= k < |flags| && flags[k].metric == m ::
          exists i :: 0 <= i < |aggs| && FlagNames(flags[k], aggs, m, v, st, start, end, i))
  }

  predicate FlaggedOnce(flags: seq<AbuseFlag>) {
    forall i, j | 0 <= i < j < |flags| ::
      flags[i].accountAddress != flags[j].accountAddress || flags[i].metric != flags[j].metric
  }

  lemma BarIsOutlier(x: real, st: Stats, sigma: real)
    ensures Flagged(st, x, sigma) <==> st.stddev > 0.0 && x >= st.mean + sigma * st.stddev
  {
    if st.stddev > 0.0 {
      QuotientCompare(x - st.mean, st.stddev, sigma);
    }
  }

  lemma ScoreTimesSpread(x: real, st: Stats)
    requires st.stddev > 0.0
    ensures ((x - st.mean) / st.stddev) * st.stddev == x - st.mean
  {
  }

  /** What one account's turn adds to the flags. */
  lemma FlagForMeans(a: AccountAggregate, m: Metric, st: Stats, sigma: real, start: int, end: int)
    ensures var f := FlagFor(a, m, st, sigma, start, end);
            && |f| == (if st.stddev > 0.0 && MetricOf(a, m) >= st.mean + sigma * st.stddev then 1 else 0)
            && (|f| == 1 ==>
              && f[0].accountAddress == a.accountAddress && f[0].metric == m
              && f[0].zscore * st.stddev == MetricOf(a, m) - st.mean
              && f[0].windowStartMs == start && f[0].windowEndMs == end)
  {
    hide MetricOf;
    BarIsOutlier(MetricOf(a, m), st, sigma);
    if st.stddev > 0.0 {
      ScoreTimesSpread(MetricOf(a, m), st);
    }
  }

  lemma HasFlagConcat(a: seq<AbuseFlag>, b: seq<AbuseFlag>, account: string, m: Metric)
    ensures HasFlag(a + b, account, m) <==> HasFlag(a, account, m) || HasFlag(b, account, m)
  {
    var c := a + b;
    if HasFlag(a, account, m) {
      var k :| 0 <= k < |a| && a[k].accountAddress == account && a[k].metric == m;
      assert c[k] == a[k];
    }
    if HasFlag(b, account, m) {
      var k :| 0 <= k < |b| && b[k].accountAddress == account && b[k].metric == m;
      assert c[|a| + k] == b[k];
    }
  }

  /** The flags name only entries, in entry order, so no account is flagged twice on a metric. */
  ghost predicate FromEntries(flags: seq<AbuseFlag>, aggs: seq<AccountAggregate>) {
    forall k | 0 <= k < |flags| :: Names(aggs, flags[k].accountAddress)
  }

  /** The three things said of the flags of a population. */
  ghost predicate FlagsRight(
    flags: seq<AbuseFlag>, aggs: seq<AccountAggregate>, vol: Stats, spend: Stats, sigma: real, start: int, end: int)
  {
    && FlagsOutliers(flags, aggs, CallVolume, Values(aggs, CallVolume), vol, sigma, start, end)
    && FlagsOutliers(flags, aggs, SpendAtomic, Values(aggs, SpendAtomic), spend, sigma, start, end)
    && FlaggedOnce(flags) && FromEntries(flags, aggs)
    && forall i | 0 <= i < |aggs| ::
      && Values(aggs, CallVolume)[i] == aggs[i].callVolume as real
      && Values(aggs, SpendAtomic)[i] == aggs[i].spendAtomic as real
  }

  lemma OutliersGrow(
    before: seq<AbuseFlag>, more: seq<AbuseFlag>, aggs: seq<AccountAggregate>, n: nat, m: Metric, st: Stats, sigma: real,
    start: int, end: int)
    requires n < |aggs| && DistinctAccounts(aggs) && FromEntries(before, aggs[..n])
    requires FlagsOutliers(before, aggs[..n], m, Values(aggs[..n], m), st, sigma, start, end)
    requires forall k | 0 <= k < |more| :: more[k].accountAddress == aggs[n].accountAddress
    requires HasFlag(more, aggs[n].accountAddress, m) <==> Outlier(Values(aggs, m), st, sigma, n)
    requires forall k | 0 <= k < |more| && more[k].metric == m ::
      FlagNames(more[k], aggs, m, Values(aggs, m), st, start, end, n)
    ensures FlagsOutliers(before + more, aggs[..n + 1], m, Values(aggs[..n + 1], m), st, sigma, start, end)
  {
    var next, v, flags := aggs[..n + 1], Values(aggs[..n + 1], m), before + more;
    forall i | 0 <= i < |next| ensures HasFlag(flags, next[i].accountAddress, m) <==> Outlier(v, st, sigma, i) {
      HasFlagConcat(before, more, next[i].accountAddress, m);
      if i < n {
        assert next[i] == aggs[..n][i] && v[i] == Values(aggs[..n], m)[i];
        assert !HasFlag(more, next[i].accountAddress, m);
      } else {
        assert !HasFlag(before, aggs[n].accountAddress, m) by {
          forall k | 0 <= k < |before| ensures before[k].accountAddress != aggs[n].accountAddress {
            assert Names(aggs[..n], before[k].accountAddress);
            var i :| 0 <= i < n && before[k].accountAddress == aggs[..n][i].accountAddress;
          }
        }
      }
    }
    forall k | 0 <= k < |flags| && flags[k].metric == m
      ensures exists i :: 0 <= i < |next| && FlagNames(flags[k], next, m, v, st, start, end, i)
    {
      if k < |before| {
        var i :| 0 <= i < n && FlagNames(before[k], aggs[..n], m, Values(aggs[..n], m), st, start, end, i);
        assert FlagNames(flags[k], next, m, v, st, start, end, i);
      } else {
        assert FlagNames(more[k - |before|], aggs, m, Values(aggs, m), st, start, end, n);
        assert FlagNames(flags[k], next, m, v, st, start, end, n);
      }
    }
  }

  predicate Names(aggs: seq<AccountAggregate>, account: string) {
    exists i :: 0 <= i < |aggs| && account == aggs[i].accountAddress
  }

  lemma EntriesGrow(before: seq<AbuseFlag>, more: seq<AbuseFlag>, aggs: seq<AccountAggregate>, n: nat)
    requires n < |aggs| && FromEntries(before, aggs[..n])
    requires forall k | 0 <= k < |more| :: more[k].accountAddress == aggs[n].accountAddress
    ensures FromEntries(before + more, aggs[..n + 1])
  {
    var flags, next := before + more, aggs[..n + 1];
    forall k | 0 <= k < |flags| ensures Names(next, flags[k].accountAddress) {
      if k < |before| {
        assert Names(aggs[..n], before[k].accountAddress);
        var i :| 0 <= i < n && before[k].accountAddress == aggs[..n][i].accountAddress;
        assert next[i] == aggs[..n][i];
      } else {
        assert flags[k] == more[k - |before|] && next[n] == aggs[n];
      }
    }
  }

  lemma OnceGrows(before: seq<AbuseFlag>, more: seq<AbuseFlag>, aggs: seq<AccountAggregate>, n: nat)
    requires n < |aggs| && DistinctAccounts(aggs) && FromEntries(before, aggs[..n])
    requires FlaggedOnce(before) && FlaggedOnce(more)
    requires forall k | 0 <= k < |more| :: more[k].accountAddress == aggs[n].accountAddress
    ensures FlaggedOnce(before + more)
  {
    var flags := before + more;
    forall k | 0 <= k < |before| ensures before[k].accountAddress != aggs[n].accountAddress {
      assert Names(aggs[..n], before[k].accountAddress);
      var i :| 0 <= i < n && before[k].accountAddress == aggs[..n][i].accountAddress;
    }
    forall i, j | 0 <= i < j < |flags|
      ensures flags[i].accountAddress != flags[j].accountAddress || flags[i].metric != flags[j].metric
    {
      if |before| <= i {
        assert flags[i] == more[i - |before|] && flags[j] == more[j - |before|];
      } else if |before| <= j {
        assert flags[i] == before[i] && flags[j] == more[j - |before|];
      } else {
        assert flags[i] == before[i] && flags[j] == before[j];
      }
    }
  }

  lemma {:induction false} FlagsOfRight(
    aggs: seq<AccountAggregate>, n: nat, vol: Stats, spend: Stats, sigma: real, start: int, end: int)
    requires DistinctAccounts(aggs) && n <= |aggs|
    ensures FlagsRight(FlagsOf(aggs[..n], vol, spend, sigma, start, end), aggs[..n], vol, spend, sigma, start, end)
  {
    if n > 0 {
      FlagsOfRight(aggs, n - 1, vol, spend, sigma, start, end);
      LastFlags(aggs, n - 1, vol, spend, sigma, start, end);
    }
  }

  lemma ValuesAre(aggs: seq<AccountAggregate>)
    ensures forall i | 0 <= i < |aggs| ::
      && Values(aggs, CallVolume)[i] == aggs[i].callVolume as real
      && Values(aggs, SpendAtomic)[i] == aggs[i].spendAtomic as real
  {
  }

  lemma LastFlags(
    aggs: seq<AccountAggregate>, n: nat, vol: Stats, spend: Stats, sigma: real, start: int, end: int)
    requires DistinctAccounts(aggs) && n < |aggs|
    requires FlagsRight(FlagsOf(aggs[..n], vol, spend, sigma, start, end), aggs[..n], vol, spend, sigma, start, end)
    ensures FlagsRight(FlagsOf(aggs[..n + 1], vol, spend, sigma, start, end), aggs[..n + 1], vol, spend, sigma, start, end)
  {
    hide FlagFor;
    hide FlagsOutliers;
    hide FromEntries;
    hide FlaggedOnce;
    hide HasFlag;
    hide FlagNames;
    hide Outlier;
    hide DistinctAccounts;
    hide Values;
    var before := FlagsOf(aggs[..n], vol, spend, sigma, start, end);
    var f, g := FlagFor(aggs[n], CallVolume, vol, sigma, start, end), FlagFor(aggs[n], SpendAtomic, spend, sigma, start, end);
    assert aggs[..n + 1][..n] == aggs[..n];
    assert FlagsOf(aggs[..n + 1], vol, spend, sigma, start, end) == before + f + g;
    assert before + f + g == before + (f + g);
    PairOfFlags(aggs, n, vol, spend, sigma, start, end);
    OutliersGrow(before, f + g, aggs, n, CallVolume, vol, sigma, start, end);
    OutliersGrow(before, f + g, aggs, n, SpendAtomic, spend, sigma, start, end);
    OnceGrows(before, f + g, aggs, n);
    EntriesGrow(before, f + g, aggs, n);
    ValuesAre(aggs[..n + 1]);
  }

  lemma PairOfFlags(aggs: seq<AccountAggregate>, n: nat, vol: Stats, spend: Stats, sigma: real, start: int, end: int)
    requires n < |aggs|
    ensures var f := FlagFor(aggs[n], CallVolume, vol, sigma, start, end)
                       + FlagFor(aggs[n], SpendAtomic, spend, sigma, start, end);
            && (forall k | 0 <= k < |f| :: f[k].accountAddress == aggs[n].accountAddress)
            && (HasFlag(f, aggs[n].accountAddress, CallVolume) <==> Outlier(Values(aggs, CallVolume), vol, sigma, n))
            && (HasFlag(f, aggs[n].accountAddress, SpendAtomic) <==> Outlier(Values(aggs, SpendAtomic), spend, sigma, n))
            && (forall k | 0 <= k < |f| && f[k].metric == CallVolume ::
                  FlagNames(f[k], aggs, CallVolume, Values(aggs, CallVolume), vol, start, end, n))
            && (forall k | 0 <= k < |f| && f[k].metric == SpendAtomic ::
                  FlagNames(f[k], aggs, SpendAtomic, Values(aggs, SpendAtomic), spend, start, end, n))
            && FlaggedOnce(f)
  {
    hide FlagFor;
    FlagForMeans(aggs[n], CallVolume, vol, sigma, start, end);
    FlagForMeans(aggs[n], SpendAtomic, spend, sigma, start, end);
    var f, g := FlagFor(aggs[n], CallVolume, vol, sigma, start, end), FlagFor(aggs[n], SpendAtomic, spend, sigma, start, end);
    var all := f + g;
    if |f| == 1 {
      assert all[0] == f[0];
    }
    if |g| == 1 {
      assert all[|f|] == g[0];
    }
  }

  function CountMetric(flags: seq<AbuseFlag>, m: Metric): nat {
    if flags == [] then 0
    else CountMetric(flags[..|flags| - 1], m) + (if flags[|flags| - 1].metric == m then 1 else 0)
  }

  lemma {:induction false} CountMetricConcat(a: seq<AbuseFlag>, b: seq<AbuseFlag>, m: Metric)
    ensures CountMetric(a + b, m) == CountMetric(a, m) + CountMetric(b, m)
  {
    if b == [] {
      assert a + b == a;
    } else {
      CountMetricConcat(a, b[..|b| - 1], m);
      assert (a + b)[..|a + b| - 1] == a + b[..|b| - 1];
    }
  }

  lemma CountFlagFor(a: AccountAggregate, of: Metric, st: Stats, sigma: real, start: int, end: int, m: Metric)
    ensures CountMetric(FlagFor(a, of, st, sigma, start, end), m)
         == if of == m && Flagged(st, MetricOf(a, of), sigma) then 1 else 0
  {
    var f := FlagFor(a, of, st, sigma, start, end);
    assert f != [] ==> f[..|f| - 1] == [];
  }

  lemma {:induction false} FlagsPerMetric(
    aggs: seq<AccountAggregate>, vol: Stats, spend: Stats, sigma: real, start: int, end: int, m: Metric)
    ensures CountMetric(FlagsOf(aggs, vol, spend, sigma, start, end), m)
         == CountFlagged(Values(aggs, m), if m.CallVolume? then vol else spend, sigma)
  {
    if aggs != [] {
      var init, a := aggs[..|aggs| - 1], aggs[|aggs| - 1];
      FlagsPerMetric(init, vol, spend, sigma, start, end, m);
      var f0 := FlagsOf(init, vol, spend, sigma, start, end);
      var f1 := FlagFor(a, CallVolume, vol, sigma, start, end);
      var f2 := FlagFor(a, SpendAtomic, spend, sigma, start, end);
      CountMetricConcat(f0 + f1, f2, m);
      CountMetricConcat(f0, f1, m);
      CountFlagFor(a, CallVolume, vol, sigma, start, end, m);
      CountFlagFor(a, SpendAtomic, spend, sigma, start, end, m);
      assert Values(aggs, m)[..|aggs| - 1] == Values(init, m);
    }
  }

  // ----- order and products -----

  lemma ProductPositive(a: real, b: real)
    requires a > 0.0 && b > 0.0
    ensures a * b > 0.0
  {
  }

  lemma Product(a: real, b: real) returns (q: real)
    requires a > 0.0 && b > 0.0
    ensures q == a * b && q > 0.0
  {
    ProductPositive(a, b);
    q := a * b;
  }

  lemma ScaledCompare(x: real, y: real, c: real)
    requires c > 0.0
    ensures x >= y <==> c * x >= c * y
  {
    assert c * x - c * y == c * (x - y);
    if x < y {
      ProductPositive(c, y - x);
    }
  }

  lemma PositiveFactor(a: real, b: real)
    requires a > 0.0 && a * b > 0.0
    ensures b > 0.0
  {
  }

  // ----- how many can be flagged -----

  /** The deviations of the flagged values, summed. */
  function FlaggedDev(v: seq<real>, st: Stats, sigma: real): real {
    if v == [] then 0.0 else
    FlaggedDev(v[..|v| - 1], st, sigma)
      + (if Flagged(st, v[|v| - 1], sigma) then v[|v| - 1] - st.mean else 0.0)
  }

  lemma AboveTangent(y: real, c: real)
    ensures Square(y) >= 2.0 * c * y - c * c
  {
    SquareNonNegative(y - c);
    assert Square(y - c) == Square(y) - 2.0 * c * y + c * c;
  }

  lemma FlaggedBar(st: Stats, x: real, sigma: real)
    requires Flagged(st, x, sigma)
    ensures x - st.mean >= sigma * st.stddev
  {
    var z := (x - st.mean) / st.stddev;
    assert z * st.stddev == x - st.mean;
    assert (z - sigma) * st.stddev >= 0.0;
  }

  lemma {:induction false} FlaggedDevAtLeast(v: seq<real>, st: Stats, sigma: real)
    ensures FlaggedDev(v, st, sigma) >= CountFlagged(v, st, sigma) as real * (sigma * st.stddev)
  {
    if v != [] {
      var init := v[..|v| - 1];
      FlaggedDevAtLeast(init, st, sigma);
      var k := CountFlagged(init, st, sigma) as real;
      if Flagged(st, v[|v| - 1], sigma) {
        FlaggedBar(st, v[|v| - 1], sigma);
        assert (k + 1.0) * (sigma * st.stddev) == k * (sigma * st.stddev) + sigma * st.stddev;
      }
    }
  }

  /** Two tangents to the square, one at `t` for the `k` flagged of `n` values and one at `-d` for the rest. */
  function Tangents(t: real, d: real, k: real, n: real, flaggedDev: real, restDev: real): real {
    2.0 * t * flaggedDev - k * (t * t) - 2.0 * d * restDev - (n - k) * (d * d)
  }

  lemma TangentsFlagged(t: real, d: real, k: real, n: real, f: real, r: real, y: real)
    ensures Tangents(t, d, k + 1.0, n + 1.0, f + y, r) == Tangents(t, d, k, n, f, r) + (2.0 * t * y - t * t)
  {
  }

  lemma TangentsOther(t: real, d: real, k: real, n: real, f: real, r: real, y: real)
    ensures Tangents(t, d, k, n + 1.0, f, r + y) == Tangents(t, d, k, n, f, r) + (2.0 * -d * y - -d * -d)
  {
  }

  /** The deviations of the values that are not flagged, summed. */
  function RestDev(v: seq<real>, st: Stats, sigma: real): real {
    if v == [] then 0.0 else
    RestDev(v[..|v| - 1], st, sigma)
      + (if Flagged(st, v[|v| - 1], sigma) then 0.0 else v[|v| - 1] - st.mean)
  }

  lemma {:induction false} DevsAddUp(v: seq<real>, st: Stats, sigma: real)
    ensures FlaggedDev(v, st, sigma) + RestDev(v, st, sigma) == Sum(v) - |v| as real * st.mean
  {
    if v != [] {
      DevsAddUp(v[..|v| - 1], st, sigma);
      var n := (|v| - 1) as real;
      assert (n + 1.0) * st.mean == n * st.mean + st.mean;
    }
  }

  lemma {:induction false} TangentBound(v: seq<real>, st: Stats, sigma: real, t: real, d: real)
    ensures SquareDev(v, st.mean)
         >= Tangents(t, d, CountFlagged(v, st, sigma) as real, |v| as real, FlaggedDev(v, st, sigma), RestDev(v, st, sigma))
  {
    if v != [] {
      var init, y := v[..|v| - 1], v[|v| - 1] - st.mean;
      TangentBound(init, st, sigma, t, d);
      var k, n := CountFlagged(init, st, sigma) as real, |init| as real;
      var f, r := FlaggedDev(init, st, sigma), RestDev(init, st, sigma);
      if Flagged(st, v[|v| - 1], sigma) {
        AboveTangent(y, t);
        TangentsFlagged(t, d, k, n, f, r, y);
      } else {
        AboveTangent(y, -d);
        TangentsOther(t, d, k, n, f, r, y);
      }
    }
  }

  lemma SpreadArithmetic(k: real, t: real, n: real, d: real, f: real)
    requires t > 0.0 && d >= 0.0 && f >= k * t && (n - k) * d == k * t
    ensures Tangents(t, d, k, n, f, -f) >= k * t * (t + d)
  {
    assert (n - k) * (d * d) == ((n - k) * d) * d;
    assert 2.0 * t * f - 2.0 * d * -f == 2.0 * ((t + d) * f);
    assert (t + d) * (f - k * t) >= 0.0;
    assert (t + d) * f >= (t + d) * (k * t);
    assert (t + d) * (k * t) == k * (t * t) + (k * t) * d;
    assert k * t * (t + d) == k * (t * t) + (k * t) * d;
  }

  lemma MeanBalances(v: seq<real>)
    requires v != []
    ensures Sum(v) - |v| as real * Mean(v) == 0.0
  {
  }

  /** With `k` of `n` values at least `t` above the mean, the squared deviations add up to at least k·t·(t + k·t/(n - k)). */
  lemma SpreadNeeded(v: seq<real>, st: Stats, sigma: real, k: real, n: real, t: real, d: real)
    requires v != [] && st.mean == Mean(v)
    requires k == CountFlagged(v, st, sigma) as real && n == |v| as real && t == sigma * st.stddev
    requires t > 0.0 && d >= 0.0 && (n - k) * d == k * t
    ensures SquareDev(v, st.mean) >= k * t * (t + d)
  {
    hide *;
    var f := FlaggedDev(v, st, sigma);
    TangentBound(v, st, sigma, t, d);
    FlaggedDevAtLeast(v, st, sigma);
    DevsBalance(v, st, sigma);
    SpreadArithmetic(k, t, n, d, f);
  }

  lemma DevsBalance(v: seq<real>, st: Stats, sigma: real)
    requires v != [] && st.mean == Mean(v)
    ensures RestDev(v, st, sigma) == -FlaggedDev(v, st, sigma)
  {
    hide FlaggedDev;
    hide RestDev;
    MeanBalances(v);
    DevsAddUp(v, st, sigma);
  }

  lemma {:induction false} CountAtMostAll(v: seq<real>, st: Stats, sigma: real)
    ensures CountFlagged(v, st, sigma) <= |v|
  {
    if v != [] {
      CountAtMostAll(v[..|v| - 1], st, sigma);
    }
  }

  lemma NotAllFlagged(v: seq<real>, st: Stats, sigma: real)
    requires v != [] && st.mean == Mean(v) && sigma * st.stddev > 0.0
    ensures CountFlagged(v, st, sigma) < |v|
  {
    hide *;
    CountAtMostAll(v, st, sigma);
    if CountFlagged(v, st, sigma) == |v| {
      FlaggedDevAtLeast(v, st, sigma);
      DevsBalance(v, st, sigma);
      AllFlaggedNoRest(v, st, sigma);
      ProductPositive(|v| as real, sigma * st.stddev);
      assert false;
    }
  }

  lemma {:induction false} AllFlaggedNoRest(v: seq<real>, st: Stats, sigma: real)
    requires CountFlagged(v, st, sigma) == |v|
    ensures RestDev(v, st, sigma) == 0.0
  {
    if v != [] {
      CountAtMostAll(v[..|v| - 1], st, sigma);
      AllFlaggedNoRest(v[..|v| - 1], st, sigma);
    }
  }

  /** `s` is the sample standard deviation of `v`. */
  predicate IsStddev(v: seq<real>, s: real)
    requires |v| >= 2
  {
    s >= 0.0 && s * s == Variance(v)
  }

  /** The inequality between the number flagged and the population size. */
  predicate Bounded(k: real, n: real, sigma: real) { (n - 1.0) * (n - k) >= sigma * sigma * k * n }

  lemma BoundArithmetic(k: real, n: real, s: real, sigma: real, t: real, d: real, dev: real)
    requires 0.0 <= k < n && s > 0.0 && t == sigma * s && (n - k) * d == k * t
    requires dev == (n - 1.0) * (s * s) && dev >= k * t * (t + d)
    ensures Bounded(k, n, sigma)
  {
    var u := n - k;
    var q := Product(s, s);
    calc {
      u * (k * t * (t + d));
      k * t * (u * t + u * d);
      k * t * (u * t + k * t);
      k * t * (n * t);
      k * n * (t * t);
      { assert t * t == sigma * sigma * q; }
      k * n * (sigma * sigma * q);
      (sigma * sigma * k * n) * q;
    }
    CompareProducts((n - 1.0) * u, sigma * sigma * k * n, q, dev, k * t * (t + d), u);
  }

  lemma CompareProducts(a: real, b: real, q: real, x: real, y: real, u: real)
    requires q > 0.0 && u > 0.0 && x >= y && u * x == a * q && u * y == b * q
    ensures a >= b
  {
    ScaledCompare(x, y, u);
    ScaledCompare(a, b, q);
  }

  /** The mean is the sum shared out; the spread is the root of the squared deviations over n - 1, and 0 below two values. */
  lemma StatsMean(v: seq<real>, sqrt: real -> real)
    requires IsSqrt(sqrt)
    ensures var st := PopulationStats(v, sqrt);
            && st.n == |v| && st.mean * |v| as real == Sum(v) && (v == [] ==> st.mean == 0.0)
            && st.stddev >= 0.0 && (|v| < 2 ==> st.stddev == 0.0)
            && (|v| >= 2 ==> (|v| as real - 1.0) * (st.stddev * st.stddev) == SquareDev(v, st.mean))
  {
    hide SquareDev;
    hide Sum;
    if v == [] {
      NothingSummed();
    } else {
      SharedOut(Sum(v), |v| as real);
    }
    if |v| >= 2 {
      VarianceNonNegative(v);
      SharedOut(SquareDev(v, Mean(v)), (|v| - 1) as real);
    }
  }

  lemma NothingSummed()
    ensures Sum([]) == 0.0
  {
  }

  lemma SharedOut(total: real, n: real)
    requires n > 0.0
    ensures total / n * n == total
  {
  }

  lemma VarianceNonNegative(v: seq<real>)
    requires |v| >= 2
    ensures Variance(v) >= 0.0
  {
    hide SquareDev;
    hide Mean;
    SquareDevNonNegative(v, Mean(v));
  }

  lemma SpreadOf(v: seq<real>, st: Stats)
    requires |v| >= 2 && st.mean == Mean(v) && IsStddev(v, st.stddev)
    ensures SquareDev(v, st.mean) == (|v| as real - 1.0) * (st.stddev * st.stddev)
  {
    hide SquareDev;
  }

  lemma Quotient(k: real, t: real, u: real) returns (d: real)
    requires k >= 0.0 && t > 0.0 && u > 0.0
    ensures d == k * t / u && d >= 0.0 && u * d == k * t
  {
    d := k * t / u;
    assert k * t >= 0.0;
  }

  lemma FlagBoundSpread(v: seq<real>, st: Stats, sigma: real)
    requires |v| >= 2 && st.mean == Mean(v) && IsStddev(v, st.stddev) && sigma > 0.0 && st.stddev > 0.0
    ensures Bounded(CountFlagged(v, st, sigma) as real, |v| as real, sigma)
  {
    hide *;
    var k, n, t := CountFlagged(v, st, sigma) as real, |v| as real, sigma * st.stddev;
    ProductPositive(sigma, st.stddev);
    NotAllFlagged(v, st, sigma);
    var d := Quotient(k, t, n - k);
    SpreadNeeded(v, st, sigma, k, n, t, d);
    SpreadOf(v, st);
    BoundArithmetic(k, n, st.stddev, sigma, t, d, SquareDev(v, st.mean));
  }

  /**
   * How many of `n` values can stand `sigma` sample standard deviations or more above their mean:
   * at most the `k` with (n - 1)(n - k) >= sigma² k n.
   */
  lemma FlagBound(v: seq<real>, st: Stats, sigma: real)
    requires |v| >= 2 && st.mean == Mean(v) && IsStddev(v, st.stddev) && sigma > 0.0
    ensures Bounded(CountFlagged(v, st, sigma) as real, |v| as real, sigma)
  {
    if st.stddev > 0.0 {
      FlagBoundSpread(v, st, sigma);
    } else {
      NoSpreadNoFlags(v, st, sigma);
    }
  }

  lemma {:induction false} NoSpreadNoFlags(v: seq<real>, st: Stats, sigma: real)
    requires st.stddev <= 0.0
    ensures CountFlagged(v, st, sigma) == 0
  {
    if v != [] {
      NoSpreadNoFlags(v[..|v| - 1], st, sigma);
    }
  }

  lemma ThreeSigmaIntegers(k: nat, n: nat)
    requires n >= 2 && (n - 1) * (n - k) >= 9 * k * n
    ensures k * (10 * n - 1) <= n * (n - 1)
    ensures 9 * k <= n - 1
    ensures n <= 10 ==> k == 0
  {
    assert (n - 1) * (n - k) == n * (n - 1) - k * (n - 1);
    assert k * (10 * n - 1) == 9 * k * n + k * (n - 1);
    NinthBound(k, n);
    if k >= 1 {
      assert k * (10 * n - 1) >= 10 * n - 1;
      assert n * (n - 1) >= 10 * n - 1;
    }
  }

  lemma NinthBound(k: nat, n: nat)
    requires n >= 2 && k * (10 * n - 1) <= n * (n - 1)
    ensures 9 * k <= n - 1
  {
    assert k * (9 * n) <= k * (10 * n - 1);
    assert n * (9 * k) <= n * (n - 1);
  }

  lemma StddevOfSqrt(v: seq<real>, sqrt: real -> real)
    requires |v| >= 2 && IsSqrt(sqrt)
    ensures PopulationStats(v, sqrt).mean == Mean(v) && IsStddev(v, PopulationStats(v, sqrt).stddev)
  {
    hide SquareDev;
    SquareDevNonNegative(v, Mean(v));
    assert Variance(v) >= 0.0;
  }

  /** What the detector reports at three sigma, per metric: nobody among ten or fewer accounts, at most (n - 1)/9 of n. */
  lemma ThreeSigmaFlags(aggs: seq<AccountAggregate>, start: int, end: int, sqrt: real -> real, m: Metric)
    requires |aggs| >= 2 && IsSqrt(sqrt)
    ensures var vol := PopulationStats(Values(aggs, CallVolume), sqrt);
            var spend := PopulationStats(Values(aggs, SpendAtomic), sqrt);
            var count := CountMetric(FlagsOf(aggs, vol, spend, 3.0, start, end), m);
            && (|aggs| <= 10 ==> count == 0)
            && 9 * count <= |aggs| - 1
            && count * (10 * |aggs| - 1) <= |aggs| * (|aggs| - 1)
  {
    hide *;
    var v := Values(aggs, m);
    var vol, spend := PopulationStats(Values(aggs, CallVolume), sqrt), PopulationStats(Values(aggs, SpendAtomic), sqrt);
    var st := if m.CallVolume? then vol else spend;
    FlagsPerMetric(aggs, vol, spend, 3.0, start, end, m);
    StddevOfSqrt(v, sqrt);
    FlagBound(v, st, 3.0);
    FromReals(CountFlagged(v, st, 3.0), |v|);
    ThreeSigmaIntegers(CountFlagged(v, st, 3.0), |v|);
  }

  lemma FromReals(k: nat, n: nat)
    requires Bounded(k as real, n as real, 3.0)
    ensures (n - 1) * (n - k) >= 9 * k * n
  {
    assert ((n - 1) * (n - k)) as real == (n as real - 1.0) * (n as real - k as real);
    assert (9 * k * n) as real == 9.0 * k as real * n as real;
  }

  // ----- the bound is attained -----

  /** `k` accounts at one level and the rest at a lower one: the most concentrated population. */
  function TwoLevel(k: nat, n: nat, high: real, low: real): (v: seq<real>)
    requires k <= n
    ensures |v| == n
  {
    seq(n, i => if i < n - k then low else high)
  }

  lemma TwoLevelInit(k: nat, n: nat, high: real, low: real)
    requires k <= n && n > 0
    ensures TwoLevel(k, n, high, low)[n - 1] == if k > 0 then high else low
    ensures TwoLevel(k, n, high, low)[..n - 1] == TwoLevel(if k > 0 then k - 1 else 0, n - 1, high, low)
  {
  }

  lemma AddOne(a: nat, x: real)
    requires a > 0
    ensures a as real * x == (a - 1) as real * x + x
  {
  }

  lemma {:induction false} TwoLevelSum(k: nat, n: nat, high: real, low: real)
    requires k <= n
    ensures Sum(TwoLevel(k, n, high, low)) == k as real * high + (n - k) as real * low
  {
    if n > 0 {
      TwoLevelInit(k, n, high, low);
      if k > 0 {
        TwoLevelSum(k - 1, n - 1, high, low);
        AddOne(k, high);
      } else {
        TwoLevelSum(0, n - 1, high, low);
        AddOne(n, low);
      }
    }
  }

  lemma {:induction false} TwoLevelDev(k: nat, n: nat, high: real, low: real, m: real)
    requires k <= n
    ensures SquareDev(TwoLevel(k, n, high, low), m) == k as real * Square(high - m) + (n - k) as real * Square(low - m)
  {
    hide Square;
    hide TwoLevel;
    if n > 0 {
      TwoLevelInit(k, n, high, low);
      if k > 0 {
        TwoLevelDev(k - 1, n - 1, high, low, m);
        AddOne(k, Square(high - m));
      } else {
        TwoLevelDev(0, n - 1, high, low, m);
        AddOne(n, Square(low - m));
      }
    }
  }

  lemma TwoLevelArithmetic(k: real, n: real, gap: real, m: real, high: real, low: real)
    requires 0.0 < k < n && gap == high - low && n * m == k * high + (n - k) * low
    ensures n * (high - m) == (n - k) * gap
    ensures n * (k * Square(high - m) + (n - k) * Square(low - m)) == k * ((n - k) * Square(gap))
  {
    var a, b := high - m, m - low;
    assert n * a == (n - k) * gap && n * b == k * gap;
    assert Square(low - m) == Square(b);
    assert k * a == (n - k) * b by {
      assert n * (k * a - (n - k) * b) == 0.0;
    }
    calc {
      n * (k * (a * a) + (n - k) * (b * b));
      (n * a) * (k * a) + ((n - k) * b) * (n * b);
      (n * a) * (k * a) + (k * a) * (n * b);
      (k * a) * (n * (a + b));
      { assert a + b == gap; }
      k * (n * a) * gap;
      k * ((n - k) * gap) * gap;
      k * ((n - k) * (gap * gap));
    }
  }

  lemma SquareCompare(x: real, y: real)
    requires x >= 0.0 && y >= 0.0
    ensures x >= y <==> x * x >= y * y
  {
    assert x * x - y * y == (x - y) * (x + y);
    if x < y {
      ProductPositive(y - x, x + y);
    }
  }

  lemma HighSide(n: real, u: real, gap: real, a: real, w: real, c: real)
    requires n * a == u * gap && w == (n * n) * (n - 1.0) && c == u * (gap * gap)
    ensures w * (a * a) == c * ((n - 1.0) * u)
  {
    assert w * (a * a) == (n - 1.0) * ((n * a) * (n * a));
    Regroup(n - 1.0, u, gap);
  }

  lemma Regroup(p: real, u: real, gap: real)
    ensures p * ((u * gap) * (u * gap)) == (u * (gap * gap)) * (p * u)
  {
  }

  lemma BarSide(k: real, n: real, s: real, sigma: real, y: real, dev: real, w: real, c: real)
    requires n * dev == k * c && dev == (n - 1.0) * (s * s) && y == sigma * s && w == (n * n) * (n - 1.0)
    ensures w * (y * y) == c * (sigma * sigma * k * n)
  {
    var x := n * (sigma * sigma);
    assert w * (y * y) == x * (n * ((n - 1.0) * (s * s)));
    assert x * (n * dev) == x * (k * c);
    assert x * (k * c) == c * (sigma * sigma * k * n);
  }

  lemma CompareChain(x: real, y: real, w: real, p: real, q: real, c: real)
    requires w > 0.0 && c > 0.0 && w * x == c * p && w * y == c * q
    ensures x >= y <==> p >= q
  {
    ScaledCompare(x, y, w);
    ScaledCompare(p, q, c);
  }

  /** The comparison of a high account's score with sigma, cleared of its root and its divisions. */
  lemma HighScore(k: real, n: real, gap: real, a: real, s: real, sigma: real, dev: real)
    requires 0.0 < k < n && n > 1.0 && gap > 0.0 && s > 0.0 && sigma > 0.0 && a >= 0.0
    requires n * a == (n - k) * gap && n * dev == k * ((n - k) * (gap * gap)) && dev == (n - 1.0) * (s * s)
    ensures a >= sigma * s <==> Bounded(k, n, sigma)
  {
    var u := n - k;
    var y := Product(sigma, s);
    var nn := Product(n, n);
    var w := Product(nn, n - 1.0);
    var gg := Product(gap, gap);
    var c := Product(u, gg);
    SquareCompare(a, y);
    HighSide(n, u, gap, a, w, c);
    BarSide(k, n, s, sigma, y, dev, w, c);
    CompareChain(a * a, y * y, w, (n - 1.0) * u, sigma * sigma * k * n, c);
  }

  lemma QuotientCompare(a: real, s: real, sigma: real)
    requires s > 0.0
    ensures a / s >= sigma <==> a >= sigma * s
  {
    assert (a / s) * s == a;
    ScaledCompare(a / s, sigma, s);
  }

  /** The bound is tight: `k` accounts at one high level are flagged exactly when (n - 1)(n - k) >= sigma² k n. */
  lemma TwoLevelFlagged(k: nat, n: nat, high: real, low: real, sigma: real, sqrt: real -> real)
    requires 0 < k < n && low < high && sigma > 0.0 && IsSqrt(sqrt)
    ensures Flagged(PopulationStats(TwoLevel(k, n, high, low), sqrt), high, sigma) <==> Bounded(k as real, n as real, sigma)
  {
    hide Sum;
    hide SquareDev;
    hide Square;
    hide Mean;
    hide Variance;
    hide PopulationStats;
    hide Flagged;
    hide Bounded;
    hide TwoLevel;
    hide IsSqrt;
    var v := TwoLevel(k, n, high, low);
    var st := PopulationStats(v, sqrt);
    TwoLevelSum(k, n, high, low);
    TwoLevelDev(k, n, high, low, st.mean);
    StddevOfSqrt(v, sqrt);
    SpreadOf(v, st);
    MeanBalances(v);
    TwoLevelScore(k as real, n as real, high, low, sigma, st, SquareDev(v, st.mean));
  }

  lemma TwoLevelScore(k: real, n: real, high: real, low: real, sigma: real, st: Stats, dev: real)
    requires 0.0 < k < n && n > 1.0 && low < high && sigma > 0.0 && st.stddev >= 0.0
    requires n * st.mean == k * high + (n - k) * low
    requires dev == k * Square(high - st.mean) + (n - k) * Square(low - st.mean)
    requires dev == (n - 1.0) * (st.stddev * st.stddev)
    ensures Flagged(st, high, sigma) <==> Bounded(k, n, sigma)
  {
    var gap, a, s := high - low, high - st.mean, st.stddev;
    TwoLevelArithmetic(k, n, gap, st.mean, high, low);
    ProductPositive(n - k, gap);
    PositiveFactor(n, a);
    var gg := Product(gap, gap);
    var ugg := Product(n - k, gg);
    var kugg := Product(k, ugg);
    PositiveFactor(n, dev);
    PositiveFactor(n - 1.0, s * s);
    HighScore(k, n, gap, a, s, sigma, dev);
    QuotientCompare(a, s, sigma);
  }

  // ----- shifting and scaling -----

  function AffineOf(x: real, a: real, c: real): real { a * x + c }

  function Affine(v: seq<real>, a: real, c: real): (w: seq<real>)
    ensures |w| == |v|
  {
    seq(|v|, i requires 0 <= i < |v| => AffineOf(v[i], a, c))
  }

  lemma AffineInit(v: seq<real>, a: real, c: real)
    requires v != []
    ensures Affine(v, a, c)[..|v| - 1] == Affine(v[..|v| - 1], a, c)
    ensures Affine(v, a, c)[|v| - 1] == AffineOf(v[|v| - 1], a, c)
  {
    hide AffineOf;
  }

  lemma {:induction false} AffineSum(v: seq<real>, a: real, c: real)
    ensures Sum(Affine(v, a, c)) == a * Sum(v) + |v| as real * c
  {
    if v != [] {
      var n := |v| - 1;
      AffineSum(v[..n], a, c);
      AffineInit(v, a, c);
      assert a * (Sum(v[..n]) + v[n]) == a * Sum(v[..n]) + a * v[n];
    }
  }

  lemma {:induction false} AffineDev(v: seq<real>, a: real, c: real, m: real)
    ensures SquareDev(Affine(v, a, c), a * m + c) == (a * a) * SquareDev(v, m)
  {
    if v != [] {
      var n := |v| - 1;
      AffineDev(v[..n], a, c, m);
      AffineInit(v, a, c);
      AffineSquare(v[n], a, c, m, SquareDev(v[..n], m));
    }
  }

  lemma AffineSquare(x: real, a: real, c: real, m: real, dev: real)
    ensures (a * a) * dev + Square(AffineOf(x, a, c) - (a * m + c)) == (a * a) * (dev + Square(x - m))
  {
    assert AffineOf(x, a, c) - (a * m + c) == a * (x - m);
  }

  lemma AffineMean(v: seq<real>, a: real, c: real)
    requires v != []
    ensures Mean(Affine(v, a, c)) == a * Mean(v) + c
  {
    AffineSum(v, a, c);
    var n := |v| as real;
    hide Sum;
    assert n * (a * Mean(v) + c) == a * Sum(v) + n * c;
  }

  lemma RootUnique(x: real, y: real)
    requires x >= 0.0 && y >= 0.0 && x * x == y * y
    ensures x == y
  {
    SquareCompare(x, y);
    SquareCompare(y, x);
  }

  lemma StddevSquares(v: seq<real>, s: real)
    requires |v| >= 2 && IsStddev(v, s)
    ensures (|v| - 1) as real * (s * s) == SquareDev(v, Mean(v))
  {
    hide SquareDev;
    hide Mean;
  }

  lemma ScaledRoot(n: real, a: real, s: real, s1: real, dev: real)
    requires n > 0.0 && a > 0.0 && s >= 0.0 && s1 >= 0.0
    requires n * (s * s) == dev && n * (s1 * s1) == (a * a) * dev
    ensures s1 == a * s
  {
    assert n * ((a * s) * (a * s)) == (a * a) * (n * (s * s));
    SameScaled(n, s1 * s1, (a * s) * (a * s));
    RootUnique(s1, a * s);
  }

  lemma AffineSpread(v: seq<real>, a: real, c: real)
    requires v != []
    ensures SquareDev(Affine(v, a, c), Mean(Affine(v, a, c))) == (a * a) * SquareDev(v, Mean(v))
  {
    hide SquareDev;
    var m, m1 := Mean(v), Mean(Affine(v, a, c));
    AffineMean(v, a, c);
    AffineDev(v, a, c, m);
    assert m1 == a * m + c;
  }

  lemma AffineStddev(v: seq<real>, a: real, c: real, s: real, s1: real)
    requires |v| >= 2 && a > 0.0 && IsStddev(v, s) && IsStddev(Affine(v, a, c), s1)
    ensures s1 == a * s
  {
    hide SquareDev;
    hide Mean;
    hide Variance;
    hide Affine;
    AffineSpread(v, a, c);
    StddevSquares(v, s);
    StddevSquares(Affine(v, a, c), s1);
    ScaledRoot((|v| - 1) as real, a, s, s1, SquareDev(v, Mean(v)));
  }

  lemma SameScaled(n: real, x: real, y: real)
    requires n > 0.0 && n * x == n * y
    ensures x == y
  {
    ScaledCompare(x, y, n);
    ScaledCompare(y, x, n);
  }

  /** Shifting every value by a constant, or scaling it by a positive one, changes no score and so no flag. */
  lemma ScoresInvariant(v: seq<real>, a: real, c: real, x: real, sigma: real, sqrt: real -> real)
    requires |v| >= 2 && a > 0.0 && IsSqrt(sqrt)
    ensures Flagged(PopulationStats(v, sqrt), x, sigma)
       <==> Flagged(PopulationStats(Affine(v, a, c), sqrt), AffineOf(x, a, c), sigma)
  {
    hide Mean;
    hide Variance;
    hide PopulationStats;
    hide Affine;
    StddevOfSqrt(v, sqrt);
    StddevOfSqrt(Affine(v, a, c), sqrt);
    AffineMean(v, a, c);
    AffineStddev(v, a, c, PopulationStats(v, sqrt).stddev, PopulationStats(Affine(v, a, c), sqrt).stddev);
    ScoreScales(PopulationStats(v, sqrt), PopulationStats(Affine(v, a, c), sqrt), a, c, x, sigma);
  }

  /** `after` holds the same accounts, with metric `m` of every one of them scaled by `a` and shifted by `c`. */
  predicate Rescaled(before: seq<AccountAggregate>, after: seq<AccountAggregate>, m: Metric, a: real, c: real) {
    && |before| == |after|
    && forall i | 0 <= i < |before| :: RescaledEntry(before[i], after[i], m, a, c)
  }

  predicate RescaledEntry(x: AccountAggregate, y: AccountAggregate, m: Metric, a: real, c: real) {
    && y.accountAddress == x.accountAddress
    && MetricOf(y, m) == AffineOf(MetricOf(x, m), a, c)
    && (m.CallVolume? ==> y.spendAtomic == x.spendAtomic)
    && (m.SpendAtomic? ==> y.callVolume == x.callVolume)
  }

  /** Which account was flagged on which metric. */
  function FlagKeys(flags: seq<AbuseFlag>): seq<(string, Metric)> {
    seq(|flags|, i requires 0 <= i < |flags| => (flags[i].accountAddress, flags[i].metric))
  }

  /** Two populations whose accounts are flagged alike, metric by metric. */
  ghost predicate SameVerdicts(
    before: seq<AccountAggregate>, after: seq<AccountAggregate>, m: Metric, st: Stats, st1: Stats, sigma: real)
  {
    && |before| == |after|
    && forall i | 0 <= i < |before| ::
      && after[i].accountAddress == before[i].accountAddress
      && (Flagged(st, MetricOf(before[i], m), sigma) <==> Flagged(st1, MetricOf(after[i], m), sigma))
  }

  lemma AccountFlagKeys(
    x: AccountAggregate, y: AccountAggregate, m: Metric, st: Stats, st1: Stats, sigma: real, start: int, end: int)
    requires y.accountAddress == x.accountAddress
    requires Flagged(st, MetricOf(x, m), sigma) <==> Flagged(st1, MetricOf(y, m), sigma)
    ensures FlagKeys(FlagFor(x, m, st, sigma, start, end)) == FlagKeys(FlagFor(y, m, st1, sigma, start, end))
  {
    hide MetricOf;
  }

  lemma FlagKeysConcat(a: seq<AbuseFlag>, b: seq<AbuseFlag>)
    ensures FlagKeys(a + b) == FlagKeys(a) + FlagKeys(b)
  {
  }

  lemma FlagKeysOfLast(aggs: seq<AccountAggregate>, vol: Stats, spend: Stats, sigma: real, start: int, end: int)
    requires aggs != []
    ensures var n := |aggs| - 1;
            FlagKeys(FlagsOf(aggs, vol, spend, sigma, start, end))
            == FlagKeys(FlagsOf(aggs[..n], vol, spend, sigma, start, end))
                 + FlagKeys(FlagFor(aggs[n], CallVolume, vol, sigma, start, end))
                 + FlagKeys(FlagFor(aggs[n], SpendAtomic, spend, sigma, start, end))
  {
    hide FlagKeys;
    hide FlagFor;
    var n := |aggs| - 1;
    var f0 := FlagsOf(aggs[..n], vol, spend, sigma, start, end);
    var f1 := FlagFor(aggs[n], CallVolume, vol, sigma, start, end);
    FlagKeysConcat(f0 + f1, FlagFor(aggs[n], SpendAtomic, spend, sigma, start, end));
    FlagKeysConcat(f0, f1);
  }

  lemma {:induction false} SameFlagKeys(
    before: seq<AccountAggregate>, after: seq<AccountAggregate>,
    vol: Stats, vol1: Stats, spend: Stats, spend1: Stats, sigma: real, start: int, end: int)
    requires SameVerdicts(before, after, CallVolume, vol, vol1, sigma)
    requires SameVerdicts(before, after, SpendAtomic, spend, spend1, sigma)
    ensures FlagKeys(FlagsOf(before, vol, spend, sigma, start, end))
         == FlagKeys(FlagsOf(after, vol1, spend1, sigma, start, end))
  {
    hide Flagged;
    if before != [] {
      var n := |before| - 1;
      SameFlagKeys(before[..n], after[..n], vol, vol1, spend, spend1, sigma, start, end);
      AccountFlagKeys(before[n], after[n], CallVolume, vol, vol1, sigma, start, end);
      AccountFlagKeys(before[n], after[n], SpendAtomic, spend, spend1, sigma, start, end);
      hide FlagKeys;
      hide FlagFor;
      FlagKeysOfLast(before, vol, spend, sigma, start, end);
      FlagKeysOfLast(after, vol1, spend1, sigma, start, end);
    }
  }

  lemma SameMetricSameVerdicts(before: seq<AccountAggregate>, after: seq<AccountAggregate>, m: Metric, st: Stats, sigma: real)
    requires |before| == |after|
    requires forall i | 0 <= i < |before| ::
      after[i].accountAddress == before[i].accountAddress && MetricOf(after[i], m) == MetricOf(before[i], m)
    ensures SameVerdicts(before, after, m, st, st, sigma) && Values(after, m) == Values(before, m)
  {
    hide Flagged;
    hide MetricOf;
    assert Values(after, m) == Values(before, m);
  }

  lemma ScaledVerdicts(
    before: seq<AccountAggregate>, after: seq<AccountAggregate>, m: Metric, a: real, c: real, sigma: real, sqrt: real -> real)
    requires Rescaled(before, after, m, a, c) && |before| >= 2 && a > 0.0 && IsSqrt(sqrt)
    ensures SameVerdicts(
      before, after, m, PopulationStats(Values(before, m), sqrt), PopulationStats(Values(after, m), sqrt), sigma)
  {
    hide Flagged;
    hide PopulationStats;
    hide AffineOf;
    hide IsSqrt;
    var v := Values(before, m);
    assert Values(after, m) == Affine(v, a, c);
    forall i | 0 <= i < |before|
      ensures Flagged(PopulationStats(v, sqrt), MetricOf(before[i], m), sigma)
         <==> Flagged(PopulationStats(Values(after, m), sqrt), MetricOf(after[i], m), sigma)
    {
      ScoresInvariant(v, a, c, MetricOf(before[i], m), sigma, sqrt);
    }
  }

  function OtherMetric(m: Metric): Metric { match m case CallVolume => SpendAtomic case SpendAtomic => CallVolume }

  /** Shifting or scaling one metric of a whole population flags the same accounts on the same metrics, in the same order. */
  lemma FlagsInvariant(
    before: seq<AccountAggregate>, after: seq<AccountAggregate>, m: Metric, a: real, c: real,
    sigma: real, start: int, end: int, sqrt: real -> real)
    requires Rescaled(before, after, m, a, c) && |before| >= 2 && a > 0.0 && IsSqrt(sqrt)
    ensures
      FlagKeys(FlagsOf(before, PopulationStats(Values(before, CallVolume), sqrt),
                       PopulationStats(Values(before, SpendAtomic), sqrt), sigma, start, end))
      == FlagKeys(FlagsOf(after, PopulationStats(Values(after, CallVolume), sqrt),
                          PopulationStats(Values(after, SpendAtomic), sqrt), sigma, start, end))
  {
    hide Flagged;
    hide PopulationStats;
    hide AffineOf;
    hide IsSqrt;
    hide FlagsOf;
    hide FlagKeys;
    hide SameVerdicts;
    hide Values;
    var other := OtherMetric(m);
    ScaledVerdicts(before, after, m, a, c, sigma, sqrt);
    SameMetricSameVerdicts(before, after, other, PopulationStats(Values(before, other), sqrt), sigma);
    SameFlagKeys(
      before, after,
      PopulationStats(Values(before, CallVolume), sqrt), PopulationStats(Values(after, CallVolume), sqrt),
      PopulationStats(Values(before, SpendAtomic), sqrt), PopulationStats(Values(after, SpendAtomic), sqrt),
      sigma, start, end);
  }

  lemma ScoreScales(st: Stats, st1: Stats, a: real, c: real, x: real, sigma: real)
    requires a > 0.0 && st.stddev >= 0.0 && st1.mean == a * st.mean + c && st1.stddev == a * st.stddev
    ensures Flagged(st, x, sigma) <==> Flagged(st1, AffineOf(x, a, c), sigma)
  {
    if st.stddev > 0.0 {
      assert AffineOf(x, a, c) - st1.mean == a * (x - st.mean);
      ScaledQuotient(a, x - st.mean, st.stddev);
    }
  }

  lemma ScaledQuotient(a: real, y: real, s: real)
    requires a > 0.0 && s > 0.0
    ensures a * s > 0.0 && (a * y) / (a * s) == y / s
  {
    ProductPositive(a, s);
    var q := y / s;
    assert q * s == y;
    assert q * (a * s) == a * y;
  }

  // ----- when scans run -----

  const WINDOW_MS := 6 * 60 * 60 * 1000

  /** End of the most recent closed window; its start is one window length earlier. */
  function Boundary(nowMs: int): int { nowMs / WINDOW_MS * WINDOW_MS }

  lemma BoundaryClosed(nowMs: int)
    ensures Boundary(nowMs) <= nowMs < Boundary(nowMs) + WINDOW_MS
    ensures Boundary(nowMs) % WINDOW_MS == 0
  {
  }

  lemma BoundaryMonotone(a: int, b: int)
    requires a <= b
    ensures Boundary(a) <= Boundary(b)
  {
    var x, y := a / WINDOW_MS, b / WINDOW_MS;
    assert x <= y;
    assert x * WINDOW_MS <= y * WINDOW_MS;
  }

  /** One turn of the indexer's loop: its clock, whether its tick threw (then nothing is scanned), whether a scan would. */
  datatype Poll = Poll(nowMs: int, tickThrows: bool, scanThrows: bool)

  /** A scan of the window that ends at the boundary; one that throws is swallowed and counts as done all the same. */
  datatype Attempt = Attempt(boundaryMs: int, scanned: bool)

  /** The poll could scan the window that ends at `b`. */
  predicate Polls(p: Poll, b: int) { !p.tickThrows && Boundary(p.nowMs) == b }

  /** The first poll that could scan its window. */
  predicate FirstPoll(polls: seq<Poll>, i: nat)
    requires i < |polls|
  {
    !polls[i].tickThrows && Boundary(polls[i].nowMs) > 0
    && forall j | 0 <= j < i :: !Polls(polls[j], Boundary(polls[i].nowMs))
  }

  predicate ClockForward(polls: seq<Poll>) { forall i, j | 0 <= i < j < |polls| :: polls[i].nowMs <= polls[j].nowMs }

  /** The attempt a poll makes when its window is due. */
  function AttemptOf(p: Poll): Attempt { Attempt(Boundary(p.nowMs), !p.scanThrows) }

  predicate MadeBy(a: Attempt, p: Poll) { !p.tickThrows && a == AttemptOf(p) }

  predicate Ascending(attempts: seq<Attempt>) {
    forall i, j | 0 <= i < j < |attempts| :: attempts[i].boundaryMs < attempts[j].boundaryMs
  }

  /** Every attempt is made by a poll, on the window that closed last before it. */
  ghost predicate FromPolls(attempts: seq<Attempt>, polls: seq<Poll>) {
    forall a | a in attempts :: a.boundaryMs > 0 && exists i :: 0 <= i < |polls| && MadeBy(a, polls[i])
  }

  /** The first poll that could scan a window attempts it. */
  predicate FirstAttempts(attempts: seq<Attempt>, polls: seq<Poll>) {
    forall i | 0 <= i < |polls| && FirstPoll(polls, i) :: AttemptOf(polls[i]) in attempts
  }

  lemma ClosedBy(polls: seq<Poll>, k: nat, last: int)
    requires ClockForward(polls) && k < |polls| && !polls[k].tickThrows
    requires last == 0 || exists i :: 0 <= i < k && Polls(polls[i], last)
    requires Boundary(polls[k].nowMs) <= last
    ensures !FirstPoll(polls, k)
  {
    if last != 0 {
      var i :| 0 <= i < k && Polls(polls[i], last);
      BoundaryMonotone(polls[i].nowMs, polls[k].nowMs);
    }
  }

  lemma AttemptMore(attempts: seq<Attempt>, polls: seq<Poll>, k: nat)
    requires k < |polls| && !polls[k].tickThrows && Boundary(polls[k].nowMs) > 0
    requires Ascending(attempts) && FromPolls(attempts, polls[..k])
    requires forall a | a in attempts :: a.boundaryMs < Boundary(polls[k].nowMs)
    ensures var more := attempts + [AttemptOf(polls[k])];
            Ascending(more) && FromPolls(more, polls[..k + 1])
  {
    hide Boundary;
    var more, upto := attempts + [AttemptOf(polls[k])], polls[..k + 1];
    assert forall i | 0 <= i < |attempts| :: attempts[i] in attempts;
    forall a | a in more
      ensures a.boundaryMs > 0
      ensures exists i :: 0 <= i < |upto| && MadeBy(a, upto[i])
    {
      if a in attempts {
        var i :| 0 <= i < k && MadeBy(a, polls[..k][i]);
        assert upto[i] == polls[..k][i];
      } else {
        assert upto[k] == polls[k];
      }
    }
  }

  lemma FromFewer(attempts: seq<Attempt>, polls: seq<Poll>, k: nat)
    requires k < |polls| && FromPolls(attempts, polls[..k])
    ensures FromPolls(attempts, polls[..k + 1])
  {
    hide AttemptOf;
    var upto := polls[..k + 1];
    forall a | a in attempts
      ensures a.boundaryMs > 0
      ensures exists i :: 0 <= i < |upto| && MadeBy(a, upto[i])
    {
      var i :| 0 <= i < k && MadeBy(a, polls[..k][i]);
      assert upto[i] == polls[..k][i];
    }
  }

  /** One poll's look at the schedule; None when its window was taken already. */
  method MaybeRunAbuseScan(lastBoundary: int, poll: Poll) returns (attempt: Option<Attempt>)
    ensures attempt == if Boundary(poll.nowMs) <= lastBoundary then None else Some(AttemptOf(poll))
  {
    var end := poll.nowMs / WINDOW_MS * WINDOW_MS;
    if end <= lastBoundary {
      return None;
    }
    // a scan that throws is logged and the boundary is returned all the same
    attempt := Some(Attempt(end, !poll.scanThrows));
  }

  lemma NothingAttempted()
    ensures Ascending([]) && FromPolls([], [])
  {
  }

  /** The scans of one indexer process, turn by turn, whatever its clock reads and whatever throws. */
  method ScanLoop(polls: seq<Poll>) returns (attempts: seq<Attempt>)
    ensures Ascending(attempts) && FromPolls(attempts, polls)
    ensures ClockForward(polls) ==> FirstAttempts(attempts, polls)
  {
    hide Boundary;
    hide Ascending;
    hide FromPolls;
    attempts := [];
    var lastBoundary := 0;
    NothingAttempted();
    for k := 0 to |polls|
      invariant Ascending(attempts) && FromPolls(attempts, polls[..k])
      invariant lastBoundary == 0 || exists i :: 0 <= i < k && Polls(polls[i], lastBoundary)
      invariant lastBoundary >= 0 && forall a | a in attempts :: a.boundaryMs <= lastBoundary
      invariant ClockForward(polls) ==> forall i | 0 <= i < k && FirstPoll(polls, i) :: AttemptOf(polls[i]) in attempts
    {
      FromFewer(attempts, polls, k);
      if !polls[k].tickThrows {
        var attempt := MaybeRunAbuseScan(lastBoundary, polls[k]);
        if attempt.Some? {
          AttemptMore(attempts, polls, k);
          attempts := attempts + [attempt.value];
          lastBoundary := attempt.value.boundaryMs;
          assert Polls(polls[k], lastBoundary);
        } else if ClockForward(polls) {
          ClosedBy(polls, k, lastBoundary);
        }
      }
    }
    assert polls[..|polls|] == polls;
  }

  /** The first poll that could scan what poll `i` could. */
  function FirstPollOf(polls: seq<Poll>, i: nat): (j: nat)
    requires i < |polls| && !polls[i].tickThrows && Boundary(polls[i].nowMs) > 0
    ensures j <= i && FirstPoll(polls, j) && Boundary(polls[j].nowMs) == Boundary(polls[i].nowMs)
  {
    if FirstPoll(polls, i) then i
    else
      var j: nat :| j < i && Polls(polls[j], Boundary(polls[i].nowMs));
      FirstPollOf(polls, j)
  }

  lemma FirstScans(attempts: seq<Attempt>, polls: seq<Poll>, i: nat)
    requires Ascending(attempts) && FirstAttempts(attempts, polls) && i < |polls| && FirstPoll(polls, i)
    ensures Attempt(Boundary(polls[i].nowMs), true) !in attempts <==> polls[i].scanThrows
    ensures forall m, n | 0 <= m < n < |attempts| ::
      attempts[m].boundaryMs != Boundary(polls[i].nowMs) || attempts[n].boundaryMs != Boundary(polls[i].nowMs)
  {
    hide Boundary;
    hide FirstPoll;
    var a := AttemptOf(polls[i]);
    assert a in attempts;
    var m :| 0 <= m < |attempts| && attempts[m] == a;
    if Attempt(a.boundaryMs, true) in attempts {
      var n :| 0 <= n < |attempts| && attempts[n] == Attempt(a.boundaryMs, true);
      assert m == n;
    }
  }

  /**
   * What that schedule comes to on a clock that never runs back. A window some poll could scan is closed and aligned
   * and is attempted exactly once; it is left unscanned, for good, exactly when the scan of the first such poll threw.
   */
  lemma UnscannedIff(attempts: seq<Attempt>, polls: seq<Poll>, i: nat)
    requires Ascending(attempts) && FirstAttempts(attempts, polls)
    requires i < |polls| && !polls[i].tickThrows && Boundary(polls[i].nowMs) > 0
    ensures var b := Boundary(polls[i].nowMs);
            && b % WINDOW_MS == 0 && b <= polls[i].nowMs < b + WINDOW_MS
            && (exists a :: a in attempts && a.boundaryMs == b)
            && (forall m, n | 0 <= m < n < |attempts| :: attempts[m].boundaryMs != b || attempts[n].boundaryMs != b)
            && (Attempt(b, true) !in attempts <==> polls[FirstPollOf(polls, i)].scanThrows)
  {
    hide FirstPoll;
    BoundaryClosed(polls[i].nowMs);
    var j := FirstPollOf(polls, i);
    FirstScans(attempts, polls, j);
    assert AttemptOf(polls[j]) in attempts;
  }

  /** One poll, just behind a boundary, whose scan throws: its window is attempted and never scanned. */
  lemma ThrownScanStays(attempts: seq<Attempt>)
    requires Ascending(attempts) && FirstAttempts(attempts, [Poll(WINDOW_MS, false, true)])
    ensures Attempt(WINDOW_MS, false) in attempts && Attempt(WINDOW_MS, true) !in attempts
  {
    var polls := [Poll(WINDOW_MS, false, true)];
    assert FirstPoll(polls, 0);
    FirstScans(attempts, polls, 0);
    assert AttemptOf(polls[0]) in attempts;
  }

  /** A window no poll could scan is never attempted. */
  lemma UnpolledNeverAttempted(attempts: seq<Attempt>, polls: seq<Poll>, b: int)
    requires FromPolls(attempts, polls) && forall i | 0 <= i < |polls| :: !Polls(polls[i], b)
    ensures forall a | a in attempts :: a.boundaryMs != b
  {
    forall a | a in attempts ensures a.boundaryMs != b {
      var i :| 0 <= i < |polls| && MadeBy(a, polls[i]);
      assert !Polls(polls[i], b);
    }
  }

  // ----- the aggregates the detector reads -----

  /** The columns of a request-log row the scan uses. */
  datatype LogRow = LogRow(payerAddress: string, amountAtomic: int, timestampMs: int)

  predicate InWindow(r: LogRow, start: int, end: int) { start <= r.timestampMs < end }

  function CallsOf(rows: seq<LogRow>, account: string, start: int, end: int): nat {
    if rows == [] then 0 else
    var r := rows[|rows| - 1];
    CallsOf(rows[..|rows| - 1], account, start, end) + (if InWindow(r, start, end) && r.payerAddress == account then 1 else 0)
  }

  function SpendOf(rows: seq<LogRow>, account: string, start: int, end: int): int {
    if rows == [] then 0 else
    var r := rows[|rows| - 1];
    SpendOf(rows[..|rows| - 1], account, start, end)
      + (if InWindow(r, start, end) && r.payerAddress == account then r.amountAtomic else 0)
  }

  /** One entry per account with a call in the window, holding that account's calls and spend there. */
  ghost predicate Aggregates(aggs: seq<AccountAggregate>, rows: seq<LogRow>, start: int, end: int) {
    && (forall i, j | 0 <= i < j < |aggs| :: aggs[i].accountAddress != aggs[j].accountAddress)
    && (forall i | 0 <= i < |aggs| ::
          && aggs[i].callVolume == CallsOf(rows, aggs[i].accountAddress, start, end) > 0
          && aggs[i].spendAtomic == SpendOf(rows, aggs[i].accountAddress, start, end))
    && (forall a :: CallsOf(rows, a, start, end) > 0 ==> exists i :: 0 <= i < |aggs| && aggs[i].accountAddress == a)
  }

  /** Where an account stands among the entries so far, in the order accounts were first seen. */
  function Position(aggs: seq<AccountAggregate>, account: string): (i: nat)
    ensures i <= |aggs| && (i < |aggs| ==> aggs[i].accountAddress == account)
    ensures forall j | 0 <= j < i :: aggs[j].accountAddress != account
  {
    if aggs == [] || aggs[0].accountAddress == account then 0 else 1 + Position(aggs[1..], account)
  }

  /** The entries after one more row of the window. */
  function AddRow(aggs: seq<AccountAggregate>, r: LogRow): seq<AccountAggregate> {
    var i := Position(aggs, r.payerAddress);
    if i == |aggs| then aggs + [AccountAggregate(r.payerAddress, 1, r.amountAtomic)]
    else aggs[i := aggs[i].(callVolume := aggs[i].callVolume + 1, spendAtomic := aggs[i].spendAtomic + r.amountAtomic)]
  }

  lemma CallsGrow(rows: seq<LogRow>, r: LogRow, a: string, start: int, end: int)
    ensures CallsOf(rows + [r], a, start, end)
      == CallsOf(rows, a, start, end) + (if InWindow(r, start, end) && r.payerAddress == a then 1 else 0)
    ensures SpendOf(rows + [r], a, start, end)
      == SpendOf(rows, a, start, end) + (if InWindow(r, start, end) && r.payerAddress == a then r.amountAtomic else 0)
  {
    assert (rows + [r])[..|rows|] == rows;
  }

  lemma {:induction false} NoCallsNoSpend(rows: seq<LogRow>, a: string, start: int, end: int)
    requires CallsOf(rows, a, start, end) == 0
    ensures SpendOf(rows, a, start, end) == 0
  {
    if rows != [] {
      NoCallsNoSpend(rows[..|rows| - 1], a, start, end);
    }
  }

  lemma RowOutside(aggs: seq<AccountAggregate>, rows: seq<LogRow>, r: LogRow, start: int, end: int)
    requires Aggregates(aggs, rows, start, end) && !InWindow(r, start, end)
    ensures Aggregates(aggs, rows + [r], start, end)
  {
    forall a ensures CallsOf(rows + [r], a, start, end) == CallsOf(rows, a, start, end)
                  && SpendOf(rows + [r], a, start, end) == SpendOf(rows, a, start, end) {
      CallsGrow(rows, r, a, start, end);
    }
  }

  lemma RowInside(aggs: seq<AccountAggregate>, rows: seq<LogRow>, r: LogRow, start: int, end: int)
    requires Aggregates(aggs, rows, start, end) && InWindow(r, start, end)
    ensures Aggregates(AddRow(aggs, r), rows + [r], start, end)
  {
    hide CallsOf;
    hide SpendOf;
    hide Position;
    var p := Position(aggs, r.payerAddress);
    forall a ensures CallsOf(rows + [r], a, start, end) == CallsOf(rows, a, start, end) + (if r.payerAddress == a then 1 else 0)
                  && SpendOf(rows + [r], a, start, end) == SpendOf(rows, a, start, end) + (if r.payerAddress == a then r.amountAtomic else 0) {
      CallsGrow(rows, r, a, start, end);
    }
    if p == |aggs| {
      assert CallsOf(rows, r.payerAddress, start, end) == 0;
      NoCallsNoSpend(rows, r.payerAddress, start, end);
    }
    forall a | CallsOf(rows + [r], a, start, end) > 0
      ensures exists i :: 0 <= i < |AddRow(aggs, r)| && AddRow(aggs, r)[i].accountAddress == a
    {
      StillListed(aggs, r, a);
    }
  }

  lemma StillListed(aggs: seq<AccountAggregate>, r: LogRow, a: string)
    requires a == r.payerAddress || exists i :: 0 <= i < |aggs| && aggs[i].accountAddress == a
    ensures exists i :: 0 <= i < |AddRow(aggs, r)| && AddRow(aggs, r)[i].accountAddress == a
  {
    hide Position;
    var next := AddRow(aggs, r);
    if a == r.payerAddress {
      assert next[Position(aggs, a)].accountAddress == a;
    } else {
      var i :| 0 <= i < |aggs| && aggs[i].accountAddress == a;
      assert next[i].accountAddress == a;
    }
  }

  /** Every row lies in exactly one closed window: the one that ends at the first boundary behind it. */
  lemma WindowsPartition(r: LogRow, b: int)
    requires b % WINDOW_MS == 0
    ensures InWindow(r, b - 21_600_000, b) <==> b == Boundary(r.timestampMs) + 21_600_000
  {
    BoundaryClosed(r.timestampMs);
    var q, t := b / WINDOW_MS, r.timestampMs / WINDOW_MS;
    assert b == q * WINDOW_MS;
    if InWindow(r, b - WINDOW_MS, b) {
      assert (q - 1) * WINDOW_MS <= r.timestampMs < q * WINDOW_MS;
      assert t == q - 1;
    }
  }

  function RowsIn(rows: seq<LogRow>, start: int, end: int): nat {
    if rows == [] then 0 else
    var t := rows[|rows| - 1].timestampMs;
    RowsIn(rows[..|rows| - 1], start, end) + (if start <= t && t < end then 1 else 0)
  }

  function MoneyIn(rows: seq<LogRow>, start: int, end: int): int {
    if rows == [] then 0 else
    var r := rows[|rows| - 1];
    MoneyIn(rows[..|rows| - 1], start, end) + (if start <= r.timestampMs && r.timestampMs < end then r.amountAtomic else 0)
  }

  function CallsTotal(aggs: seq<AccountAggregate>): int {
    if aggs == [] then 0 else CallsTotal(aggs[..|aggs| - 1]) + aggs[|aggs| - 1].callVolume
  }

  function SpendTotal(aggs: seq<AccountAggregate>): int {
    if aggs == [] then 0 else SpendTotal(aggs[..|aggs| - 1]) + aggs[|aggs| - 1].spendAtomic
  }

  /** What the entries hold and what the rows of the window hold is the same, in calls and in money. */
  predicate Balanced(aggs: seq<AccountAggregate>, rows: seq<LogRow>, start: int, end: int) {
    CallsTotal(aggs) == RowsIn(rows, start, end) && SpendTotal(aggs) == MoneyIn(rows, start, end)
  }

  lemma {:induction false} EntryRaised(aggs: seq<AccountAggregate>, i: nat, x: AccountAggregate)
    requires i < |aggs|
    ensures CallsTotal(aggs[i := x]) == CallsTotal(aggs) - aggs[i].callVolume + x.callVolume
    ensures SpendTotal(aggs[i := x]) == SpendTotal(aggs) - aggs[i].spendAtomic + x.spendAtomic
  {
    var n := |aggs| - 1;
    if i < n {
      EntryRaised(aggs[..n], i, x);
      assert aggs[i := x][..n] == aggs[..n][i := x];
    } else {
      assert aggs[i := x][..n] == aggs[..n];
    }
  }

  lemma EntryAdded(aggs: seq<AccountAggregate>, x: AccountAggregate)
    ensures CallsTotal(aggs + [x]) == CallsTotal(aggs) + x.callVolume
    ensures SpendTotal(aggs + [x]) == SpendTotal(aggs) + x.spendAtomic
  {
    assert (aggs + [x])[..|aggs|] == aggs;
  }

  lemma RowAdded(rows: seq<LogRow>, r: LogRow, start: int, end: int)
    ensures RowsIn(rows + [r], start, end) == RowsIn(rows, start, end) + (if InWindow(r, start, end) then 1 else 0)
    ensures MoneyIn(rows + [r], start, end) == MoneyIn(rows, start, end) + (if InWindow(r, start, end) then r.amountAtomic else 0)
  {
    assert (rows + [r])[..|rows|] == rows;
  }

  lemma RowBalanced(aggs: seq<AccountAggregate>, rows: seq<LogRow>, r: LogRow, start: int, end: int)
    requires Balanced(aggs, rows, start, end)
    ensures Balanced(if InWindow(r, start, end) then AddRow(aggs, r) else aggs, rows + [r], start, end)
  {
    hide Position;
    hide CallsTotal;
    hide SpendTotal;
    hide RowsIn;
    hide MoneyIn;
    hide InWindow;
    RowAdded(rows, r, start, end);
    var i := Position(aggs, r.payerAddress);
    if i < |aggs| {
      EntryRaised(
        aggs, i, aggs[i].(callVolume := aggs[i].callVolume + 1, spendAtomic := aggs[i].spendAtomic + r.amountAtomic));
    } else {
      EntryAdded(aggs, AccountAggregate(r.payerAddress, 1, r.amountAtomic));
    }
  }

  method GetAccountAggregates(rows: seq<LogRow>, start: int, end: int) returns (aggs: seq<AccountAggregate>)
    ensures Aggregates(aggs, rows, start, end) && Balanced(aggs, rows, start, end)
  {
    aggs := [];
    for k := 0 to |rows|
      invariant Aggregates(aggs, rows[..k], start, end)
      invariant Balanced(aggs, rows[..k], start, end)
    {
      assert rows[..k + 1] == rows[..k] + [rows[k]];
      hide Aggregates;
      hide Balanced;
      hide AddRow;
      RowBalanced(aggs, rows[..k], rows[k], start, end);
      if rows[k].timestampMs < start || rows[k].timestampMs >= end {
        RowOutside(aggs, rows[..k], rows[k], start, end);
      } else {
        RowInside(aggs, rows[..k], rows[k], start, end);
        aggs := AddRow(aggs, rows[k]);
      }
    }
    assert rows[..|rows|] == rows;
  }

  /** The scan of the six hours that end at a boundary, at three sigma. */
  method RunAbuseScan(rows: seq<LogRow>, endMs: int, sqrt: real -> real)
    returns (ghost aggs: seq<AccountAggregate>, flags: seq<AbuseFlag>)
    ensures Aggregates(aggs, rows, endMs - 21_600_000, endMs)
    ensures |aggs| < 2 ==> flags == []
    ensures |aggs| >= 2 ==>
      FlagsRight(flags, aggs, PopulationStats(Values(aggs, CallVolume), sqrt), PopulationStats(Values(aggs, SpendAtomic), sqrt),
                 3.0, endMs - 21_600_000, endMs)
  {
    hide FlagsOf;
    hide FlagsRight;
    var entries := GetAccountAggregates(rows, endMs - WINDOW_MS, endMs);
    aggs := entries;
    flags := DetectAbuse(entries, endMs - WINDOW_MS, endMs, 3.0, sqrt);
  }
}
