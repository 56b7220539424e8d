/** SLA staking: evaluation of a window, the slash amount, the breach streak, and the slashing pass. */
module Sla {
  import opened Common
  import opened Quality

  datatype StakedServer = StakedServer(
    stakeObjectId: string, serverObjectId: string, slaUptimeX100: int, remainingStakeAtomic: int)

  /** `actualUptimeX100` is None when the window had no calls. */
  datatype SlaEvaluation = SlaEvaluation(
    slaUptimeX100: int, actualUptimeX100: Option<nat>, inBreach: bool, shortfallFraction: real)

  function EvaluateSla(stake: StakedServer, windowUptimeX100: nat, windowSampleCount: nat): SlaEvaluation {
    if windowSampleCount == 0 then SlaEvaluation(stake.slaUptimeX100, None, false, 0.0)
    else if windowUptimeX100 < stake.slaUptimeX100 then
      var fraction := (stake.slaUptimeX100 - windowUptimeX100) as real / stake.slaUptimeX100 as real;
      SlaEvaluation(stake.slaUptimeX100, Some(windowUptimeX100), true, ClampReal(fraction, 0.0, 1.0))
    else SlaEvaluation(stake.slaUptimeX100, Some(windowUptimeX100), false, 0.0)
  }

  const SCALE := 1_000_000

  /** The shortfall as a whole number of millionths. */
  function FractionScaled(shortfall: real): int { RoundHalfUp(ClampReal(shortfall, 0.0, 1.0) * 1_000_000.0) }

  function SlashAmountAtomic(e: SlaEvaluation, remaining: int): int {
    if !e.inBreach || remaining <= 0 then 0
    else if e.shortfallFraction <= 0.0 then 0
    else Min(remaining * FractionScaled(e.shortfallFraction) / SCALE, remaining)
  }

  const BREACH_WINDOWS_TO_SLASH := 2

  function NextBreachStreak(prev: nat, e: SlaEvaluation): (nat, bool) {
    if e.actualUptimeX100.None? then (prev, false)
    else if !e.inBreach then (0, false)
    else (prev + 1, prev + 1 >= BREACH_WINDOWS_TO_SLASH)
  }

  // ----- the slash amount -----

  lemma ScaledRange(shortfall: real)
    ensures 0 <= FractionScaled(shortfall) <= SCALE
    ensures shortfall >= 1.0 ==> FractionScaled(shortfall) == SCALE
  {
  }

  lemma ScaledMonotone(a: real, b: real)
    requires a <= b
    ensures FractionScaled(a) <= FractionScaled(b)
  {
    RoundMonotone(ClampReal(a, 0.0, 1.0) * 1_000_000.0, ClampReal(b, 0.0, 1.0) * 1_000_000.0);
  }

  lemma ProductMonotone(a: nat, b: nat, c: nat, d: nat)
    requires a <= c && b <= d
    ensures a * b <= c * d
  {
    assert a * b <= c * b;
    assert c * b <= c * d;
  }

  lemma DivMonotone(a: nat, b: nat)
    requires a <= b
    ensures a / SCALE <= b / SCALE
  {
  }

  /** A slash takes between nothing and everything that is left. */
  lemma SlashInRange(e: SlaEvaluation, remaining: nat)
    ensures 0 <= SlashAmountAtomic(e, remaining) <= remaining
  {
    ScaledRange(e.shortfallFraction);
    ProductMonotone(0, 0, remaining, FractionScaled(e.shortfallFraction));
  }

  /** A staked server that was never up loses its whole remaining stake. */
  lemma DeadServerLosesAll(stake: StakedServer, samples: nat)
    requires stake.slaUptimeX100 > 0 && samples > 0 && stake.remainingStakeAtomic >= 0
    ensures SlashAmountAtomic(EvaluateSla(stake, 0, samples), stake.remainingStakeAtomic) == stake.remainingStakeAtomic
  {
    var e := EvaluateSla(stake, 0, samples);
    assert e.shortfallFraction == 1.0;
    ScaledRange(1.0);
    assert stake.remainingStakeAtomic * SCALE / SCALE == stake.remainingStakeAtomic;
  }

  /** Worse uptime never slashes less, and neither does a larger remaining stake. */
  lemma SlashMonotone(stake: StakedServer, up0: nat, up1: nat, n0: nat, n1: nat, rem0: nat, rem1: nat)
    requires n0 > 0 && n1 > 0 && up1 <= up0 && rem0 <= rem1
    ensures SlashAmountAtomic(EvaluateSla(stake, up0, n0), rem0) <= SlashAmountAtomic(EvaluateSla(stake, up1, n1), rem1)
  {
    var e0, e1 := EvaluateSla(stake, up0, n0), EvaluateSla(stake, up1, n1);
    SlashInRange(e1, rem1);
    if SlashAmountAtomic(e0, rem0) > 0 {
      ShortfallMonotone(stake.slaUptimeX100, up0, up1);
      var f0, f1 := FractionScaled(e0.shortfallFraction), FractionScaled(e1.shortfallFraction);
      ScaledMonotone(e0.shortfallFraction, e1.shortfallFraction);
      ScaledRange(e0.shortfallFraction);
      ProductMonotone(rem0, f0, rem1, f1);
      DivMonotone(rem0 * f0, rem1 * f1);
    }
  }

  lemma ShortfallMonotone(sla: int, up0: nat, up1: nat)
    requires up1 <= up0 < sla
    ensures (sla - up0) as real / sla as real <= (sla - up1) as real / sla as real
    ensures 0.0 < (sla - up0) as real / sla as real <= 1.0
  {
    var s := sla as real;
    assert (sla - up0) as real <= (sla - up1) as real <= s;
  }

  function Abs(x: real): real { if x < 0.0 then -x else x }

  lemma ErrorLinear(p: real, xf: real, q: real, x: real)
    requires p * 1_000_000.0 - x * 0.5 <= xf <= p * 1_000_000.0 + x * 0.5
    requires q * 1_000_000.0 <= xf <= q * 1_000_000.0 + 1_000_000.0
    ensures Abs(q - p) <= 1.0 + x / 2_000_000.0
  {
  }

  lemma DivBounds(a: nat)
    ensures (a / SCALE) as real * 1_000_000.0 <= a as real <= (a / SCALE) as real * 1_000_000.0 + 1_000_000.0
  {
    var q := a / SCALE;
    assert q * SCALE <= a < q * SCALE + SCALE;
    assert (q * SCALE) as real == q as real * 1_000_000.0;
  }

  lemma ScaledProduct(x: real, f: real, fraction: real, xf: real, p: real)
    requires x >= 0.0 && fraction * 1_000_000.0 - 0.5 <= f <= fraction * 1_000_000.0 + 0.5
    requires xf == x * f && p == x * fraction
    ensures p * 1_000_000.0 - x * 0.5 <= xf <= p * 1_000_000.0 + x * 0.5
  {
    var e := f - fraction * 1_000_000.0;
    assert -0.5 * x <= x * e <= 0.5 * x;
    assert xf == x * e + p * 1_000_000.0;
  }

  lemma FixedPointError(r: nat, f: nat, fraction: real)
    requires fraction * 1_000_000.0 - 0.5 <= f as real <= fraction * 1_000_000.0 + 0.5
    ensures Abs((r * f / SCALE) as real - r as real * fraction) <= 1.0 + r as real / 2_000_000.0
  {
    var x, xf, p := r as real, (r * f) as real, r as real * fraction;
    assert xf == x * f as real;
    ScaledProduct(x, f as real, fraction, xf, p);
    DivBounds(r * f);
    ErrorLinear(p, xf, (r * f / SCALE) as real, x);
  }

  lemma FractionNear(fraction: real)
    requires 0.0 <= fraction <= 1.0
    ensures fraction * 1_000_000.0 - 0.5 <= FractionScaled(fraction) as real <= fraction * 1_000_000.0 + 0.5
  {
  }

  /** For a breach with something left, the cap at the remaining stake never bites. */
  lemma SlashUncapped(stake: StakedServer, up: nat, samples: nat)
    requires samples > 0 && up < stake.slaUptimeX100 && stake.remainingStakeAtomic > 0
    ensures var fraction := (stake.slaUptimeX100 - up) as real / stake.slaUptimeX100 as real;
            && 0.0 < fraction <= 1.0
            && SlashAmountAtomic(EvaluateSla(stake, up, samples), stake.remainingStakeAtomic)
               == stake.remainingStakeAtomic * FractionScaled(fraction) / SCALE
  {
    var fraction := (stake.slaUptimeX100 - up) as real / stake.slaUptimeX100 as real;
    ShortfallMonotone(stake.slaUptimeX100, up, up);
    ScaledRange(fraction);
    ProductMonotone(stake.remainingStakeAtomic, FractionScaled(fraction), stake.remainingStakeAtomic, SCALE);
    DivMonotone(stake.remainingStakeAtomic * FractionScaled(fraction), stake.remainingStakeAtomic * SCALE);
  }

  /** The fixed-point result is within 1 + remaining/(2·10^6) of the documented formula. */
  lemma SlashNearFormula(stake: StakedServer, up: nat, samples: nat)
    requires samples > 0 && up < stake.slaUptimeX100 && stake.remainingStakeAtomic >= 0
    ensures var r := stake.remainingStakeAtomic as real;
            var exact := r * ((stake.slaUptimeX100 - up) as real / stake.slaUptimeX100 as real);
            Abs(SlashAmountAtomic(EvaluateSla(stake, up, samples), stake.remainingStakeAtomic) as real - exact)
              <= 1.0 + r / 2_000_000.0
  {
    if stake.remainingStakeAtomic > 0 {
      var fraction := (stake.slaUptimeX100 - up) as real / stake.slaUptimeX100 as real;
      SlashUncapped(stake, up, samples);
      hide *;
      FractionNear(fraction);
      ScaledRange(fraction);
      FixedPointError(stake.remainingStakeAtomic, FractionScaled(fraction), fraction);
    }
  }
}
