/**
 * The rule sheet's estimate of the intensity at an address from the event's
 * maximum intensity and the address's distance from the epicenter. The
 * distance band is an input: nothing in the system geocodes addresses.
 */
module Attenuation {
  import opened Shindo

  datatype DistanceBand =
    | SameMunicipality  // in the epicenter's city, ward, town or village
    | Within50Km
    | Within100Km
    | Within200Km
    | Beyond200Km

  /**
   * How many steps below the maximum each band lies. The rule sheet gives a
   * range for the three middle bands and only a ceiling for the far band, so
   * the choice inside each range is left to the caller.
   */
  datatype Policy = Policy(within50Km: nat, within100Km: nat, within200Km: nat, beyond200Km: nat)

  predicate ValidPolicy(p: Policy) {
    && 1 <= p.within50Km <= 2
    && 2 <= p.within100Km <= 3
    && 3 <= p.within200Km <= 4
  }

  /** The estimated intensity at an address in `band`. */
  function Estimate(max: Intensity, band: DistanceBand, p: Policy): (e: Intensity)
    requires ValidPolicy(p)
    ensures AtMost(e, max)
    ensures band == SameMunicipality ==> e == max
    ensures band == Beyond200Km ==> AtMost(e, Shindo3)
  {
    match band
    case SameMunicipality => max
    case Within50Km => StepDown(max, p.within50Km)
    case Within100Km => StepDown(max, p.within100Km)
    case Within200Km => StepDown(max, p.within200Km)
    case Beyond200Km => Min(StepDown(max, p.beyond200Km), Shindo3)
  }

  /**
   * `e` lies between `lo` and `hi` steps below `max`, where a step count that
   * runs past the bottom of the scale ends at shindo 0.
   */
  predicate LoweredBy(max: Intensity, e: Intensity, lo: nat, hi: nat) {
    || lo <= Rank(max) - Rank(e) <= hi
    || (e == Shindo0 && Rank(max) <= hi)
  }

  /** The rule sheet's estimate for each band, read directly off its table. */
  predicate Plausible(max: Intensity, band: DistanceBand, e: Intensity) {
    match band
    case SameMunicipality => e == max
    case Within50Km => LoweredBy(max, e, 1, 2)
    case Within100Km => LoweredBy(max, e, 2, 3)
    case Within200Km => LoweredBy(max, e, 3, 4)
    case Beyond200Km => AtMost(e, max) && AtMost(e, Shindo3)
  }

  /** Every valid policy yields an estimate the table allows. */
  lemma EstimateIsPlausible(max: Intensity, band: DistanceBand, p: Policy)
    requires ValidPolicy(p)
    ensures Plausible(max, band, Estimate(max, band, p))
  {
  }

  /** Stepping down by exactly the gap between two intensities reaches the lower one. */
  lemma StepDownByGap(max: Intensity, e: Intensity)
    requires AtMost(e, max)
    ensures StepDown(max, Rank(max) - Rank(e)) == e
  {
    RankInjective(StepDown(max, Rank(max) - Rank(e)), e);
  }

  /** The step that `LoweredBy` allows for `e`. */
  lemma LoweredByStep(max: Intensity, e: Intensity, lo: nat, hi: nat) returns (k: nat)
    requires lo <= hi && LoweredBy(max, e, lo, hi)
    ensures lo <= k <= hi && StepDown(max, k) == e
  {
    if lo <= Rank(max) - Rank(e) <= hi {
      k := Rank(max) - Rank(e);
      StepDownByGap(max, e);
    } else {
      k := hi;
    }
  }

  /** Every estimate the table allows is the one some valid policy yields. */
  lemma PlausibleIsEstimated(max: Intensity, band: DistanceBand, e: Intensity)
    requires Plausible(max, band, e)
    ensures exists p :: ValidPolicy(p) && Estimate(max, band, p) == e
  {
    var p := PolicyFor(max, band, e);
  }

  /** A valid policy that yields the allowed estimate `e`. */
  lemma PolicyFor(max: Intensity, band: DistanceBand, e: Intensity) returns (p: Policy)
    requires Plausible(max, band, e)
    ensures ValidPolicy(p) && Estimate(max, band, p) == e
  {
    match band
    case SameMunicipality =>
      p := Policy(1, 2, 3, 0);
    case Within50Km =>
      p := Within50KmPolicyFor(max, e);
    case Within100Km =>
      p := Within100KmPolicyFor(max, e);
    case Within200Km =>
      p := Within200KmPolicyFor(max, e);
    case Beyond200Km =>
      p := FarPolicyFor(max, e);
  }

  lemma Within50KmPolicyFor(max: Intensity, e: Intensity) returns (p: Policy)
    requires LoweredBy(max, e, 1, 2)
    ensures ValidPolicy(p) && Estimate(max, Within50Km, p) == e
  {
    var k := LoweredByStep(max, e, 1, 2);
    p := Policy(k, 2, 3, 0);
  }

  lemma Within100KmPolicyFor(max: Intensity, e: Intensity) returns (p: Policy)
    requires LoweredBy(max, e, 2, 3)
    ensures ValidPolicy(p) && Estimate(max, Within100Km, p) == e
  {
    var k := LoweredByStep(max, e, 2, 3);
    p := Policy(1, k, 3, 0);
  }

  lemma Within200KmPolicyFor(max: Intensity, e: Intensity) returns (p: Policy)
    requires LoweredBy(max, e, 3, 4)
    ensures ValidPolicy(p) && Estimate(max, Within200Km, p) == e
  {
    var k := LoweredByStep(max, e, 3, 4);
    p := Policy(1, 2, k, 0);
  }

  lemma FarPolicyFor(max: Intensity, e: Intensity) returns (p: Policy)
    requires AtMost(e, max) && AtMost(e, Shindo3)
    ensures ValidPolicy(p) && Estimate(max, Beyond200Km, p) == e
  {
    StepDownByGap(max, e);
    p := Policy(1, 2, 3, Rank(max) - Rank(e));
  }

  /** A stronger event never gives a weaker estimate at the same place. */
  lemma EstimateMonotone(max1: Intensity, max2: Intensity, band: DistanceBand, p: Policy)
    requires ValidPolicy(p) && AtMost(max1, max2)
    ensures AtMost(Estimate(max1, band, p), Estimate(max2, band, p))
  {
  }

  function Distance(band: DistanceBand): nat {
    match band
    case SameMunicipality => 0
    case Within50Km => 1
    case Within100Km => 2
    case Within200Km => 3
    case Beyond200Km => 4
  }

  /** Among the four banded ranges, a farther band never gets a stronger estimate. */
  lemma FartherIsNotStronger(max: Intensity, near: DistanceBand, far: DistanceBand, p: Policy)
    requires ValidPolicy(p) && far != Beyond200Km && Distance(near) <= Distance(far)
    ensures AtMost(Estimate(max, far, p), Estimate(max, near, p))
  {
  }

  /**
   * The far band's ceiling of shindo 3 is not tied to the maximum, so a weak
   * event can be estimated stronger beyond 200 km than within 200 km.
   */
  lemma FarBandCanExceedNearerBand()
    ensures var p := Policy(2, 3, 4, 0);
      ValidPolicy(p) && Estimate(Shindo3, Beyond200Km, p) == Shindo3 && Estimate(Shindo3, Within200Km, p) == Shindo0
  {
  }
}
