/**
 * Normalisation of a battery reading: the percentage field arrives either as a
 * fraction (0..1) or as a percent (0..100); one threshold decides which, and
 * the same decision feeds the logged percent and the published ratio.
 * Arithmetic is over mathematical reals.
 */
module Battery {
  import opened Wrappers

  /** The scale threshold: a raw value above it is already a percent. */
  const PercentThreshold: real := 1.0

  datatype Normalized = Normalized(
    ratio: real,    // charge as a fraction, the published value
    display: real,  // charge in percent, the logged value
    wh: real)       // energy remaining, unrounded

  /**
   * `percentage or 0.0`: a missing percentage reads as zero. A present zero is
   * falsy too but is replaced by the same value, so present values are kept.
   */
  function RawPercentage(percentage: Option<real>): (raw: real)
    ensures percentage.None? ==> raw == 0.0
    ensures percentage.Some? ==> raw == percentage.value
  {
    match percentage
    case Some(p) => p
    case None => 0.0
  }

  /** Resolves the scale of `raw` and derives the energy remaining from the rated capacity `specWh`. */
  function Normalize(raw: real, specWh: real): (n: Normalized)
    ensures raw > PercentThreshold ==> n.ratio == raw / 100.0 && n.display == raw
    ensures raw <= PercentThreshold ==> n.ratio == raw && n.display == raw * 100.0
    // the logged percent and the published ratio always describe the same charge
    ensures n.display == 100.0 * n.ratio
    ensures n.wh == n.ratio * specWh
  {
    var ratio := if raw > PercentThreshold then raw / 100.0 else raw;
    var display := if raw > PercentThreshold then raw else raw * 100.0;
    Normalized(ratio, display, ratio * specWh)
  }

  /** Any raw value on either scale, from 0 to 100, yields a ratio in [0, 1]. */
  lemma RatioInUnitRange(raw: real, specWh: real)
    requires 0.0 <= raw <= 100.0
    ensures 0.0 <= Normalize(raw, specWh).ratio <= 1.0
    ensures raw > 0.0 ==> Normalize(raw, specWh).ratio > 0.0
  {
  }

  /** With a non-negative capacity the energy remaining lies between 0 and the capacity. */
  lemma EnergyWithinCapacity(raw: real, specWh: real)
    requires 0.0 <= raw <= 100.0
    requires specWh >= 0.0
    ensures 0.0 <= Normalize(raw, specWh).wh <= specWh
  {
    var n := Normalize(raw, specWh);
    RatioInUnitRange(raw, specWh);
    assert n.ratio * specWh <= 1.0 * specWh by {
      assert (1.0 - n.ratio) * specWh >= 0.0;
    }
  }

  /** A missing percentage is data, not absence: it normalises to an empty battery. */
  lemma MissingPercentageIsEmpty(specWh: real)
    ensures Normalize(RawPercentage(None), specWh) == Normalized(0.0, 0.0, 0.0)
  {
  }

  /**
   * The threshold makes the ratio jump: 1.0 reads as a full battery, while any
   * value just above it reads as about one percent.
   */
  lemma ThresholdDiscontinuity(specWh: real)
    ensures Normalize(1.0, specWh).ratio == 1.0
    ensures Normalize(2.0, specWh).ratio == 0.02
    ensures forall raw: real :: 1.0 < raw <= 100.0 ==> Normalize(raw, specWh).ratio <= 1.0
  {
  }

  // ---------------------------------------------------------------------------
  // Rounding of the published energy to three decimal places

  /** Rounds to a multiple of 0.001, ties to the even multiple. */
  function Round3(x: real): (r: real)
    ensures (r * 1000.0).Floor as real == r * 1000.0
    ensures -0.0005 <= r - x <= 0.0005
  {
    var y := x * 1000.0;
    var f := y.Floor;
    var d := y - f as real;
    var n := if d < 0.5 then f else if d > 0.5 then f + 1 else if f % 2 == 0 then f else f + 1;
    n as real / 1000.0
  }

  /** A value that already has at most three decimals is left as it is. */
  lemma Round3Exact(k: int)
    ensures Round3(k as real / 1000.0) == k as real / 1000.0
  {
  }

  /** Every value halfway between two multiples of 0.001 goes to the even one. */
  lemma Round3TiesToEven(k: int)
    ensures Round3((2 * k + 1) as real / 2000.0) == (if k % 2 == 0 then k else k + 1) as real / 1000.0
  {
    var x := (2 * k + 1) as real / 2000.0;
    assert x * 1000.0 == k as real + 0.5;
    assert (x * 1000.0).Floor == k;
  }

  /** Two examples with a capacity of 20 Wh. */
  lemma Examples()
    ensures Normalize(55.0, 20.0) == Normalized(0.55, 55.0, 11.0)
    ensures Normalize(0.4, 20.0) == Normalized(0.4, 40.0, 8.0)
    ensures Round3(11.0) == 11.0 && Round3(8.0) == 8.0
  {
    Round3Exact(11000);
    Round3Exact(8000);
  }
}
