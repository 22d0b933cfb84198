/**
 Tare, scale factor and weight for a bridge converter, over the reals. The two drivers
 share this arithmetic; the HX711 one truncates its tare to whole counts and refuses a
 batch of four or more identical readings.
 */
module LoadCell {
  import opened Statistics

  const CALIBRATION_SIGMA := 10.0
  const MAX_PRECISION_PERCENT := 10.0
  const STUCK_SAMPLES := 4

  datatype Scale = Scale(
    tareCounts: real, tareErrorSquared: real, tareSamples: nat, countsPerUnit: real, calibrated: bool, supplied: bool)

  const NoScale := Scale(0.0, 0.0, 0, 0.0, false, false)

  datatype Calibration =
    | TooFewSamples
    | WithinNoise
    | Accepted(net: real, errorSquared: real, countsPerUnit: real)

  /** A conversion to integer in the source's language: towards zero. */
  function Truncated(r: real): int {
    if r >= 0.0 then r.Floor else -(-r).Floor
  }

  function Tared(s: Scale, stats: Stats, truncates: bool): Scale {
    s.(tareCounts := if truncates then Truncated(stats.mean) as real else stats.mean,
       tareErrorSquared := stats.errorSquared, tareSamples := stats.samples)
  }

  /** Both averages carry error, so their squares add; the move must clear ten times the
      result. */
  function Calibrate(s: Scale, stats: Stats, knownMass: real): Calibration
    requires knownMass != 0.0
  {
    var net := stats.mean - s.tareCounts;
    var error := stats.errorSquared + s.tareErrorSquared;
    if stats.samples < 2 || s.tareSamples < 2 then TooFewSamples
    else if net * net < CALIBRATION_SIGMA * CALIBRATION_SIGMA * error then WithinNoise
    else Accepted(net, error, net / knownMass)
  }

  function Calibrated(s: Scale, c: Calibration): Scale {
    if c.Accepted? then s.(countsPerUnit := c.countsPerUnit, calibrated := true, supplied := false) else s
  }

  function Units(s: Scale, mean: real): real
    requires s.countsPerUnit != 0.0
  {
    (mean - s.tareCounts) / s.countsPerUnit
  }

  /** The square of the reported precision, in percent. */
  function PrecisionSquared(c: Calibration): real
    requires c.Accepted? && c.net * c.net != 0.0
  {
    100.0 * 100.0 * c.errorSquared / (c.net * c.net)
  }

  lemma QuotientZero(a: real, b: real)
    requires b != 0.0
    ensures if a == 0.0 then a / b == 0.0 else a / b != 0.0 && a / (a / b) == b
  {
    var q := a / b;
    assert q * b == a;
    if a != 0.0 {
      assert q != 0.0;
      assert a / q * q == a;
    }
  }

  lemma RatioBounded(error: real, square: real)
    requires error > 0.0 && square >= 100.0 * error
    ensures 100.0 * 100.0 * error / square <= 100.0
  {
  }

  lemma ZeroSquare(net: real)
    requires net * net > 0.0
    ensures net != 0.0
  {
  }

  /** An accepted calibration with any spread at all is good to ten percent, and converts
      its own batch back to the known mass. */
  lemma CalibrationHolds(s: Scale, stats: Stats, knownMass: real)
    requires knownMass != 0.0 && Calibrate(s, stats, knownMass).Accepted?
    requires stats.errorSquared + s.tareErrorSquared > 0.0
    ensures var c := Calibrate(s, stats, knownMass); var t := Calibrated(s, c);
            && c.net * c.net != 0.0
            && PrecisionSquared(c) <= MAX_PRECISION_PERCENT * MAX_PRECISION_PERCENT
            && t.countsPerUnit != 0.0 && Units(t, stats.mean) == knownMass
  {
    var c := Calibrate(s, stats, knownMass);
    assert c.net * c.net > 0.0;
    ZeroSquare(c.net);
    RatioBounded(c.errorSquared, c.net * c.net);
    QuotientZero(c.net, knownMass);
  }

  /** Without any spread the guard accepts every move, a move of nothing among them: then
      the factor is zero, which no weight can be divided by. */
  lemma ZeroFactor(s: Scale, stats: Stats, knownMass: real)
    requires knownMass != 0.0 && stats.errorSquared >= 0.0 && s.tareErrorSquared >= 0.0
    ensures var c := Calibrate(s, stats, knownMass);
            c.Accepted? && c.countsPerUnit == 0.0 <==>
            && stats.samples >= 2 && s.tareSamples >= 2
            && stats.errorSquared == 0.0 && s.tareErrorSquared == 0.0 && stats.mean == s.tareCounts
  {
    var net, error := stats.mean - s.tareCounts, stats.errorSquared + s.tareErrorSquared;
    QuotientZero(net, knownMass);
    if net == 0.0 {
      assert net * net == 0.0;
    }
  }

  lemma WholeMean(xs: seq<int>)
    requires xs != [] && AllEqual(xs)
    ensures Mean(xs) == xs[0] as real && Truncated(Mean(xs)) == xs[0]
  {
    MeanBetween(xs, xs[0], xs[0]);
    assert (xs[0] as real).Floor == xs[0] && ((-xs[0]) as real).Floor == -xs[0];
    assert -(xs[0] as real) == (-xs[0]) as real;
  }

  /** In terms of the readings: the factor comes out zero exactly when both batches have two
      readings or more and every one of them is the same. Truncating the tare changes
      nothing about it. */
  lemma ZeroFactorReadings(before: Scale, tare: Stats, ys: seq<int>, stats: Stats, xs: seq<int>, knownMass: real,
                           truncates: bool)
    requires knownMass != 0.0 && StatsOf(tare, ys) && StatsOf(stats, xs)
    ensures var c := Calibrate(Tared(before, tare, truncates), stats, knownMass);
            c.Accepted? && c.countsPerUnit == 0.0 <==>
            |xs| >= 2 && |ys| >= 2 && AllEqual(xs) && AllEqual(ys) && xs[0] == ys[0]
  {
    ErrorVanishes(xs);
    ErrorVanishes(ys);
    ZeroFactor(Tared(before, tare, truncates), stats, knownMass);
    if AllEqual(xs) && AllEqual(ys) {
      WholeMean(xs);
      WholeMean(ys);
    }
  }

  /** Towards zero: the whole number next to it on that side. */
  lemma TruncatedExactly(r: real, t: int)
    ensures t == Truncated(r) <==>
            if r >= 0.0 then t as real <= r < t as real + 1.0 else t as real - 1.0 < r <= t as real
  {
  }

  /** What the tare stands for: the mean of its batch, or that mean truncated. */
  function TareOf(ys: seq<int>, truncates: bool): real
    requires ys != []
  {
    if truncates then Truncated(Mean(ys)) as real else Mean(ys)
  }

  lemma FactorTimesMass(net: real, knownMass: real)
    requires knownMass != 0.0
    ensures net / knownMass * knownMass == net
  {
  }

  /** What becomes of a net reading and its squared error. */
  predicate Judged(c: Calibration, net: real, error: real, longEnough: bool, knownMass: real) {
    && (c.TooFewSamples? <==> !longEnough)
    && (c.WithinNoise? <==> longEnough && Product(net, net) < 100.0 * error)
    && (c.Accepted? ==> c.net == net && c.errorSquared == error && Product(c.countsPerUnit, knownMass) == net)
  }

  lemma CalibrateJudges(s: Scale, stats: Stats, knownMass: real, net: real, error: real)
    requires knownMass != 0.0 && net == stats.mean - s.tareCounts && error == stats.errorSquared + s.tareErrorSquared
    ensures Judged(Calibrate(s, stats, knownMass), net, error, stats.samples >= 2 && s.tareSamples >= 2, knownMass)
  {
    FactorTimesMass(net, knownMass);
  }

  /** A calibration in terms of the two batches: refused for their length exactly when either
      has fewer than two readings, for noise exactly when the means differ by less than ten
      times the error of both together; otherwise the factor times the known mass is that
      difference. */
  lemma CalibrationExactly(before: Scale, tare: Stats, ys: seq<int>, stats: Stats, xs: seq<int>, knownMass: real,
                           truncates: bool)
    requires knownMass != 0.0 && StatsOf(tare, ys) && StatsOf(stats, xs)
    ensures Judged(Calibrate(Tared(before, tare, truncates), stats, knownMass), Mean(xs) - TareOf(ys, truncates),
                   ErrorSquared(xs) + ErrorSquared(ys), |xs| >= 2 && |ys| >= 2, knownMass)
  {
    CalibrateJudges(Tared(before, tare, truncates), stats, knownMass, Mean(xs) - TareOf(ys, truncates),
                    ErrorSquared(xs) + ErrorSquared(ys));
  }

  /** The HX711 driver's refusal of a reading that never changes. */
  predicate Stuck(stats: Stats) {
    stats.samples >= STUCK_SAMPLES && stats.min == stats.max
  }

  /** With that refusal a zero factor can only come from two batches of two or three. */
  lemma StuckGuard(before: Scale, tare: Stats, ys: seq<int>, stats: Stats, xs: seq<int>, knownMass: real)
    requires knownMass != 0.0 && StatsOf(tare, ys) && StatsOf(stats, xs) && !Stuck(tare) && !Stuck(stats)
    ensures var c := Calibrate(Tared(before, tare, true), stats, knownMass);
            c.Accepted? && c.countsPerUnit == 0.0 ==> |xs| < 4 && |ys| < 4
  {
    ZeroFactorReadings(before, tare, ys, stats, xs, knownMass, true);
  }

  /** Weights are in proportion: so many counts above the tare as the factor says is one unit. */
  lemma UnitsInProportion(s: Scale, units: real)
    requires s.countsPerUnit != 0.0
    ensures Units(s, s.tareCounts + units * s.countsPerUnit) == units
  {
    assert units * s.countsPerUnit / s.countsPerUnit == units;
  }

  lemma TruncationIsClose(r: real)
    ensures -1.0 < r - Truncated(r) as real < 1.0
  {
  }

  /** Weighing the very batch a scale was tared with: nothing, or with a truncated tare less
      than one count of net. */
  lemma TareReadsZero(s: Scale, tare: Stats, truncates: bool)
    ensures var net := tare.mean - Tared(s, tare, truncates).tareCounts;
            if truncates then -1.0 < net < 1.0 else net == 0.0
  {
    TruncationIsClose(tare.mean);
  }

  // ---------------------------------------------------------------- HX711 mode changes

  /** The converter's channel-and-gain setting, and the scale measured at one of them. */
  datatype Converter = Converter(mode: int, ready: bool, scale: Scale)

  /** The mode is taken over first; the scale is dropped only once the conversions after the
      change have been discarded. */
  function ApplyMode(h: Converter, requested: int, settles: bool): Converter {
    var changed := requested != h.mode || !h.ready;
    h.(mode := requested, scale := if settles && changed then NoScale else h.scale)
  }

  predicate Fits(h: Converter, measuredAt: int) {
    h.scale == NoScale || h.mode == measuredAt
  }

  /** A scale measured at some mode is not left behind at another exactly when there is
      none, the mode asked for is that one, or a real change settles. */
  lemma ScaleFollowsMode(h: Converter, requested: int, settles: bool, measuredAt: int)
    requires h.ready
    ensures Fits(ApplyMode(h, requested, settles), measuredAt) <==>
            h.scale == NoScale || requested == measuredAt || (settles && requested != h.mode)
  {
  }

  /** One call to set the mode, and whether the conversions after it could be discarded. */
  datatype Change = Change(requested: int, settles: bool)

  function ApplyAll(h: Converter, changes: seq<Change>): Converter {
    if changes == [] then h
    else
      var last := changes[|changes| - 1];
      ApplyMode(ApplyAll(h, changes[..|changes| - 1]), last.requested, last.settles)
  }

  /** The mode the `k`-th call finds: the one last asked for, settled or not. */
  function ModeBefore(h: Converter, changes: seq<Change>, k: nat): int
    requires k <= |changes|
  {
    if k == 0 then h.mode else changes[k - 1].requested
  }

  /** The `k`-th call asks for another mode than the one before it, and settles. */
  predicate SettledChange(h: Converter, changes: seq<Change>, k: nat)
    requires k < |changes|
  {
    changes[k].settles && changes[k].requested != ModeBefore(h, changes, k)
  }

  /** Over any sequence of mode changes, settling or failing: the mode is the last one asked
      for, and the scale is gone exactly when there was none or one of the calls was a
      settled change. */
  lemma {:induction false} ChangesDropScale(h: Converter, changes: seq<Change>)
    requires h.ready
    ensures var c := ApplyAll(h, changes); c.ready && c.mode == ModeBefore(h, changes, |changes|)
    ensures ApplyAll(h, changes).scale ==
            if exists k :: 0 <= k < |changes| && SettledChange(h, changes, k) then NoScale else h.scale
    decreases |changes|
  {
    if changes != [] {
      var n := |changes| - 1;
      ChangesDropScale(h, changes[..n]);
      assert forall k | 0 <= k < n :: SettledChange(h, changes[..n], k) == SettledChange(h, changes, k);
      assert ModeBefore(h, changes[..n], n) == ModeBefore(h, changes, n);
      assert ApplyAll(h, changes).scale ==
             if SettledChange(h, changes, n) then NoScale else ApplyAll(h, changes[..n]).scale;
    }
  }

  /** So a scale fits after any such sequence exactly when there was none, one of the calls
      was a settled change, or the last mode asked for is the one it was measured at. */
  lemma ScaleFollowsChanges(h: Converter, changes: seq<Change>, measuredAt: int)
    requires h.ready
    ensures Fits(ApplyAll(h, changes), measuredAt) <==>
            || h.scale == NoScale
            || (exists k :: 0 <= k < |changes| && SettledChange(h, changes, k))
            || ModeBefore(h, changes, |changes|) == measuredAt
  {
    ChangesDropScale(h, changes);
  }

  /** The condition fails for a change that does not settle and one more call that does:
      the second finds the mode already taken over. */
  lemma RetryKeepsStaleScale(h: Converter, requested: int)
    requires h.ready && h.scale != NoScale && requested != h.mode
    ensures !Fits(ApplyAll(h, [Change(requested, false), Change(requested, true)]), h.mode)
  {
    ScaleFollowsChanges(h, [Change(requested, false), Change(requested, true)], h.mode);
  }
}
