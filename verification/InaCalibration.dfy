/**
 The calibration register of the INA219 and INA226 current monitors, over the reals: the
 register is an integer quotient, truncated, and on the INA219 also even, and everything
 reported is derived from what the register holds.
 */
module InaCalibration {
  import opened Options

  const CURRENT_BITS := 32768.0
  const SLACK := 1.0001
  const TRUNC_EPSILON := 0.00001

  /** `step` is 2 when the register's low bit cannot be set, otherwise 1. */
  datatype Part = Part(constant: real, powerMult: real, shuntFullScale: real, calMin: int, calMax: int, step: int)

  const INA219 := Part(0.04096, 20.0, 0.32, 2, 65535, 2)
  const INA226 := Part(0.00512, 25.0, 0.08192, 1, 32767, 1)

  predicate Known(p: Part) {
    p == INA219 || p == INA226
  }

  datatype Calibration = Calibration(cal: int, currentLsb: real, powerLsb: real, fullScale: real)

  /** What the register stores of a value: a void low bit reads as zero. */
  function Stored(p: Part, value: int): int
    requires p.step > 0
  {
    value - value % p.step
  }

  function LsbFor(p: Part, cal: int, shunt: real): real
    requires p.step > 0
  {
    var effective := Stored(p, cal);
    if effective <= 0 || shunt <= 0.0 then 0.0 else p.constant / (effective as real * shunt)
  }

  /** The register value before truncation. */
  function Quotient(p: Part, shunt: real, lsb: real): real
    requires shunt > 0.0 && lsb > 0.0
  {
    p.constant / (lsb * shunt)
  }

  function Compute(p: Part, shunt: real, maxCurrent: real): Option<Calibration>
    requires p.step > 0
  {
    if shunt <= 0.0 || maxCurrent <= 0.0 then None
    else if maxCurrent * shunt > p.shuntFullScale * SLACK then None
    else
      var truncated := Truncated(p, Quotient(p, shunt, maxCurrent / CURRENT_BITS));
      if truncated < p.calMin || truncated > p.calMax then None
      else
        var cal := Stored(p, truncated);
        var lsb := LsbFor(p, cal, shunt);
        Some(Calibration(cal, lsb, lsb * p.powerMult, lsb * CURRENT_BITS))
  }

  // ---------------------------------------------------------------- the algebra

  lemma Cancel(a: real, b: real, s: real)
    requires s > 0.0 && a * s == b * s
    ensures a == b
  {
  }

  lemma Grows(a: real, b: real, s: real)
    requires s > 0.0
    ensures a <= b ==> s * a <= s * b
    ensures a < b ==> s * a < s * b
  {
  }

  lemma CancelBelow(a: real, b: real, s: real)
    requires s > 0.0 && a * s <= b * s
    ensures a <= b
  {
  }

  /** `n` is the quotient of `c` and `lsb * s`; `out` what register value `k` yields. */
  lemma LsbRatio(c: real, s: real, lsb: real, n: real, k: real, out: real)
    requires s > 0.0 && n * (lsb * s) == c && out * (k * s) == c
    ensures out * k == lsb * n
  {
    assert n * (lsb * s) == (lsb * n) * s;
    assert out * (k * s) == (out * k) * s;
    Cancel(out * k, lsb * n, s);
  }

  lemma Divides(a: real, b: real)
    requires b > 0.0
    ensures a / b * b == a
  {
  }

  lemma Positive(a: real, b: real, product: real)
    requires a > 0.0 && b > 0.0 && product == a * b
    ensures product > 0.0
  {
  }

  lemma FloorBounds(x: real, p: Part)
    requires p.step == 1 || p.step == 2
    ensures var k := Stored(p, x.Floor); k as real <= x < k as real + p.step as real
  {
  }

  lemma Halves(maxCurrent: real, shunt: real) returns (lsb: real, d: real)
    requires maxCurrent > 0.0 && shunt > 0.0
    ensures lsb == maxCurrent / CURRENT_BITS && lsb > 0.0 && lsb * CURRENT_BITS == maxCurrent
    ensures d == lsb * shunt && d > 0.0 && d * CURRENT_BITS == maxCurrent * shunt
  {
    lsb := maxCurrent / CURRENT_BITS;
    Divides(maxCurrent, CURRENT_BITS);
    d := lsb * shunt;
    Positive(lsb, shunt, d);
  }

  lemma AtLeast(n: real, d: real, c: real, least: real)
    requires d > 0.0 && n * d == c && least * d <= c
    ensures n >= least
  {
    if n < least {
      Grows(n, least, d);
    }
  }

  /** The accepted request, the quotient `n` and the register value, and what binds them. */
  ghost predicate Bound(p: Part, shunt: real, maxCurrent: real, lsb: real, n: real, cal: int) {
    && lsb > 0.0 && lsb * CURRENT_BITS == maxCurrent
    && n * (lsb * shunt) == p.constant
    && cal as real <= n * (1.0 + TRUNC_EPSILON) < cal as real + p.step as real
  }

  lemma QuotientTimes(p: Part, shunt: real, lsb: real)
    requires shunt > 0.0 && lsb > 0.0
    ensures Quotient(p, shunt, lsb) * (lsb * shunt) == p.constant
  {
    Positive(lsb, shunt, lsb * shunt);
    Divides(p.constant, lsb * shunt);
  }

  /** The truncated quotient, before the void bit is dropped. */
  function Truncated(p: Part, n: real): int {
    (n * (1.0 + TRUNC_EPSILON)).Floor
  }

  lemma AcceptedIsBound(p: Part, shunt: real, maxCurrent: real) returns (lsb: real, n: real)
    requires (p.step == 1 || p.step == 2) && Compute(p, shunt, maxCurrent).Some?
    ensures shunt > 0.0 && maxCurrent > 0.0
    ensures Bound(p, shunt, maxCurrent, lsb, n, Compute(p, shunt, maxCurrent).value.cal)
  {
    var d;
    lsb, d := Halves(maxCurrent, shunt);
    n := Quotient(p, shunt, lsb);
    QuotientTimes(p, shunt, lsb);
    FloorBounds(n * (1.0 + TRUNC_EPSILON), p);
    assert Compute(p, shunt, maxCurrent).value.cal == Stored(p, Truncated(p, n));
  }

  /** The least register value of any accepted request. */
  function Least(p: Part): int {
    if p == INA219 then 4192 else 2047
  }

  lemma QuotientIsLarge(p: Part, shunt: real, maxCurrent: real, lsb: real, n: real)
    requires Known(p) && shunt > 0.0 && lsb > 0.0 && lsb * CURRENT_BITS == maxCurrent
    requires n * (lsb * shunt) == p.constant && maxCurrent * shunt <= p.shuntFullScale * SLACK
    ensures n >= if p == INA219 then 4193.8 else 2047.7
  {
    var d := lsb * shunt;
    Positive(lsb, shunt, d);
    assert d * CURRENT_BITS == maxCurrent * shunt;
    AtLeast(n, d, p.constant, if p == INA219 then 4193.8 else 2047.7);
  }

  /** The shunt limit already keeps the register far above its own minimum. */
  lemma MinimumNeverBinds(p: Part, shunt: real, maxCurrent: real)
    requires Known(p)
    ensures var c := Compute(p, shunt, maxCurrent); c.Some? ==> c.value.cal >= Least(p) > p.calMin
  {
    if Compute(p, shunt, maxCurrent).Some? {
      var lsb, n := AcceptedIsBound(p, shunt, maxCurrent);
      QuotientIsLarge(p, shunt, maxCurrent, lsb, n);
    }
  }

  // ---------------------------------------------------------------- what is reported

  /** The current step `out` that register value `k` yields. */
  lemma LsbTimes(p: Part, k: int, shunt: real)
    requires p.step > 0 && k > 0 && Stored(p, k) == k && shunt > 0.0
    ensures LsbFor(p, k, shunt) * (k as real * shunt) == p.constant
  {
    Positive(k as real, shunt, k as real * shunt);
    Divides(p.constant, k as real * shunt);
  }

  lemma StepBounds(out: real, k: real, lsb: real, n: real, step: real)
    requires lsb > 0.0 && k > 0.0 && step > 0.0 && out * k == lsb * n
    requires k <= n * (1.0 + TRUNC_EPSILON) < k + step
    ensures lsb <= out * (1.0 + TRUNC_EPSILON)
    ensures out * k < lsb * (k + step)
  {
    Grows(k, n * (1.0 + TRUNC_EPSILON), lsb);
    assert lsb * (n * (1.0 + TRUNC_EPSILON)) == out * (1.0 + TRUNC_EPSILON) * k;
    CancelBelow(lsb, out * (1.0 + TRUNC_EPSILON), k);
    assert n < k + step;
    Grows(n, k + step, lsb);
  }

  /** Register value `k` answers a request of `asked` with a full scale of `full`. */
  ghost predicate Close(asked: real, full: real, k: real, step: real) {
    asked <= full * (1.0 + TRUNC_EPSILON) && full * k < asked * (k + step)
  }

  lemma Scaled(out: real, lsb: real, k: real, step: real, full: real, asked: real)
    requires Close(lsb, out, k, step) && full == out * CURRENT_BITS && asked == lsb * CURRENT_BITS
    ensures Close(asked, full, k, step)
  {
    assert full * k == out * k * CURRENT_BITS;
    assert asked * (k + step) == lsb * (k + step) * CURRENT_BITS;
  }

  lemma RegisterIsClose(p: Part, k: int, shunt: real, asked: real, lsb: real, n: real)
    requires p.step > 0 && k > 0 && Stored(p, k) == k && shunt > 0.0 && Bound(p, shunt, asked, lsb, n, k)
    ensures Close(asked, LsbFor(p, k, shunt) * CURRENT_BITS, k as real, p.step as real)
  {
    var out := LsbFor(p, k, shunt);
    LsbTimes(p, k, shunt);
    LsbRatio(p.constant, shunt, lsb, n, k as real, out);
    StepBounds(out, k as real, lsb, n, p.step as real);
    Scaled(out, lsb, k as real, p.step as real, out * CURRENT_BITS, asked);
  }

  /** Every accepted request: the full scale reached is within a hundred-thousandth of the one
      asked for, and above it by less than the last register step. */
  lemma FullScaleIsClose(p: Part, shunt: real, maxCurrent: real)
    requires Known(p)
    ensures var c := Compute(p, shunt, maxCurrent);
            c.Some? ==> Close(maxCurrent, c.value.fullScale, c.value.cal as real, p.step as real)
  {
    if Compute(p, shunt, maxCurrent).Some? {
      var lsb, n := AcceptedIsBound(p, shunt, maxCurrent);
      MinimumNeverBinds(p, shunt, maxCurrent);
      RegisterIsClose(p, Compute(p, shunt, maxCurrent).value.cal, shunt, maxCurrent, lsb, n);
    }
  }

  /** The register value from which its own full scale is within the shunt's range. */
  function Reproducible(p: Part): int {
    if p == INA219 then 4194 else 2048
  }

  lemma ShuntDrop(out: real, k: real, shunt: real, c: real)
    requires out * (k * shunt) == c
    ensures out * CURRENT_BITS * shunt * k == c * CURRENT_BITS
  {
    assert out * CURRENT_BITS * shunt * k == out * (k * shunt) * CURRENT_BITS;
  }

  lemma DropWithin(drop: real, k: int, p: Part)
    requires Known(p) && k > 0 && drop * k as real == p.constant * CURRENT_BITS
    ensures drop <= p.shuntFullScale * SLACK <==> k >= Reproducible(p)
  {
    var limit := p.shuntFullScale * SLACK;
    Compared(drop, limit, k as real);
    if p == INA219 {
      assert limit * k as real == 0.320032 * k as real;
    } else {
      assert limit * k as real == 0.081928192 * k as real;
    }
  }

  lemma Compared(a: real, b: real, s: real)
    requires s > 0.0
    ensures a <= b <==> a * s <= b * s
  {
    if a <= b {
      Grows(a, b, s);
    } else {
      Grows(b, a, s);
    }
  }

  lemma QuotientAgain(p: Part, shunt: real, out: real, k: real)
    requires shunt > 0.0 && out > 0.0 && out * (k * shunt) == p.constant
    ensures Quotient(p, shunt, out) == k
  {
    QuotientTimes(p, shunt, out);
    Positive(out, shunt, out * shunt);
    assert out * (k * shunt) == k * (out * shunt);
    Cancel(Quotient(p, shunt, out), k, out * shunt);
  }

  lemma TruncatedAgain(p: Part, k: int)
    requires 0 <= k <= 65535
    ensures Truncated(p, k as real) == k
  {
  }

  lemma OutIsPositive(out: real, k: real, shunt: real, c: real)
    requires c > 0.0 && out * (k * shunt) == c && k > 0.0 && shunt > 0.0
    ensures out > 0.0
  {
    Positive(k, shunt, k * shunt);
    if out <= 0.0 {
      Grows(out, 0.0, k * shunt);
    }
  }

  /** Computing again from the reported full scale gives the same register value and the same
      report, exactly when that value is at least the threshold; below it, the part's own
      full scale is refused. */
  lemma RecomputeReproduces(p: Part, shunt: real, maxCurrent: real)
    requires Known(p)
    ensures var c := Compute(p, shunt, maxCurrent);
            c.Some? ==> Compute(p, shunt, c.value.fullScale) == if c.value.cal >= Reproducible(p) then c else None
  {
    if Compute(p, shunt, maxCurrent).Some? {
      var c := Compute(p, shunt, maxCurrent).value;
      var out, k := c.currentLsb, c.cal as real;
      MinimumNeverBinds(p, shunt, maxCurrent);
      LsbTimes(p, c.cal, shunt);
      OutIsPositive(out, k, shunt, p.constant);
      ShuntDrop(out, k, shunt, p.constant);
      DropWithin(c.fullScale * shunt, c.cal, p);
      assert c.fullScale / CURRENT_BITS == out;
      QuotientAgain(p, shunt, out, k);
      TruncatedAgain(p, c.cal);
    }
  }

  lemma StoredReaches(p: Part, value: int, least: int, x: real)
    requires Known(p) && least == Reproducible(p) && value == x.Floor
    ensures Stored(p, value) >= least <==> least as real <= x
  {
  }

  lemma ScaledCompare(e: real, n: real, d: real, least: real, c: real)
    requires d > 0.0 && n * d == c
    ensures least <= n * e <==> least * d <= c * e
  {
    Compared(least, n * e, d);
    assert n * e * d == n * d * e;
  }

  lemma DropCompare(least: real, lsb: real, shunt: real, asked: real, bound: real)
    requires lsb * CURRENT_BITS == asked
    ensures least * (lsb * shunt) <= bound <==> least * (asked * shunt) <= bound * CURRENT_BITS
  {
    Compared(least * (lsb * shunt), bound, CURRENT_BITS);
    assert least * (lsb * shunt) * CURRENT_BITS == least * (lsb * CURRENT_BITS * shunt);
  }

  /** Whether the quotient `n` of `c` and `lsb * shunt` reaches `least`, and the same of the
      shunt voltage. */
  lemma ReachesAsDrop(e: real, n: real, lsb: real, shunt: real, asked: real, least: real, c: real, reaches: bool)
    requires lsb * shunt > 0.0 && n * (lsb * shunt) == c && lsb * CURRENT_BITS == asked
    requires reaches == (least <= n * e)
    ensures reaches == (least * (asked * shunt) <= c * e * CURRENT_BITS)
  {
    ScaledCompare(e, n, lsb * shunt, least, c);
    DropCompare(least, lsb, shunt, asked, c * e);
  }

  lemma QuotientOf(p: Part, shunt: real, maxCurrent: real) returns (lsb: real, n: real)
    requires shunt > 0.0 && maxCurrent > 0.0
    ensures lsb * CURRENT_BITS == maxCurrent && lsb * shunt > 0.0 && n * (lsb * shunt) == p.constant
    ensures n == Quotient(p, shunt, maxCurrent / CURRENT_BITS)
  {
    var d;
    lsb, d := Halves(maxCurrent, shunt);
    n := Quotient(p, shunt, lsb);
    QuotientTimes(p, shunt, lsb);
  }

  /** The shunt voltage up to which the register value reaches the threshold, times it. */
  function ThresholdDrop(p: Part): real {
    p.constant * (1.0 + TRUNC_EPSILON) * CURRENT_BITS
  }

  /** The register value reaches a threshold exactly when the shunt voltage asked for is at
      most what the threshold answers. */
  lemma ThresholdAsDrop(p: Part, shunt: real, maxCurrent: real, cal: int) returns (reaches: bool)
    requires Known(p) && shunt > 0.0 && maxCurrent > 0.0
    requires cal == Stored(p, Truncated(p, Quotient(p, shunt, maxCurrent / CURRENT_BITS)))
    ensures reaches == (cal >= Reproducible(p))
    ensures reaches == (Reproducible(p) as real * (maxCurrent * shunt) <= ThresholdDrop(p))
  {
    var lsb, n := QuotientOf(p, shunt, maxCurrent);
    StoredReaches(p, Truncated(p, n), Reproducible(p), n * (1.0 + TRUNC_EPSILON));
    reaches := cal >= Reproducible(p);
    ReachesAsDrop(1.0 + TRUNC_EPSILON, n, lsb, shunt, maxCurrent, Reproducible(p) as real, p.constant, reaches);
  }

  /** In terms of the request: computing again from the report reproduces it exactly when the
      full-scale current times the shunt is at most 320.0263 mV (INA219) or 81.9208 mV
      (INA226), here without the division. */
  lemma RequestReproduces(p: Part, shunt: real, maxCurrent: real)
    requires Known(p)
    ensures var c := Compute(p, shunt, maxCurrent);
            c.Some? ==>
              Compute(p, shunt, c.value.fullScale) ==
              if Reproducible(p) as real * (maxCurrent * shunt) <= ThresholdDrop(p) then c else None
  {
    RecomputeReproduces(p, shunt, maxCurrent);
    if Compute(p, shunt, maxCurrent).Some? {
      var reaches := ThresholdAsDrop(p, shunt, maxCurrent, Compute(p, shunt, maxCurrent).value.cal);
    }
  }

  /** At the very end of the slack a request is accepted whose own report is refused. */
  lemma SlackIsNotReproducible()
    ensures var c := Compute(INA219, 0.1, 3.20032);
            c.Some? && c.value.cal < Reproducible(INA219) && Compute(INA219, 0.1, c.value.fullScale) == None
  {
    RecomputeReproduces(INA219, 0.1, 3.20032);
    var n := Quotient(INA219, 0.1, 3.20032 / CURRENT_BITS);
    var d := 3.20032 / CURRENT_BITS * 0.1;
    QuotientTimes(INA219, 0.1, 3.20032 / CURRENT_BITS);
    assert n * d == 0.04096;
    assert 4193.8 < n < 4193.9;
    assert Truncated(INA219, n) == 4193;
  }

  // ---------------------------------------------------------------- what is accepted, and what it says

  lemma PowerAlgebra(lsb: real, mult: real)
    ensures lsb * mult * 32768.0 == mult * (lsb * 32768.0)
  {
  }

  /** Every figure of an accepted calibration, from the register value and the request alone:
      the current step answers the part's equation, the full scale is 32768 of them, and a
      power count is worth 20 (INA219) or 25 (INA226) current steps. */
  lemma ReportedIsRegister(p: Part, shunt: real, maxCurrent: real)
    requires Known(p) && Compute(p, shunt, maxCurrent).Some?
    ensures var c := Compute(p, shunt, maxCurrent).value;
            && c.currentLsb * (c.cal as real * shunt) == (if p == INA219 then 0.04096 else 0.00512)
            && c.fullScale == 32768.0 * c.currentLsb
            && c.powerLsb * 32768.0 == (if p == INA219 then 20.0 else 25.0) * c.fullScale
            && 0 < c.cal <= (if p == INA219 then 65534 else 32767) && (p == INA219 ==> c.cal % 2 == 0)
  {
    var c := Compute(p, shunt, maxCurrent).value;
    MinimumNeverBinds(p, shunt, maxCurrent);
    LsbTimes(p, c.cal, shunt);
    PowerAlgebra(c.currentLsb, p.powerMult);
  }

  lemma FloorWithin(x: real, most: int)
    ensures x.Floor <= most <==> x < (most + 1) as real
  {
  }

  lemma MaximumAsDrop(p: Part, shunt: real, maxCurrent: real) returns (truncated: int)
    requires Known(p) && shunt > 0.0 && maxCurrent > 0.0
    ensures truncated == Truncated(p, Quotient(p, shunt, maxCurrent / CURRENT_BITS))
    ensures truncated <= p.calMax <==> ThresholdDrop(p) < (p.calMax + 1) as real * (maxCurrent * shunt)
  {
    var lsb, n := QuotientOf(p, shunt, maxCurrent);
    truncated := Truncated(p, n);
    FloorWithin(n * (1.0 + TRUNC_EPSILON), p.calMax);
    var least := (p.calMax + 1) as real;
    ReachesAsDrop(1.0 + TRUNC_EPSILON, n, lsb, shunt, maxCurrent, least, p.constant,
                  least <= n * (1.0 + TRUNC_EPSILON));
  }

  lemma LargeEnough(p: Part, n: real)
    requires Known(p) && n >= if p == INA219 then 4193.8 else 2047.7
    ensures Truncated(p, n) >= p.calMin
  {
    assert n * (1.0 + TRUNC_EPSILON) >= n;
  }

  /** The shunt voltage at the full scale asked for. */
  function Drop(maxCurrent: real, shunt: real): real {
    maxCurrent * shunt
  }

  /** The shunt voltage asked for is within the input's range, with the slack. */
  predicate Seen(p: Part, drop: real) {
    drop <= p.shuntFullScale * SLACK
  }

  /** The register holds the value that shunt voltage needs. */
  predicate Holds(p: Part, drop: real) {
    ThresholdDrop(p) < (p.calMax + 1) as real * drop
  }

  lemma AcceptedInRange(p: Part, shunt: real, maxCurrent: real)
    requires Known(p) && shunt > 0.0 && maxCurrent > 0.0 && Seen(p, Drop(maxCurrent, shunt))
    ensures Compute(p, shunt, maxCurrent).Some? <==> Holds(p, Drop(maxCurrent, shunt))
  {
    var truncated := MaximumAsDrop(p, shunt, maxCurrent);
    var lsb, d := Halves(maxCurrent, shunt);
    QuotientTimes(p, shunt, lsb);
    QuotientIsLarge(p, shunt, maxCurrent, lsb, Quotient(p, shunt, lsb));
    LargeEnough(p, Quotient(p, shunt, lsb));
  }

  /** The voltages the two inputs see, and those the two registers can answer. */
  predicate InRange(p: Part, drop: real) {
    if p == INA219 then drop <= 0.320032 && 1342.1907017728 < 65536.0 * drop
    else drop <= 0.081928192 && 167.7738377216 < 32768.0 * drop
  }

  lemma Limits(p: Part, drop: real)
    requires Known(p)
    ensures InRange(p, drop) <==> Seen(p, drop) && Holds(p, drop)
  {
  }

  lemma RefusedUnseen(p: Part, shunt: real, maxCurrent: real)
    requires p.step > 0 && (shunt <= 0.0 || maxCurrent <= 0.0 || !Seen(p, Drop(maxCurrent, shunt)))
    ensures Compute(p, shunt, maxCurrent).None?
  {
  }

  /** A request is accepted exactly when both its figures are positive and the shunt voltage it
      asks for is one the input can see and large enough for the register to hold. */
  lemma AcceptedExactly(p: Part, shunt: real, maxCurrent: real)
    requires Known(p)
    ensures Compute(p, shunt, maxCurrent).Some? <==>
            shunt > 0.0 && maxCurrent > 0.0 && InRange(p, Drop(maxCurrent, shunt))
  {
    var drop := Drop(maxCurrent, shunt);
    Limits(p, drop);
    if shunt > 0.0 && maxCurrent > 0.0 && Seen(p, drop) {
      AcceptedInRange(p, shunt, maxCurrent);
    } else {
      RefusedUnseen(p, shunt, maxCurrent);
    }
  }

  /** The data sheet's worked example: a millampere a count over two milliohms. */
  lemma WorkedExample()
    ensures Compute(INA226, 0.002, 32.768) == Some(Calibration(2560, 0.001, 0.025, 32.768))
  {
    assert Stored(INA226, 2560) == 2560;
    var lsb := 32.768 / CURRENT_BITS;
    assert lsb == 0.001;
    QuotientTimes(INA226, 0.002, lsb);
    assert Quotient(INA226, 0.002, lsb) == 2560.0;
    TruncatedAgain(INA226, 2560);
    LsbTimes(INA226, 2560, 0.002);
    assert LsbFor(INA226, 2560, 0.002) == 0.001;
    assert Compute(INA226, 0.002, 32.768).Some?;
  }
}
