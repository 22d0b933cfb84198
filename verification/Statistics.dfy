/**
 Averaging a batch of conversions in one pass, over the reals: the accumulated moments are
 the sums a second pass would form. A standard error is represented by its square.
 */
module Statistics {
  import opened Options

  // ---------------------------------------------------------------- sums over the first n

  function Sum(xs: seq<int>, n: nat): real
    requires n <= |xs|
  {
    if n == 0 then 0.0 else Sum(xs, n - 1) + xs[n - 1] as real
  }

  /** The distances from `c`, summed; zero when `c` is the mean. */
  function Deviations(xs: seq<int>, n: nat, c: real): real
    requires n <= |xs|
  {
    if n == 0 then 0.0 else Deviations(xs, n - 1, c) + (xs[n - 1] as real - c)
  }

  function Product(a: real, b: real): real {
    a * b
  }

  /** The squared distances from `c`, summed: what a second pass over the batch computes. */
  function SquaredDeviations(xs: seq<int>, n: nat, c: real): real
    requires n <= |xs|
  {
    if n == 0 then 0.0
    else
      var d := xs[n - 1] as real - c;
      SquaredDeviations(xs, n - 1, c) + Product(d, d)
  }

  function Mean(xs: seq<int>): real
    requires xs != []
  {
    Sum(xs, |xs|) / |xs| as real
  }

  /** The square of the mean's standard error; nothing can be said of a single reading. */
  function ErrorSquared(xs: seq<int>): real
    requires xs != []
  {
    if |xs| == 1 then 0.0
    else SquaredDeviations(xs, |xs|, Mean(xs)) / (|xs| - 1) as real / |xs| as real
  }

  // ---------------------------------------------------------------- moving the centre

  /** Of `n` readings adding up to `s`, the distances from `c` add up to `d`. */
  ghost predicate Offset(d: real, s: real, n: real, c: real) {
    d == s - Product(n, c)
  }

  lemma OffsetStep(d: real, s: real, n: real, c: real, x: real, d2: real, s2: real, n2: real)
    requires Offset(d, s, n, c) && d2 == d + (x - c) && s2 == s + x && n2 == n + 1.0
    ensures Offset(d2, s2, n2, c)
  {
  }

  lemma {:induction false} DeviationsAreOffset(xs: seq<int>, n: nat, c: real)
    requires n <= |xs|
    ensures Offset(Deviations(xs, n, c), Sum(xs, n), n as real, c)
  {
    if n > 0 {
      DeviationsAreOffset(xs, n - 1, c);
      OffsetStep(Deviations(xs, n - 1, c), Sum(xs, n - 1), (n - 1) as real, c, xs[n - 1] as real,
                 Deviations(xs, n, c), Sum(xs, n), n as real);
    }
  }

  /** What moving the point of measure by `e` adds to the squares of `n` distances adding up
      to `d`. */
  function Correction(d: real, e: real, n: real): real {
    n * e * e - 2.0 * e * d
  }

  /** `after` is `before` with the point it is measured from moved by `e`. */
  ghost predicate Shifted(before: real, after: real, d: real, e: real, n: real) {
    after == before + Correction(d, e, n)
  }

  lemma ShiftStep(b: real, a: real, d: real, e: real, n: real, y: real, w: real, b2: real, a2: real, d2: real, n2: real)
    requires Shifted(b, a, d, e, n) && w == y - e
    requires b2 == b + Product(y, y) && a2 == a + Product(w, w) && d2 == d + y && n2 == n + 1.0
    ensures Shifted(b2, a2, d2, e, n2)
  {
  }

  lemma {:induction false} SquaresShift(xs: seq<int>, n: nat, c: real, e: real)
    requires n <= |xs|
    ensures Shifted(SquaredDeviations(xs, n, c), SquaredDeviations(xs, n, c + e), Deviations(xs, n, c), e, n as real)
  {
    if n > 0 {
      SquaresShift(xs, n - 1, c, e);
      var x := xs[n - 1] as real;
      ShiftStep(SquaredDeviations(xs, n - 1, c), SquaredDeviations(xs, n - 1, c + e), Deviations(xs, n - 1, c), e,
                (n - 1) as real, x - c, x - (c + e),
                SquaredDeviations(xs, n, c), SquaredDeviations(xs, n, c + e), Deviations(xs, n, c), n as real);
    }
  }

  // ---------------------------------------------------------------- one step of the loop

  /** The mean `m` of `n` readings moves by `e` when reading `x` joins them. */
  ghost predicate Moves(n: real, m: real, x: real, e: real) {
    Product(n, e) == x - m - e
  }

  lemma WelfordAlgebra(before: real, after: real, x: real, m: real, e: real, n: real, w: real, joined: real)
    requires Moves(n, m, x, e) && Shifted(before, after, 0.0, e, n) && w == x - (m + e)
    requires joined == after + Product(w, w)
    ensures joined == before + Product(x - m, w)
  {
    assert n * e * e == (x - m - e) * e;
  }

  lemma SquaresMove(xs: seq<int>, n: nat, m: real, e: real)
    requires n < |xs| && Deviations(xs, n, m) == 0.0 && Moves(n as real, m, xs[n] as real, e)
    ensures SquaredDeviations(xs, n + 1, m + e)
            == SquaredDeviations(xs, n, m) + Product(xs[n] as real - m, xs[n] as real - (m + e))
  {
    SquaresShift(xs, n, m, e);
    WelfordAlgebra(SquaredDeviations(xs, n, m), SquaredDeviations(xs, n, m + e), xs[n] as real, m, e, n as real,
                   xs[n] as real - (m + e), SquaredDeviations(xs, n + 1, m + e));
  }

  lemma MeanMoves(s: real, n: real, m: real, x: real, e: real, s2: real, n2: real, d2: real)
    requires Offset(0.0, s, n, m) && Moves(n, m, x, e)
    requires s2 == s + x && n2 == n + 1.0 && Offset(d2, s2, n2, m + e)
    ensures d2 == 0.0
  {
    assert (n + 1.0) * (m + e) == n * m + n * e + m + e;
  }

  lemma DeviationsMove(xs: seq<int>, n: nat, m: real, e: real)
    requires n < |xs| && Deviations(xs, n, m) == 0.0 && Moves(n as real, m, xs[n] as real, e)
    ensures Deviations(xs, n + 1, m + e) == 0.0
  {
    DeviationsAreOffset(xs, n, m);
    DeviationsAreOffset(xs, n + 1, m + e);
    MeanMoves(Sum(xs, n), n as real, m, xs[n] as real, e, Sum(xs, n + 1), (n + 1) as real,
              Deviations(xs, n + 1, m + e));
  }

  // ---------------------------------------------------------------- extremes, and no spread

  ghost predicate Between(s: real, n: real, low: real, high: real) {
    n * low <= s <= n * high
  }

  lemma BetweenStep(s: real, n: real, low: real, high: real, x: real, s2: real, n2: real)
    requires Between(s, n, low, high) && low <= x <= high && s2 == s + x && n2 == n + 1.0
    ensures Between(s2, n2, low, high)
  {
    assert (n + 1.0) * low == n * low + low && (n + 1.0) * high == n * high + high;
  }

  lemma {:induction false} SumBetween(xs: seq<int>, n: nat, low: int, high: int)
    requires n <= |xs| && forall i :: 0 <= i < n ==> low <= xs[i] <= high
    ensures Between(Sum(xs, n), n as real, low as real, high as real)
  {
    if n > 0 {
      SumBetween(xs, n - 1, low, high);
      BetweenStep(Sum(xs, n - 1), (n - 1) as real, low as real, high as real, xs[n - 1] as real, Sum(xs, n), n as real);
    }
  }

  lemma QuotientBetween(s: real, n: real, low: real, high: real)
    requires n > 0.0 && Between(s, n, low, high)
    ensures low <= s / n <= high
  {
    QuotientGrows(n * low, s, n);
    QuotientGrows(s, n * high, n);
    assert n * low / n == low && n * high / n == high;
  }

  lemma QuotientGrows(a: real, b: real, n: real)
    requires n > 0.0 && a <= b
    ensures a / n <= b / n
  {
  }

  lemma MeanBetween(xs: seq<int>, low: int, high: int)
    requires xs != [] && forall i :: 0 <= i < |xs| ==> low <= xs[i] <= high
    ensures low as real <= Mean(xs) <= high as real
  {
    SumBetween(xs, |xs|, low, high);
    QuotientBetween(Sum(xs, |xs|), |xs| as real, low as real, high as real);
  }

  lemma SameSign(y: real, w: real, product: real)
    requires product == y * w && ((y > 0.0 && w > 0.0) || (y < 0.0 && w < 0.0))
    ensures product > 0.0
  {
  }

  lemma SquareAdds(q: real, y: real, r: real)
    requires r == q + Product(y, y)
    ensures if y == 0.0 then r == q else r > q
  {
    if y != 0.0 {
      SameSign(y, y, r - q);
    }
  }

  lemma {:induction false} DeviationsShow(xs: seq<int>, n: nat, c: real)
    requires n <= |xs|
    ensures if forall i :: 0 <= i < n ==> xs[i] as real == c then SquaredDeviations(xs, n, c) == 0.0
            else SquaredDeviations(xs, n, c) > 0.0
  {
    if n > 0 {
      DeviationsShow(xs, n - 1, c);
      SquareAdds(SquaredDeviations(xs, n - 1, c), xs[n - 1] as real - c, SquaredDeviations(xs, n, c));
    }
  }

  predicate AllEqual(xs: seq<int>) {
    forall i :: 0 <= i < |xs| ==> xs[i] == xs[0]
  }

  lemma QuotientSign(v: real, n: real)
    requires v >= 0.0 && n > 0.0
    ensures if v == 0.0 then v / n == 0.0 else v / n > 0.0
  {
  }

  /** The reported error is zero exactly for readings that are all the same, a single one
      among them. */
  lemma ErrorVanishes(xs: seq<int>)
    requires xs != []
    ensures if AllEqual(xs) then ErrorSquared(xs) == 0.0 else ErrorSquared(xs) > 0.0
  {
    if |xs| > 1 {
      var m, n := Mean(xs), |xs|;
      var v := SquaredDeviations(xs, n, m);
      DeviationsShow(xs, n, m);
      QuotientSign(v, (n - 1) as real);
      QuotientSign(v / (n - 1) as real, n as real);
      if AllEqual(xs) {
        MeanBetween(xs, xs[0], xs[0]);
      } else {
        var i :| 0 <= i < n && xs[i] != xs[0];
        assert xs[i] as real != m || xs[0] as real != m;
      }
    }
  }

  // ---------------------------------------------------------------- without a mean

  /** The squares of the differences of every two of the first `n` readings, summed. */
  function PairSpread(xs: seq<int>, n: nat): real
    requires n <= |xs|
  {
    if n == 0 then 0.0 else PairSpread(xs, n - 1) + SquaredDeviations(xs, n - 1, xs[n - 1] as real)
  }

  /** Pairs, squares and deviations of `n` readings. */
  ghost predicate Pairs(pairs: real, squares: real, d: real, n: real) {
    pairs == n * squares - d * d
  }

  lemma PairsStep(pairs: real, squares: real, d: real, n: real, y: real, apart: real, pairs2: real, squares2: real,
                  d2: real, n2: real)
    requires Pairs(pairs, squares, d, n) && Shifted(squares, apart, d, y, n)
    requires pairs2 == pairs + apart && squares2 == squares + Product(y, y) && d2 == d + y && n2 == n + 1.0
    ensures Pairs(pairs2, squares2, d2, n2)
  {
    assert n2 * squares2 == n * squares + n * y * y + squares + y * y;
    assert d2 * d2 == d * d + 2.0 * y * d + y * y;
  }

  lemma {:induction false} PairsFrom(xs: seq<int>, n: nat, c: real)
    requires n <= |xs|
    ensures Pairs(PairSpread(xs, n), SquaredDeviations(xs, n, c), Deviations(xs, n, c), n as real)
  {
    if n > 0 {
      var x := xs[n - 1] as real;
      PairsFrom(xs, n - 1, c);
      SquaresShift(xs, n - 1, c, x - c);
      assert c + (x - c) == x;
      PairsStep(PairSpread(xs, n - 1), SquaredDeviations(xs, n - 1, c), Deviations(xs, n - 1, c), (n - 1) as real,
                x - c, SquaredDeviations(xs, n - 1, x),
                PairSpread(xs, n), SquaredDeviations(xs, n, c), Deviations(xs, n, c), n as real);
    }
  }

  lemma NoOffset(s: real, n: real, m: real, d: real)
    requires n > 0.0 && m == s / n && Offset(d, s, n, m)
    ensures d == 0.0
  {
    assert n * m == s;
  }

  lemma SpreadAlgebra(pairs: real, squares: real, n: real, error: real)
    requires n > 1.0 && Pairs(pairs, squares, 0.0, n) && error == squares / (n - 1.0) / n
    ensures error * (n * n * (n - 1.0)) == pairs
  {
    var v := squares / (n - 1.0);
    assert v * (n - 1.0) == squares && error * n == v;
    assert error * (n * n * (n - 1.0)) == error * n * (n - 1.0) * n;
  }

  /** The reported error without the mean: its square is what all pairs of the `n` readings
      differ by, squared and summed, over n * n * (n - 1). */
  lemma ErrorIsSpread(xs: seq<int>)
    requires |xs| >= 2
    ensures var n := |xs| as real; ErrorSquared(xs) * (n * n * (n - 1.0)) == PairSpread(xs, |xs|)
  {
    var n, m := |xs|, Mean(xs);
    PairsFrom(xs, n, m);
    DeviationsAreOffset(xs, n, m);
    NoOffset(Sum(xs, n), n as real, m, Deviations(xs, n, m));
    assert (n - 1) as real == n as real - 1.0;
    SpreadAlgebra(PairSpread(xs, n), SquaredDeviations(xs, n, m), n as real, ErrorSquared(xs));
  }

  /** Of two readings the mean is half their sum, and its error half their difference. */
  lemma TwoReadings(a: int, b: int)
    ensures Mean([a, b]) == (a + b) as real / 2.0
    ensures ErrorSquared([a, b]) == (a - b) as real * (a - b) as real / 4.0
  {
    var xs := [a, b];
    assert Sum(xs, 1) == a as real && Sum(xs, 2) == a as real + b as real;
    ErrorIsSpread(xs);
    assert SquaredDeviations(xs, 1, b as real) == Product(a as real - b as real, a as real - b as real);
    assert PairSpread(xs, 1) == 0.0;
  }

  // ---------------------------------------------------------------- the loop

  datatype Stats = Stats(mean: real, errorSquared: real, min: int, max: int, samples: nat)

  const INT32_MIN := -0x8000_0000
  const INT32_MAX := 0x7fff_ffff

  const NoStats := Stats(0.0, 0.0, 0, 0, 0)

  predicate IsInt32(x: int) {
    INT32_MIN <= x <= INT32_MAX
  }

  ghost predicate IsExtreme(low: int, high: int, xs: seq<int>, n: nat)
    requires n <= |xs|
  {
    && (exists i :: 0 <= i < n && xs[i] == low) && (exists i :: 0 <= i < n && xs[i] == high)
    && forall i :: 0 <= i < n ==> low <= xs[i] <= high
  }

  /** The loop's accumulators. */
  datatype Moments = Moments(total: real, runningMean: real, m2: real, low: int, high: int)

  ghost predicate Tracks(a: Moments, xs: seq<int>, n: nat)
    requires n <= |xs|
  {
    && a.total == Sum(xs, n) && Deviations(xs, n, a.runningMean) == 0.0
    && a.m2 == SquaredDeviations(xs, n, a.runningMean)
    && if n == 0 then a.low == INT32_MAX && a.high == INT32_MIN else IsExtreme(a.low, a.high, xs, n)
  }

  method Step(n: real, m: real, x: real) returns (e: real)
    requires n >= 0.0
    ensures Moves(n, m, x, e)
  {
    e := (x - m) / (n + 1.0);
    assert (n + 1.0) * e == x - m;
    assert (n + 1.0) * e == n * e + e;
  }

  lemma ExtremesStep(low: int, high: int, xs: seq<int>, n: nat)
    requires n < |xs| && IsInt32(xs[n])
    requires if n == 0 then low == INT32_MAX && high == INT32_MIN else IsExtreme(low, high, xs, n)
    ensures IsExtreme(if xs[n] < low then xs[n] else low, if xs[n] > high then xs[n] else high, xs, n + 1)
  {
  }

  lemma SumsStep(a: Moments, xs: seq<int>, n: nat, e: real, b: Moments)
    requires n < |xs| && Tracks(a, xs, n) && Moves(n as real, a.runningMean, xs[n] as real, e)
    requires b.total == a.total + xs[n] as real && b.runningMean == a.runningMean + e
    requires b.m2 == a.m2 + Product(xs[n] as real - a.runningMean, xs[n] as real - b.runningMean)
    requires IsExtreme(b.low, b.high, xs, n + 1)
    ensures Tracks(b, xs, n + 1)
  {
    SquaresMove(xs, n, a.runningMean, e);
    DeviationsMove(xs, n, a.runningMean, e);
  }

  /** The next reading joins the batch. */
  method Add(a: Moments, n: nat, value: int, ghost xs: seq<int>) returns (b: Moments)
    requires n < |xs| && value == xs[n] && IsInt32(value) && Tracks(a, xs, n)
    ensures Tracks(b, xs, n + 1)
  {
    var x := value as real;
    var delta := x - a.runningMean;
    var move := Step(n as real, a.runningMean, x);
    var mean := a.runningMean + move;
    ExtremesStep(a.low, a.high, xs, n);
    b := Moments(a.total + x, mean, a.m2 + delta * (x - mean),
                 if value < a.low then value else a.low, if value > a.high then value else a.high);
    assert Product(delta, x - mean) == delta * (x - mean);
    SumsStep(a, xs, n, move, b);
  }

  /** What is reported of a batch is what two passes over it would give. */
  ghost predicate StatsOf(stats: Stats, xs: seq<int>) {
    && xs != [] && stats.samples == |xs| && stats.mean == Mean(xs) && stats.errorSquared == ErrorSquared(xs)
    && IsExtreme(stats.min, stats.max, xs, |xs|) && stats.min as real <= stats.mean <= stats.max as real
  }

  lemma MeanIsCentre(xs: seq<int>, m: real)
    requires xs != [] && Deviations(xs, |xs|, m) == 0.0
    ensures m == Mean(xs)
  {
    DeviationsAreOffset(xs, |xs|, m);
    CentreAlgebra(Sum(xs, |xs|), |xs| as real, m);
  }

  lemma CentreAlgebra(s: real, n: real, m: real)
    requires n > 0.0 && Offset(0.0, s, n, m)
    ensures m == s / n
  {
    assert n * m / n == m;
  }

  method Summary(a: Moments, n: nat, ghost xs: seq<int>) returns (stats: Stats)
    requires n > 0 && n == |xs| && Tracks(a, xs, n)
    ensures StatsOf(stats, xs)
  {
    MeanBetween(xs, a.low, a.high);
    MeanIsCentre(xs, a.runningMean);
    var variance := if n > 1 then a.m2 / (n - 1) as real else 0.0;
    stats := Stats(a.total / n as real, if n > 1 then variance / n as real else 0.0, a.low, a.high, n);
  }

  /** The readings of a batch; a failed one counts for nothing. */
  function Values(conversions: seq<Option<int>>): seq<int> {
    seq(|conversions|, i requires 0 <= i < |conversions| =>
      if conversions[i].Some? then conversions[i].value else 0)
  }

  /** Averages a batch whose conversions may each fail; a failure reports how many came
      before it and nothing else. */
  method Average(conversions: seq<Option<int>>) returns (ok: bool, stats: Stats)
    requires conversions != []
    requires forall i :: 0 <= i < |conversions| && conversions[i].Some? ==> IsInt32(conversions[i].value)
    ensures ok <==> forall i :: 0 <= i < |conversions| ==> conversions[i].Some?
    ensures !ok ==> && stats == NoStats.(samples := stats.samples) && stats.samples < |conversions|
                    && conversions[stats.samples].None?
                    && forall i :: 0 <= i < stats.samples ==> conversions[i].Some?
    ensures ok ==> StatsOf(stats, Values(conversions))
  {
    var a := Moments(0.0, 0.0, 0.0, INT32_MAX, INT32_MIN);
    ghost var xs := Values(conversions);
    for i := 0 to |conversions|
      invariant forall k :: 0 <= k < i ==> conversions[k].Some?
      invariant Tracks(a, xs, i)
    {
      if conversions[i].None? {
        return false, NoStats.(samples := i);
      }
      a := Add(a, i, conversions[i].value, xs);
    }
    stats := Summary(a, |conversions|, xs);
    return true, stats;
  }
}
