/** Monetary normalisation (src/shared/lib/money.ts). Amounts are exact reals;
    a JavaScript number handed to `normalizeAmount` may also be NaN or infinite. */
module Money {

  /** A JavaScript `number` as far as `Number.isFinite` and `Math.abs` can tell. */
  datatype JsNumber = Finite(value: real) | NaN | Infinity(negative: bool) {
    predicate IsFinite() { Finite? }
  }

  /** `Math.abs`. */
  function Abs(n: JsNumber): (r: JsNumber)
    ensures r.IsFinite() <==> n.IsFinite()
    ensures r.Finite? ==> r.value >= 0.0 && (r.value == n.value || r.value == -n.value)
    ensures r.NaN? <==> n.NaN?
    ensures r.Infinity? ==> !r.negative
  {
    match n
    case Finite(v) => Finite(if v < 0.0 then -v else v)
    case NaN => NaN
    case Infinity(_) => Infinity(false)
  }

  /** `x` is a whole number of cents. */
  predicate IsCents(x: real) {
    (x * 100.0).Floor as real == x * 100.0
  }

  /** `Math.round(x * 100) / 100`: `Math.round` takes the floor of `y + 1/2`,
      so halves go toward plus infinity. The result is the one whole number of
      cents in the half-open window (x - 0.005, x + 0.005]. */
  function Round2(x: real): (r: real)
    ensures IsCents(r)
    ensures x - 0.005 < r <= x + 0.005
  {
    var n := (x * 100.0 + 0.5).Floor;
    assert (n as real / 100.0) * 100.0 == n as real;
    n as real / 100.0
  }

  /** The window of Round2 holds only one whole number of cents, so its
      contract determines it. */
  lemma Round2Unique(x: real, c: real)
    requires IsCents(c) && x - 0.005 < c <= x + 0.005
    ensures Round2(x) == c
  {
    var r := Round2(x);
    var n, m := (r * 100.0).Floor, (c * 100.0).Floor;
    assert r * 100.0 == n as real && c * 100.0 == m as real;
    assert -0.01 < c - r < 0.01;
    assert -1.0 < c * 100.0 - r * 100.0 < 1.0;
    assert -1 < m - n < 1;
    assert m == n;
  }

  /** A whole number of cents rounds to itself. */
  lemma Round2OfCents(x: real)
    requires IsCents(x)
    ensures Round2(x) == x
  {
    Round2Unique(x, x);
  }

  lemma Round2Idempotent(x: real)
    ensures Round2(Round2(x)) == Round2(x)
  {
    Round2OfCents(Round2(x));
  }

  lemma Round2Monotone(x: real, y: real)
    requires x <= y
    ensures Round2(x) <= Round2(y)
  {
    var a, b := x * 100.0 + 0.5, y * 100.0 + 0.5;
    assert a <= b;
    assert a.Floor <= b.Floor;
  }

  /** Ties are broken upward, not away from zero. */
  lemma Round2HalvesGoUp()
    ensures Round2(0.005) == 0.01
    ensures Round2(-0.005) == 0.0
    ensures Round2(1.125) == 1.13
    ensures Round2(-1.125) == -1.12
  {
    Round2Unique(0.005, 0.01);
    Round2Unique(-0.005, 0.0);
    Round2Unique(1.125, 1.13);
    Round2Unique(-1.125, -1.12);
  }

  /** The difference of two whole numbers of cents is a whole number of cents. */
  lemma CentsDifference(x: real, y: real)
    requires IsCents(x) && IsCents(y)
    ensures IsCents(x - y)
  {
    var n, m := (x * 100.0).Floor, (y * 100.0).Floor;
    assert (x - y) * 100.0 == (n - m) as real;
  }

  /** `normalizeAmount`: non-finite input becomes 0, finite input is rounded to cents. */
  function NormalizeAmount(v: JsNumber): (r: real)
    ensures !v.IsFinite() ==> r == 0.0
    ensures v.IsFinite() ==> r == Round2(v.value)
  {
    if !v.IsFinite() then 0.0 else Round2(v.value)
  }

  /** Every normalised amount is a whole number of cents. */
  lemma NormalizedIsCents(v: JsNumber)
    ensures IsCents(NormalizeAmount(v))
  {
    if !v.IsFinite() {
      assert (0.0 * 100.0).Floor == 0;
    }
  }

  lemma NormalizeIdempotent(v: JsNumber)
    ensures NormalizeAmount(Finite(NormalizeAmount(v))) == NormalizeAmount(v)
  {
    NormalizedIsCents(v);
    Round2OfCents(NormalizeAmount(v));
  }

  lemma NormalizeMonotone(x: real, y: real)
    requires x <= y
    ensures NormalizeAmount(Finite(x)) <= NormalizeAmount(Finite(y))
  {
    Round2Monotone(x, y);
  }

  /** A non-negative input stays non-negative, moves by at most half a cent,
      and anything below half a cent collapses to 0. */
  lemma NormalizeNonNegative(x: real)
    requires x >= 0.0
    ensures 0.0 <= NormalizeAmount(Finite(x))
    ensures -0.005 < NormalizeAmount(Finite(x)) - x <= 0.005
    ensures x < 0.005 ==> NormalizeAmount(Finite(x)) == 0.0
  {
    Round2Monotone(0.0, x);
    Round2OfCents(0.0);
    if x < 0.005 {
      Round2Unique(x, 0.0);
    }
  }

  /** What the store gets from `normalizeAmount(Math.abs(n))`. */
  lemma NormalizeAbs(n: JsNumber)
    ensures var r := NormalizeAmount(Abs(n));
            r >= 0.0 && IsCents(r)
            && (n.Finite? ==> -0.005 < r - Abs(n).value <= 0.005)
  {
    NormalizedIsCents(Abs(n));
    if n.Finite? {
      NormalizeNonNegative(Abs(n).value);
    }
  }
}
