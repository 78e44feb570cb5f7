/**
 * JavaScript numbers as far as the modelled pages use them: a JS number is an
 * exact real or NaN. Comparisons with NaN are false, arithmetic with NaN
 * yields NaN, and `Math.round` rounds half-way values up.
 */
module JsNumber {

  datatype Number = Finite(value: real) | NaN

  /** `x < k` in JavaScript. */
  predicate Lt(x: Number, k: real) { x.Finite? && x.value < k }

  /** `x <= k` in JavaScript. */
  predicate Le(x: Number, k: real) { x.Finite? && x.value <= k }

  /** `x >= k` in JavaScript. */
  predicate Ge(x: Number, k: real) { x.Finite? && x.value >= k }

  /** `x > k` in JavaScript. */
  predicate Gt(x: Number, k: real) { x.Finite? && x.value > k }

  /** `x + y` in JavaScript. */
  function Add(x: Number, y: Number): (r: Number)
    ensures r.Finite? <==> x.Finite? && y.Finite?
    ensures r.Finite? ==> r.value == x.value + y.value
  {
    if x.Finite? && y.Finite? then Finite(x.value + y.value) else NaN
  }

  /** `Math.max(x, y)` in JavaScript: NaN as soon as one operand is NaN. */
  function Max(x: Number, y: Number): (r: Number)
    ensures r.Finite? <==> x.Finite? && y.Finite?
    ensures r.Finite? ==> r.value >= x.value && r.value >= y.value
    ensures r.Finite? ==> r.value == x.value || r.value == y.value
  {
    if x.Finite? && y.Finite? then Finite(if x.value >= y.value then x.value else y.value) else NaN
  }

  /** `Math.round(x)` on a finite number: the nearest integer, halves rounded up. */
  function Round(x: real): (r: int)
    ensures r as real <= x + 0.5 < r as real + 1.0
  {
    (x + 0.5).Floor
  }

  /** `Math.round(x)` on any number. */
  function RoundNumber(x: Number): (r: Number)
    ensures r.Finite? <==> x.Finite?
    ensures r.Finite? ==> r.value == Round(x.value) as real
  {
    if x.Finite? then Finite(Round(x.value) as real) else NaN
  }

  /** The integer a real lies in `[q, q + 1)` of is unique. */
  lemma FloorUnique(y: real, q: int, f: int)
    requires q as real <= y < q as real + 1.0
    requires f as real <= y < f as real + 1.0
    ensures q == f
  {
  }

  /** Rounding is monotone. */
  lemma RoundMonotone(x: real, y: real)
    requires x <= y
    ensures Round(x) <= Round(y)
  {
  }

  /** Euclidean quotient by a positive divisor, pinned between two multiples. */
  lemma DivBetween(n: int, d: int, k: int)
    requires d > 0 && d * k <= n < d * k + d
    ensures n / d == k
  {
    var q, r := n / d, n % d;
    assert n == d * q + r && 0 <= r < d;
    if q > k {
      assert d * q >= d * (k + 1) by { MulLe(k + 1, q, d); }
    } else if q < k {
      assert d * (q + 1) <= d * k by { MulLe(q + 1, k, d); }
    }
  }

  lemma MulLe(a: int, b: int, d: int)
    requires a <= b && d >= 0
    ensures d * a <= d * b
  {
    assert d * b - d * a == d * (b - a);
  }

  /** `n / d` as a real splits into its Euclidean quotient and a fraction below one. */
  lemma RealQuotient(n: int, d: int)
    requires d > 0
    ensures (n / d) as real <= n as real / d as real < (n / d) as real + 1.0
  {
    var q, r := n / d, n % d;
    assert n as real == d as real * q as real + r as real;
    assert n as real / d as real == q as real + r as real / d as real;
    assert 0.0 <= r as real / d as real < 1.0;
  }

  /** `c / t * 100 + 1/2` is the fraction `(200 c + t) / (2 t)`. */
  lemma HalfShift(c: int, t: int)
    requires t > 0
    ensures c as real / t as real * 100.0 + 0.5 == (200 * c + t) as real / (2 * t) as real
  {
    var C, T := c as real, t as real;
    var a := C / T;
    assert a * T == C;
    var lhs := a * 100.0 + 0.5;
    assert lhs * (2.0 * T) == 200.0 * C + T;
    assert (200 * c + t) as real == 200.0 * C + T && (2 * t) as real == 2.0 * T;
    QuotientOfProduct(lhs, 2.0 * T, 200.0 * C + T);
  }

  lemma QuotientOfProduct(a: real, d: real, n: real)
    requires d != 0.0 && a * d == n
    ensures a == n / d
  {
  }

  /**
   * `Math.round(c / t * 100)` for whole numbers `c` and `t > 0` is the integer
   * `(200 * c + t) div (2 * t)`, with no rounding error.
   */
  lemma RoundPercentOfCounts(c: int, t: int)
    requires t > 0
    ensures Round(c as real / t as real * 100.0) == (200 * c + t) / (2 * t)
  {
    var x := c as real / t as real * 100.0;
    HalfShift(c, t);
    RealQuotient(200 * c + t, 2 * t);
    FloorUnique(x + 0.5, Round(x), (200 * c + t) / (2 * t));
  }

  /** A count between 0 and the total gives a percentage between 0 and 100. */
  lemma PercentOfCountsInRange(c: int, t: int)
    requires 0 <= c <= t && t > 0
    ensures 0 <= (200 * c + t) / (2 * t) <= 100
  {
    var n, d := 200 * c + t, 2 * t;
    var q := n / d;
    assert n == d * q + n % d;
    if q > 100 {
      MulLe(101, q, d);
    }
    if q < 0 {
      assert d * q <= d * (-1) by { MulLe(q, -1, d); }
    }
  }

  /**
   * A field of a JSON record, as far as `??`, `||` and `Number(...)` tell
   * fields apart. `Junk` is a present value with no numeric reading (a
   * non-numeric string, an object); JSON carries no NaN and no undefined
   * inside a value.
   */
  datatype Value = Undefined | Null | Num(n: real) | Junk {
    predicate IsNullish() { Undefined? || Null? }
  }

  /** `a ?? b`. */
  function Coalesce(a: Value, b: Value): Value {
    if a.IsNullish() then b else a
  }

  /** `Number(v)`: undefined and junk give NaN, null gives 0. */
  function ToNumber(v: Value): Number {
    match v
    case Undefined => NaN
    case Null => Finite(0.0)
    case Num(n) => Finite(n)
    case Junk => NaN
  }

  /** `Number.isFinite(x)`; infinities are not modelled, so every non-NaN number is finite. */
  predicate IsFinite(x: Number) { x.Finite? }

  /** `x || 0` on a number: NaN and 0 are the falsy numbers. */
  function OrZero(x: Number): (r: Number)
    ensures r.Finite?
    ensures x.Finite? ==> r == x
    ensures x.NaN? ==> r == Finite(0.0)
  {
    if x.Finite? && x.value != 0.0 then x else Finite(0.0)
  }

  /** `v || 0` on a field: undefined, null and 0 are falsy (junk strings are truthy). */
  function ValueOrZero(v: Value): (r: Value)
    ensures r.Num? || r.Junk?
  {
    if v.Junk? || (v.Num? && v.n != 0.0) then v else Num(0.0)
  }
}
