/**
 * `java.math.BigDecimal` as far as the service uses it: a value
 * unscaled × 10^(-scale), and `multiply`, which multiplies the unscaled
 * values and adds the scales, exactly and without rounding.
 */
module Decimals {

  datatype BigDecimal = BigDecimal(unscaled: int, scale: int)

  function Pow10(n: nat): nat
  {
    if n == 0 then 1 else 10 * Pow10(n - 1)
  }

  /** 10^(-scale) as a real number: each unit of scale divides by ten. */
  function ScaleFactor(scale: int): (f: real)
    decreases if scale >= 0 then scale else -scale
  {
    if scale == 0 then 1.0
    else if scale > 0 then ScaleFactor(scale - 1) / 10.0
    else ScaleFactor(scale + 1) * 10.0
  }

  lemma {:induction false} ScalePositive(n: int)
    ensures ScaleFactor(n) > 0.0
    decreases if n >= 0 then n else -n
  {
    if n > 0 {
      ScalePositive(n - 1);
    } else if n < 0 {
      ScalePositive(n + 1);
    }
  }

  /** A negative scale -n multiplies by the whole number 10^n. */
  lemma {:induction false} NegativeScale(n: nat)
    ensures ScaleFactor(-(n as int)) == Pow10(n) as real
  {
    if n > 0 {
      NegativeScale(n - 1);
    }
  }

  /** One more unit of scale is a tenth, for negative scales as well. */
  lemma ScaleStep(n: int)
    ensures ScaleFactor(n) == ScaleFactor(n - 1) / 10.0
  {
  }

  /** The factors of two scales multiply to the factor of their sum. */
  lemma ScaleFactorAdd(s: int, t: int)
    ensures ScaleFactor(s + t) == ScaleFactor(s) * ScaleFactor(t)
  {
    if t >= 0 {
      ScaleFactorAddUp(s, t);
    } else {
      ScaleFactorAddDown(s, -t);
    }
  }

  lemma {:induction false} ScaleFactorAddUp(s: int, t: nat)
    ensures ScaleFactor(s + t) == ScaleFactor(s) * ScaleFactor(t)
  {
    if t == 0 {
      Unit(ScaleFactor(s), ScaleFactor(t));
    } else {
      ScaleFactorAddUp(s, t - 1);
      ScaleStep(s + t);
      ScaleStep(t);
      ShiftTenth(ScaleFactor(s + t), ScaleFactor(s + (t - 1)), ScaleFactor(s), ScaleFactor(t - 1), ScaleFactor(t));
    }
  }

  lemma {:induction false} ScaleFactorAddDown(s: int, m: nat)
    ensures ScaleFactor(s - m) == ScaleFactor(s) * ScaleFactor(-(m as int))
  {
    var t: int := -(m as int);
    if m == 0 {
      Unit(ScaleFactor(s), ScaleFactor(t));
    } else {
      ScaleFactorAddDown(s, m - 1);
      ScaleStep(s + t + 1);
      ScaleStep(t + 1);
      UnshiftTenth(ScaleFactor(s + t + 1), ScaleFactor(s + t), ScaleFactor(s), ScaleFactor(t), ScaleFactor(t + 1));
    }
  }

  /** If p = q/10, q = x*y and z = y/10, then p = x*z; stated over plain reals. */
  lemma ShiftTenth(p: real, q: real, x: real, y: real, z: real)
    requires p == q / 10.0 && q == x * y && z == y / 10.0
    ensures p == x * z
  {
  }

  /** If p = q/10, p = x*z and z = y/10, then q = x*y; stated over plain reals. */
  lemma UnshiftTenth(p: real, q: real, x: real, y: real, z: real)
    requires p == q / 10.0 && p == x * z && z == y / 10.0
    ensures q == x * y
  {
  }

  lemma Unit(x: real, one: real)
    requires one == 1.0
    ensures x == x * one
  {
  }

  lemma RealOfProduct(x: int, y: int)
    ensures (x * y) as real == x as real * y as real
  {
  }

  /** Regrouping a product of four reals given through its two halves. */
  lemma Regroup(x: real, y: real, f: real, g: real, xy: real, fg: real)
    requires xy == x * y && fg == f * g
    ensures xy * fg == (x * f) * (y * g)
  {
  }

  /** The exact numeric value of a decimal. */
  function Value(d: BigDecimal): real
  {
    d.unscaled as real * ScaleFactor(d.scale)
  }

  /** A decimal has the sign of its unscaled value, whatever its scale. */
  lemma ValueSign(d: BigDecimal)
    ensures Value(d) > 0.0 <==> d.unscaled > 0
    ensures Value(d) == 0.0 <==> d.unscaled == 0
  {
    ScalePositive(d.scale);
    SignOfProduct(d.unscaled as real, ScaleFactor(d.scale));
  }

  lemma SignOfProduct(x: real, f: real)
    requires f > 0.0
    ensures x * f > 0.0 <==> x > 0.0
    ensures x * f == 0.0 <==> x == 0.0
  {
    if x > 0.0 {
    } else if x < 0.0 {
    }
  }

  /** `BigDecimal.multiply`: the exact product, with scale the sum of the scales. */
  function Multiply(a: BigDecimal, b: BigDecimal): (r: BigDecimal)
    ensures Value(r) == Value(a) * Value(b)
    ensures r.scale == a.scale + b.scale
  {
    ProductValue(a, b);
    BigDecimal(a.unscaled * b.unscaled, a.scale + b.scale)
  }

  lemma ProductValue(a: BigDecimal, b: BigDecimal)
    ensures Value(BigDecimal(a.unscaled * b.unscaled, a.scale + b.scale)) == Value(a) * Value(b)
  {
    RealOfProduct(a.unscaled, b.unscaled);
    ScaleFactorAdd(a.scale, b.scale);
    Regroup(a.unscaled as real, b.unscaled as real, ScaleFactor(a.scale), ScaleFactor(b.scale),
      (a.unscaled * b.unscaled) as real, ScaleFactor(a.scale + b.scale));
  }

  /** `new BigDecimal("100")`. */
  const Hundred: BigDecimal := BigDecimal(100, 0)
}
