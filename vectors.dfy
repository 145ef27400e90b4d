/**
 * Two-dimensional vectors as used by p5.js (`createVector`, `add`, `sub`,
 * `mult`, `div`, `mag`, `magSq`, `dist`, `normalize`, `limit`), over exact
 * reals. Square root, cosine and sine are the only numeric primitives the
 * engines need that cannot be computed exactly; they are supplied by a
 * `Math` value whose laws are stated by `Lawful`.
 */
module Vectors {

  datatype Vec = Vec(x: real, y: real)

  const Zero: Vec := Vec(0.0, 0.0)

  /** JavaScript's `Math.PI` and p5's `TWO_PI`. */
  const Pi: real := 3.141592653589793
  const TwoPi: real := 2.0 * Pi

  /** The primitives taken from the platform: `Math.sqrt`, `Math.cos`, `Math.sin`. */
  datatype Math = Math(sqrt: real -> real, cos: real -> real, sin: real -> real)

  /**
   * What the model assumes of the platform primitives, and nothing about
   * their exact values: the square root of a non-negative number is
   * non-negative, squares back to it and is zero only at zero; cosine and
   * sine lie on the unit circle.
   */
  ghost predicate Lawful(m: Math) {
    && (forall q :: 0.0 <= q ==> 0.0 <= m.sqrt(q) && m.sqrt(q) * m.sqrt(q) == q)
    && (forall q :: 0.0 < q ==> 0.0 < m.sqrt(q))
    && m.sqrt(0.0) == 0.0
    && (forall a :: m.cos(a) * m.cos(a) + m.sin(a) * m.sin(a) == 1.0)
  }

  function Add(a: Vec, b: Vec): Vec { Vec(a.x + b.x, a.y + b.y) }

  function Sub(a: Vec, b: Vec): Vec { Vec(a.x - b.x, a.y - b.y) }

  /** p5 `mult`. */
  function Scale(v: Vec, k: real): Vec { Vec(v.x * k, v.y * k) }

  /** p5 `div`. */
  function Div(v: Vec, k: real): Vec
    requires k != 0.0
  {
    Vec(v.x / k, v.y / k)
  }

  /** p5 `magSq`. */
  function MagSq(v: Vec): (r: real)
    ensures 0.0 <= r
  {
    SquareNonNegative(v.x);
    SquareNonNegative(v.y);
    v.x * v.x + v.y * v.y
  }

  /** Only the zero vector has a zero magnitude. */
  lemma MagSqPositive(v: Vec)
    requires v != Zero
    ensures 0.0 < MagSq(v)
  {
    NonZeroComponent(v);
    SignedMagSqPositive(v);
  }

  lemma NonZeroComponent(v: Vec)
    requires v != Zero
    ensures v.x < 0.0 || 0.0 < v.x || v.y < 0.0 || 0.0 < v.y
  {}

  lemma SignedMagSqPositive(v: Vec)
    requires v.x < 0.0 || 0.0 < v.x || v.y < 0.0 || 0.0 < v.y
    ensures 0.0 < MagSq(v)
  {
    calc {
      0.0;
    < { if v.x < 0.0 || 0.0 < v.x {
          SumOfSquaresPositive(v.x, v.y);
        } else {
          SumOfSquaresPositive(v.y, v.x);
        }
      }
      v.x * v.x + v.y * v.y;
    ==
      MagSq(v);
    }
  }

  lemma SumOfSquaresPositive(a: real, b: real)
    requires a < 0.0 || 0.0 < a
    ensures 0.0 < a * a + b * b
    ensures 0.0 < b * b + a * a
  {
    SquarePositive(a);
    SquareNonNegative(b);
  }

  lemma MulPositive(a: real, b: real)
    requires 0.0 < a && 0.0 < b
    ensures 0.0 < a * b
  {}

  lemma MulMonotone(a: real, b: real, c: real)
    requires a <= b && 0.0 <= c
    ensures a * c <= b * c
  {}

  lemma MulStrict(a: real, b: real, c: real)
    requires a < b && 0.0 < c
    ensures a * c < b * c
  {}

  lemma SquarePositive(a: real)
    requires a < 0.0 || 0.0 < a
    ensures 0.0 < a * a
  {
    if a > 0.0 {
      MulPositive(a, a);
    } else {
      MulPositive(-a, -a);
    }
  }

  lemma SquareNonNegative(a: real)
    ensures 0.0 <= a * a
  {
    if a < 0.0 || 0.0 < a {
      SquarePositive(a);
    }
  }

  lemma SquareStrict(s: real, r: real)
    requires 0.0 <= s < r
    ensures s * s < r * r
  {
    calc {
      s * s;
    <= { MulMonotone(s, r, s); }
      r * s;
    ==
      s * r;
    < { MulStrict(s, r, r); }
      r * r;
    }
  }

  lemma SquareMonotone(s: real, r: real)
    requires 0.0 <= s <= r
    ensures s * s <= r * r
  {
    calc {
      s * s;
    <= { MulMonotone(s, r, s); }
      r * s;
    ==
      s * r;
    <= { MulMonotone(s, r, r); }
      r * r;
    }
  }

  /** `|v| <= r`, compared through squares as p5's `limit` compares. */
  predicate WithinMag(v: Vec, r: real) {
    MagSq(v) <= r * r
  }

  /** p5 `mag`. */
  function Mag(m: Math, v: Vec): real { m.sqrt(MagSq(v)) }

  /** `p5.Vector.dist(a, b)`. */
  function Dist(m: Math, a: Vec, b: Vec): real { Mag(m, Sub(b, a)) }

  /** p5 `normalize`: divides by the magnitude unless it is zero. */
  function Normalize(m: Math, v: Vec): Vec {
    var len := Mag(m, v);
    if len != 0.0 then Scale(v, 1.0 / len) else v
  }

  /** p5 `limit`: rescales to length `max` when the squared length exceeds `max * max`. */
  function Limit(m: Math, v: Vec, max: real): Vec
    requires Lawful(m)
  {
    var mSq := MagSq(v);
    if mSq > max * max then
      Scale(Div(v, m.sqrt(mSq)), max)
    else v
  }

  /** p5 `map(value, start1, stop1, start2, stop2)`: the linear rescaling of one range onto another. */
  function MapRange(value: real, start1: real, stop1: real, start2: real, stop2: real): real
    requires start1 != stop1
  {
    (value - start1) / (stop1 - start1) * (stop2 - start2) + start2
  }

  /** p5 `random(lo, hi)` and tree.js `random(min, max)` applied to a `Math.random()` draw `u`. */
  function Uniform(u: real, lo: real, hi: real): (r: real)
    requires 0.0 <= u < 1.0
    requires lo <= hi
    ensures lo <= r <= hi
    ensures lo < hi ==> r < hi
  {
    var r := u * (hi - lo) + lo;
    assert lo <= r <= hi && (lo < hi ==> r < hi) by { UniformRange(u, lo, hi); }
    r
  }

  lemma UniformRange(u: real, lo: real, hi: real)
    requires 0.0 <= u < 1.0
    requires lo <= hi
    ensures lo <= u * (hi - lo) + lo <= hi
    ensures lo < hi ==> u * (hi - lo) + lo < hi
  {
    MulMonotone(0.0, u, hi - lo);
    MulMonotone(u, 1.0, hi - lo);
    if lo < hi { UniformBelowTop(u, lo, hi); }
  }

  lemma UniformBelowTop(u: real, lo: real, hi: real)
    requires 0.0 <= u < 1.0
    requires lo < hi
    ensures u * (hi - lo) + lo < hi
  {
    MulStrict(u, 1.0, hi - lo);
  }

  lemma InverseSquare(s: real, q: real)
    requires 0.0 < s && s * s == q
    ensures (1.0 / s) * (1.0 / s) * q == 1.0
  {}

  /** A magnitude compares with a bound exactly as its square does with the bound's square. */
  lemma MagBelow(m: Math, v: Vec, r: real)
    requires Lawful(m)
    requires 0.0 <= r
    ensures Mag(m, v) < r <==> MagSq(v) < r * r
    ensures Mag(m, v) > 0.0 <==> MagSq(v) > 0.0
  {
    var q := MagSq(v);
    var s := m.sqrt(q);
    assert 0.0 <= s && s * s == q;
    if s < r {
      SquareStrict(s, r);
    } else {
      SquareMonotone(r, s);
    }
  }

  lemma ScaledMagSq(v: Vec, k: real)
    ensures MagSq(Scale(v, k)) == k * k * MagSq(v)
  {
    assert (v.x * k) * (v.x * k) == k * k * (v.x * v.x);
    assert (v.y * k) * (v.y * k) == k * k * (v.y * v.y);
  }

  /** Dividing a non-zero vector by its magnitude gives a unit vector. */
  lemma UnitDirection(m: Math, v: Vec)
    requires Lawful(m)
    requires v != Zero
    ensures 0.0 < Mag(m, v)
    ensures MagSq(Scale(v, 1.0 / Mag(m, v))) == 1.0
  {
    var q := MagSq(v);
    MagSqPositive(v);
    var s := m.sqrt(q);
    ScaledMagSq(v, 1.0 / s);
    InverseSquare(s, q);
  }

  /** Normalizing a non-zero vector gives a unit vector; the zero vector is returned unchanged. */
  lemma NormalizeUnit(m: Math, v: Vec)
    requires Lawful(m)
    ensures v == Zero ==> Normalize(m, v) == Zero
    ensures v != Zero ==> MagSq(Normalize(m, v)) == 1.0
  {
    if v != Zero {
      UnitDirection(m, v);
    }
  }

  /**
   * `limit(max)` bounds the squared magnitude by `max * max`, leaves a vector
   * already within the bound unchanged, and otherwise lands exactly on the bound.
   */
  lemma LimitBound(m: Math, v: Vec, max: real)
    requires Lawful(m)
    ensures WithinMag(Limit(m, v, max), max)
    ensures WithinMag(v, max) ==> Limit(m, v, max) == v
    ensures !WithinMag(v, max) ==> MagSq(Limit(m, v, max)) == max * max
  {
    var q := MagSq(v);
    if q > max * max {
      SquareNonNegative(max);
      assert v != Zero;
      UnitDirection(m, v);
      var u := Div(v, m.sqrt(q));
      assert u == Scale(v, 1.0 / Mag(m, v));
      ScaledMagSq(u, max);
    }
  }

  /** The platform square root of a square is the non-negative root. */
  lemma SqrtOfSquare(m: Math, s: real)
    requires Lawful(m)
    requires 0.0 <= s
    ensures m.sqrt(s * s) == s
  {
    SquareNonNegative(s);
    var r := m.sqrt(s * s);
    assert 0.0 <= r && r * r == s * s;
    if r < s {
      SquareStrict(r, s);
    } else if s < r {
      SquareStrict(s, r);
    }
  }

  lemma CancelFactor(a: real, k: real)
    requires k != 0.0
    ensures (a * k) / k == a
    ensures (a * (1.0 / k)) * k == a
  {}

  /** A unit vector scaled by `k` has squared magnitude `k * k`. */
  lemma ScaledUnitMagSq(u: Vec, k: real)
    requires MagSq(u) == 1.0
    ensures MagSq(Scale(u, k)) == k * k
  {
    calc {
      MagSq(Scale(u, k));
    == { ScaledMagSq(u, k); }
      k * k * MagSq(u);
    ==
      k * k * 1.0;
    }
  }

  /**
   * Limiting a unit direction at speed `s` to a smaller `max` keeps the
   * direction and lands at `max`.
   */
  lemma LimitScaledUnit(m: Math, u: Vec, s: real, max: real)
    requires Lawful(m)
    requires MagSq(u) == 1.0
    requires 0.0 <= max < s
    ensures Limit(m, Scale(u, s), max) == Scale(u, max)
    ensures MagSq(Scale(u, max)) == max * max
  {
    ScaledUnitMagSq(u, max);
    var v := Scale(u, s);
    var q := MagSq(v);
    assert q == s * s by { ScaledUnitMagSq(u, s); }
    assert max * max < q by { SquareStrict(max, s); }
    assert m.sqrt(q) == s by { SqrtOfSquare(m, s); }
    assert Div(v, s) == u by { DivScaled(u, s); }
  }

  lemma DivScaled(u: Vec, k: real)
    requires k != 0.0
    ensures Div(Scale(u, k), k) == u
  {
    CancelFactor(u.x, k);
    CancelFactor(u.y, k);
  }

  /** A unit vector shrunk by a positive `k` has magnitude `1/k` and normalizes back to itself. */
  lemma NormalizeShrunkUnit(m: Math, u: Vec, k: real)
    requires Lawful(m)
    requires MagSq(u) == 1.0
    requires 0.0 < k
    ensures Mag(m, Div(u, k)) == 1.0 / k
    ensures Normalize(m, Div(u, k)) == u
  {
    var w := Div(u, k);
    var i := 1.0 / k;
    assert w == Scale(u, i);
    ScaledMagSq(u, i);
    assert MagSq(w) == i * i;
    SqrtOfSquare(m, i);
    assert Mag(m, w) == i;
    assert 1.0 / i == k;
    CancelFactor(u.x, k);
    CancelFactor(u.y, k);
    assert Scale(w, 1.0 / i) == u;
  }

  /** Two scalings commute. */
  lemma ScaleSwap(v: Vec, k: real, l: real)
    ensures Scale(Scale(v, k), l) == Scale(Scale(v, l), k)
  {
    assert (v.x * k) * l == (v.x * l) * k;
    assert (v.y * k) * l == (v.y * l) * k;
  }

  /** Reversing a vector reverses its direction. */
  lemma NormalizeOpposite(m: Math, v: Vec)
    requires Lawful(m)
    ensures Normalize(m, Scale(v, -1.0)) == Scale(Normalize(m, v), -1.0)
  {
    ScaledMagSq(v, -1.0);
    assert MagSq(Scale(v, -1.0)) == MagSq(v);
  }

  /** Doubling a vector quadruples its squared magnitude. */
  lemma DoubledBound(v: Vec, max: real)
    requires WithinMag(v, max)
    ensures WithinMag(Scale(v, 2.0), 2.0 * max)
  {
    ScaledMagSq(v, 2.0);
  }
}
