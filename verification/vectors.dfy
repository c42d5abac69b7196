/**
 * Two-dimensional vectors over the reals (openFrameworks' ofVec2f / ofPoint),
 * the float-to-integer casts and fmod of the C++ source stated exactly, and
 * the maths the model leaves uninterpreted.
 */
module Vectors {

  /** A point or a vector of the plane. */
  datatype Vec = Vec(x: real, y: real) {
    function Plus(o: Vec): Vec { Vec(x + o.x, y + o.y) }
    function Minus(o: Vec): Vec { Vec(x - o.x, y - o.y) }
    function Negated(): Vec { Vec(-x, -y) }
    function Scaled(k: real): Vec { Vec(x * k, y * k) }
    function LengthSquared(): real { x * x + y * y }
  }

  const Zero := Vec(0.0, 0.0)

  function Min(a: int, b: int): int { if a < b then a else b }
  function Max(a: int, b: int): int { if a < b then b else a }

  /** openFrameworks' PI and the emitter's PI2. */
  const Pi: real := 3.14159265358979323846
  const Pi2: real := 6.28318530718

  /**
   * Functions the model does not interpret: ofVec2f::getNormalized,
   * ofVec2f::rotate (angle in degrees), sin and cos. Every operation that
   * uses them takes them as a parameter, so nothing proved depends on how
   * they are computed.
   */
  datatype VecMath = VecMath(
    normalizeFn: Vec -> Vec,
    rotateFn: (Vec, real) -> Vec,
    sinFn: real -> real,
    cosFn: real -> real)
  {
    function Normalized(v: Vec): Vec { normalizeFn(v) }
    function Rotated(v: Vec, degrees: real): Vec { rotateFn(v, degrees) }
    function Sin(r: real): real { sinFn(r) }
    function Cos(r: real): real { cosFn(r) }
  }

  /**
   * A float converted to an integer type: truncation toward zero. For a
   * negative value converted to size_t C++ leaves the result undefined; this
   * is what x86 compilers produce (the signed truncation, read back as int).
   */
  function Trunc(r: real): (t: int)
    ensures 0.0 <= r ==> t == r.Floor
    ensures r < 0.0 ==> t == -((-r).Floor)
    ensures 0.0 <= r ==> 0 <= t && t as real <= r < t as real + 1.0
    ensures r < 0.0 ==> t <= 0 && t as real - 1.0 < r <= t as real
  {
    if r >= 0.0 then r.Floor else -((-r).Floor)
  }

  /**
   * C's fmod for a non-negative dividend and a positive divisor: the divisor
   * taken away until what is left is below it. FmodQuotient shows this is
   * the remainder whose quotient is truncated toward zero.
   */
  function Fmod(p: real, w: real): real
    requires 0.0 <= p && 0.0 < w
    decreases (p / w).Floor
  {
    if p < w then p
    else (QuotientShift(p, w); Fmod(p - w, w))
  }

  /** A product divided by one of its factors is the other. */
  lemma ProductQuotient(x: real, w: real, y: real)
    requires w != 0.0 && x == w * y
    ensures x / w == y
  {
  }

  /** Taking the divisor away lowers the quotient's floor by one. */
  lemma QuotientShift(p: real, w: real)
    requires 0.0 < w <= p
    ensures 1 <= (p / w).Floor
    ensures ((p - w) / w).Floor == (p / w).Floor - 1
  {
    var q := p / w;
    assert p == w * q;
    assert p - w == w * (q - 1.0);
    ProductQuotient(p - w, w, q - 1.0);
    DivMonotone(w, p, w);
    assert w / w == 1.0;
    FloorShift(q);
  }

  /** The floor of a real one lower is one lower. */
  lemma FloorShift(q: real)
    ensures (q - 1.0).Floor == q.Floor - 1
  {
    var f := q.Floor;
    assert f as real <= q < f as real + 1.0;
    assert (f - 1) as real <= q - 1.0 < (f - 1) as real + 1.0;
  }

  /** Division by a positive real preserves order. */
  lemma DivMonotone(a: real, b: real, c: real)
    requires c > 0.0 && a <= b
    ensures a / c <= b / c
  {
    assert b / c - a / c == (b - a) / c;
  }

  /** Division by a positive real preserves strict order. */
  lemma DivStrict(a: real, b: real, c: real)
    requires c > 0.0 && a < b
    ensures a / c < b / c
  {
    assert b / c - a / c == (b - a) / c;
  }

  /** A divisor times a lower bound of the quotient stays below the dividend. */
  lemma TimesBelow(p: real, w: real, f: real)
    requires w > 0.0 && f <= p / w
    ensures w * f <= p
  {
    var q := p / w;
    assert p == w * q;
    var gap := q - f;
    assert w * gap >= 0.0;
    assert w * gap == w * q - w * f;
    assert w * q - w * f >= 0.0;
  }

  /** A divisor times a strict upper bound of the quotient exceeds the dividend. */
  lemma TimesAbove(p: real, w: real, f: real)
    requires w > 0.0 && p / w < f + 1.0
    ensures p < w * f + w
  {
    var q := p / w;
    assert p == w * q;
    var gap := f + 1.0 - q;
    assert w * gap > 0.0;
    assert w * gap == w * f + w - w * q;
    assert w * f + w - w * q > 0.0;
    assert w * f + w - p > 0.0;
  }

  /** The floor of a real in [0, 1) is zero. */
  lemma FloorOfFraction(r: real)
    requires 0.0 <= r < 1.0
    ensures r.Floor == 0
  {
    var f := r.Floor;
    assert f as real <= r < f as real + 1.0;
  }

  /** fmod lies in [0, w). */
  lemma {:induction false} FmodRange(p: real, w: real)
    requires p >= 0.0 && w > 0.0
    ensures 0.0 <= Fmod(p, w) < w
    decreases (p / w).Floor
  {
    if p < w {
      assert Fmod(p, w) == p;
    } else {
      QuotientShift(p, w);
      FmodRange(p - w, w);
      assert Fmod(p, w) == Fmod(p - w, w);
    }
  }

  /** fmod is p - w * trunc(p / w), the definition of the C library. */
  lemma {:induction false} FmodQuotient(p: real, w: real)
    requires p >= 0.0 && w > 0.0
    ensures Fmod(p, w) == p - w * (Trunc(p / w) as real)
    decreases (p / w).Floor
  {
    DivMonotone(0.0, p, w);
    if p < w {
      DivStrict(p, w, w);
      assert w / w == 1.0;
      FloorOfFraction(p / w);
    } else {
      QuotientShift(p, w);
      FmodQuotient(p - w, w);
      DivMonotone(0.0, p - w, w);
      var t := (p / w).Floor as real;
      assert Fmod(p, w) == (p - w) - w * (t - 1.0);
      assert w * (t - 1.0) == w * t - w;
    }
  }
}
