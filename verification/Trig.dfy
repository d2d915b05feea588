/** What the layout of the map needs of sine and cosine. They are parameters; `IsTrig` states the facts
    assumed of them, everything else is derived. */
module Trig {
  import opened Prelude

  type TrigFn = real -> real

  predicate OnCircle(s: real, c: real) {
    s * s + c * c == 1.0
  }

  predicate Pythagoras(sin: TrigFn, cos: TrigFn, a: real) {
    OnCircle(sin(a), cos(a))
  }

  predicate CosineOfSum(sin: TrigFn, cos: TrigFn, a: real, b: real) {
    cos(a + b) == cos(a) * cos(b) - sin(a) * sin(b)
  }

  predicate CosineOfDifference(sin: TrigFn, cos: TrigFn, a: real, b: real) {
    cos(a - b) == cos(a) * cos(b) + sin(a) * sin(b)
  }

  ghost predicate IsTrig(sin: TrigFn, cos: TrigFn, pi: real) {
    && pi > 0.0
    && sin(0.0) == 0.0
    && sin(pi / 2.0) == 1.0
    && (forall a :: Pythagoras(sin, cos, a))
    && (forall a, b :: CosineOfSum(sin, cos, a, b))
    && (forall a, b :: CosineOfDifference(sin, cos, a, b))
    && (forall a, b :: 0.0 <= a < b <= pi / 2.0 ==> sin(a) < sin(b))
  }

  lemma PiPositive(sin: TrigFn, cos: TrigFn, pi: real)
    requires IsTrig(sin, cos, pi)
    ensures pi > 0.0
  {
  }

  lemma SineOrder(a: real, b: real, sin: TrigFn, cos: TrigFn, pi: real)
    requires IsTrig(sin, cos, pi) && 0.0 < a <= b <= pi / 2.0
    ensures 0.0 < sin(a) <= sin(b)
  {
    assert sin(0.0) < sin(a);
    assert a < b ==> sin(a) < sin(b);
  }

  // ----- special angles -----

  lemma Instances(a: real, b: real, sin: TrigFn, cos: TrigFn, pi: real)
    requires IsTrig(sin, cos, pi)
    ensures sin(a) * sin(a) + cos(a) * cos(a) == 1.0
    ensures cos(a + b) == cos(a) * cos(b) - sin(a) * sin(b)
    ensures cos(a - b) == cos(a) * cos(b) + sin(a) * sin(b)
  {
    assert Pythagoras(sin, cos, a) && CosineOfSum(sin, cos, a, b) && CosineOfDifference(sin, cos, a, b);
  }

  /** The inner product of two unit vectors, and the cosine of the angle between them. */
  function Inner(c: real, s: real, d: real, t: real): real {
    c * d + s * t
  }

  lemma InnerIsCosine(a: real, b: real, sin: TrigFn, cos: TrigFn, pi: real)
    requires IsTrig(sin, cos, pi)
    ensures Inner(cos(a), sin(a), cos(b), sin(b)) == cos(a - b)
    ensures Inner(cos(a), sin(a), cos(a), sin(a)) == 1.0
  {
    Instances(a, b, sin, cos, pi);
  }

  lemma QuarterTurns(sin: TrigFn, cos: TrigFn, pi: real)
    requires IsTrig(sin, cos, pi)
    ensures sin(0.0) == 0.0 && cos(0.0) == 1.0
    ensures sin(pi / 2.0) == 1.0 && cos(pi / 2.0) == 0.0
    ensures sin(pi) == 0.0 && cos(pi) == -1.0
    ensures sin(2.0 * pi) == 0.0 && cos(2.0 * pi) == 1.0
  {
    Instances(0.0, 0.0, sin, cos, pi);
    Instances(pi / 2.0, pi / 2.0, sin, cos, pi);
    Instances(pi, pi, sin, cos, pi);
    Instances(2.0 * pi, 0.0, sin, cos, pi);
    hide IsTrig;
    SquareZero(cos(pi / 2.0));
    assert pi / 2.0 + pi / 2.0 == pi && pi + pi == 2.0 * pi;
    SquareZero(sin(pi));
    SquareZero(sin(2.0 * pi));
  }

  /** The cosine is even and repeats, mirrored, after half a turn. */
  lemma Mirror(a: real, sin: TrigFn, cos: TrigFn, pi: real)
    requires IsTrig(sin, cos, pi)
    ensures cos(-a) == cos(a)
    ensures cos(2.0 * pi - a) == cos(a)
    ensures cos(pi - a) == -cos(a)
    ensures cos(pi / 2.0 - a) == sin(a)
  {
    QuarterTurns(sin, cos, pi);
    Instances(0.0, a, sin, cos, pi);
    Instances(2.0 * pi, a, sin, cos, pi);
    Instances(pi, a, sin, cos, pi);
    Instances(pi / 2.0, a, sin, cos, pi);
    hide IsTrig;
    assert 0.0 - a == -a;
  }

  /** The cosine by the sine of the half angle. */
  lemma ByHalf(a: real, sin: TrigFn, cos: TrigFn, pi: real)
    requires IsTrig(sin, cos, pi)
    ensures cos(a) == 1.0 - 2.0 * (sin(a / 2.0) * sin(a / 2.0))
  {
    Instances(a / 2.0, a / 2.0, sin, cos, pi);
    hide IsTrig;
    assert a / 2.0 + a / 2.0 == a;
  }

  lemma HalfSines(a: real, b: real, sin: TrigFn, cos: TrigFn, pi: real)
    requires IsTrig(sin, cos, pi) && 0.0 <= a <= b <= pi
    ensures 0.0 <= sin(a / 2.0) <= sin(b / 2.0)
  {
    hide IsTrig;
    QuarterTurns(sin, cos, pi);
    if a > 0.0 {
      SineOrder(a / 2.0, b / 2.0, sin, cos, pi);
    } else if b > 0.0 {
      SineOrder(b / 2.0, b / 2.0, sin, cos, pi);
    }
  }

  /** The cosine falls over the first half turn. */
  lemma CosineOrder(a: real, b: real, sin: TrigFn, cos: TrigFn, pi: real)
    requires IsTrig(sin, cos, pi) && 0.0 <= a <= b <= pi
    ensures cos(b) <= cos(a)
  {
    hide IsTrig;
    ByHalf(a, sin, cos, pi);
    ByHalf(b, sin, cos, pi);
    HalfSines(a, b, sin, cos, pi);
    SquaresGrow(sin(a / 2.0), sin(b / 2.0));
  }

  /** Between `h` and a full turn less `h` the cosine is nowhere larger than at `h`. */
  lemma CosineBeyond(h: real, a: real, sin: TrigFn, cos: TrigFn, pi: real)
    requires IsTrig(sin, cos, pi) && 0.0 <= h <= a <= 2.0 * pi - h
    ensures cos(a) <= cos(h)
  {
    PiPositive(sin, cos, pi);
    if a <= pi {
      CosineOrder(h, a, sin, cos, pi);
    } else {
      Mirror(a, sin, cos, pi);
      CosineOrder(h, 2.0 * pi - a, sin, cos, pi);
    }
  }

  lemma CosineNonneg(a: real, sin: TrigFn, cos: TrigFn, pi: real)
    requires IsTrig(sin, cos, pi) && -(pi / 2.0) <= a <= pi / 2.0
    ensures cos(a) >= 0.0
  {
    QuarterTurns(sin, cos, pi);
    PiPositive(sin, cos, pi);
    Mirror(a, sin, cos, pi);
    if a >= 0.0 {
      CosineOrder(a, pi / 2.0, sin, cos, pi);
    } else {
      CosineOrder(-a, pi / 2.0, sin, cos, pi);
    }
  }

  lemma Third(sin: TrigFn, cos: TrigFn, pi: real)
    requires IsTrig(sin, cos, pi)
    ensures cos(pi / 3.0) == 0.5
  {
    PiPositive(sin, cos, pi);
    Mirror(pi / 3.0, sin, cos, pi);
    Instances(pi / 3.0, pi / 3.0, sin, cos, pi);
    CosineNonneg(pi / 3.0, sin, cos, pi);
    hide IsTrig;
    assert pi / 3.0 + pi / 3.0 == pi - pi / 3.0;
    ThirdValue(cos(pi / 3.0), sin(pi / 3.0));
  }

  lemma ThirdValue(c: real, s: real)
    requires s * s + c * c == 1.0 && -c == c * c - s * s && c >= 0.0
    ensures c == 0.5
  {
    ThirdFactors(c);
    ZeroFactor(c + 1.0, 2.0 * c - 1.0);
  }

  lemma ZeroFactor(a: real, b: real)
    requires a > 0.0 && a * b == 0.0
    ensures b == 0.0
  {
    MulOrder(a, b, 0.0);
    MulOrder(a, 0.0, b);
  }

  lemma ThirdFactors(c: real)
    ensures (c + 1.0) * (2.0 * c - 1.0) == 2.0 * (c * c) + c - 1.0
  {
  }

  lemma Sixth(sin: TrigFn, cos: TrigFn, pi: real)
    requires IsTrig(sin, cos, pi)
    ensures sin(pi / 6.0) == 0.5
    ensures 0.866 <= cos(pi / 6.0) <= 0.8661 && sin(pi / 3.0) == cos(pi / 6.0)
  {
    PiPositive(sin, cos, pi);
    Third(sin, cos, pi);
    ByHalf(pi / 3.0, sin, cos, pi);
    Mirror(pi / 3.0, sin, cos, pi);
    CosineNonneg(pi / 6.0, sin, cos, pi);
    SineOrder(pi / 6.0, pi / 6.0, sin, cos, pi);
    Instances(pi / 6.0, 0.0, sin, cos, pi);
    hide IsTrig;
    assert pi / 3.0 / 2.0 == pi / 6.0 && pi / 2.0 - pi / 3.0 == pi / 6.0;
    HalfValue(sin(pi / 6.0));
    SixthValue(cos(pi / 6.0), sin(pi / 6.0));
  }

  lemma Twelfth(sin: TrigFn, cos: TrigFn, pi: real)
    requires IsTrig(sin, cos, pi)
    ensures sin(pi / 12.0) >= 0.2587 && cos(pi / 12.0) <= 0.966
  {
    PiPositive(sin, cos, pi);
    Sixth(sin, cos, pi);
    ByHalf(pi / 6.0, sin, cos, pi);
    CosineNonneg(pi / 12.0, sin, cos, pi);
    SineOrder(pi / 12.0, pi / 12.0, sin, cos, pi);
    Instances(pi / 12.0, 0.0, sin, cos, pi);
    hide IsTrig;
    assert pi / 6.0 / 2.0 == pi / 12.0;
    TwelfthValue(cos(pi / 6.0), cos(pi / 12.0), sin(pi / 12.0));
  }

  lemma HalfValue(s: real)
    requires s >= 0.0 && 0.5 == 1.0 - 2.0 * (s * s)
    ensures s == 0.5
  {
    RootsGrow(s, 0.5);
    RootsGrow(0.5, s);
  }

  lemma SixthValue(c: real, s: real)
    requires s == 0.5 && s * s + c * c == 1.0 && c >= 0.0
    ensures 0.866 <= c <= 0.8661
  {
    RootsGrow(0.866, c);
    RootsGrow(c, 0.8661);
  }

  lemma TwelfthValue(c6: real, c: real, s: real)
    requires 0.866 <= c6 <= 0.8661 && c6 == 1.0 - 2.0 * (s * s) && s * s + c * c == 1.0 && s >= 0.0 && c >= 0.0
    ensures s >= 0.2587 && c <= 0.966
  {
    RootsGrow(0.2587, s);
    RootsGrow(c, 0.966);
  }
}
