/** The arc of protocol chips around a selected chain (dashboard/public/mindmap.jsx,
    `bloomRadiusForCount` and the placement of the chips). */
module Bloom {
  import opened Prelude
  import opened Trig

  function Spread(pi: real): real {
    pi * 0.92
  }

  /** The angle between neighbouring chips. */
  function Step(count: nat, pi: real): real {
    if count <= 1 then 0.0 else Spread(pi) / (count - 1) as real
  }

  function BloomRadius(count: nat, chipR: real, minR: real, padding: real, sin: TrigFn, pi: real): real
    requires count >= 2 ==> sin(Step(count, pi) / 2.0) != 0.0
  {
    if count <= 1 then minR
    else
      var requiredChord := 2.0 * chipR + padding;
      Max(minR, requiredChord / (2.0 * sin(Step(count, pi) / 2.0)))
  }

  function ChipAngle(base: real, count: nat, i: nat, pi: real): real {
    if count <= 1 then base else base - Spread(pi) / 2.0 + i as real * Step(count, pi)
  }

  function Offset(r: real, share: real): real {
    share * r
  }

  function Chip(centre: Point, r: real, angle: real, sin: TrigFn, cos: TrigFn): Point {
    Point(centre.x + Offset(r, cos(angle)), centre.y + Offset(r, sin(angle)))
  }

  function Square(a: real): real {
    a * a
  }

  function DistanceSquared(p: Point, q: Point): real {
    Square(p.x - q.x) + Square(p.y - q.y)
  }

  function HalfSine(sin: TrigFn, a: real, b: real): real {
    sin((b - a) / 2.0)
  }

  /** The chord cut by an arc whose half angle has sine `s`. */
  function Chord(r: real, s: real): real {
    2.0 * r * s
  }

  /** The chord between two angles, from the addition formulas. */
  lemma ChordLaw(a: real, b: real, sin: TrigFn, cos: TrigFn, pi: real)
    requires IsTrig(sin, cos, pi)
    ensures Square(cos(a) - cos(b)) + Square(sin(a) - sin(b)) == 4.0 * Square(HalfSine(sin, a, b))
  {
    hide OnCircle, CosineOfDifference, CosineOfSum, SameCosine, Square;
    var h := (b - a) / 2.0;
    assert CosineOfDifference(sin, cos, b, a) && CosineOfSum(sin, cos, h, h);
    assert Pythagoras(sin, cos, a) && Pythagoras(sin, cos, b) && Pythagoras(sin, cos, h);
    SameAngle(a, b, h, sin, cos);
    ChordIdentity(cos(a), cos(b), sin(a), sin(b), cos(h), sin(h));
  }

  /** cos(b - a), once by the difference formula and once as the cosine of twice the half angle. */
  predicate SameCosine(ca: real, cb: real, sa: real, sb: real, ch: real, sh: real) {
    cb * ca + sb * sa == ch * ch - sh * sh
  }

  lemma SameAngle(a: real, b: real, h: real, sin: TrigFn, cos: TrigFn)
    requires h == (b - a) / 2.0
    requires CosineOfDifference(sin, cos, b, a) && CosineOfSum(sin, cos, h, h)
    ensures SameCosine(cos(a), cos(b), sin(a), sin(b), cos(h), sin(h))
    ensures HalfSine(sin, a, b) == sin(h)
  {
    assert h + h == b - a;
  }

  lemma ChordIdentity(ca: real, cb: real, sa: real, sb: real, ch: real, sh: real)
    requires OnCircle(sa, ca) && OnCircle(sb, cb) && OnCircle(sh, ch)
    requires SameCosine(ca, cb, sa, sb, ch, sh)
    ensures Square(ca - cb) + Square(sa - sb) == 4.0 * Square(sh)
  {
    assert Square(ca - cb) == ca * ca - 2.0 * (cb * ca) + cb * cb;
    assert Square(sa - sb) == sa * sa - 2.0 * (sb * sa) + sb * sb;
  }

  lemma ChipDistance(centre: Point, r: real, a: real, b: real, sin: TrigFn, cos: TrigFn, pi: real)
    requires IsTrig(sin, cos, pi)
    ensures DistanceSquared(Chip(centre, r, a, sin, cos), Chip(centre, r, b, sin, cos))
         == Square(Chord(r, HalfSine(sin, a, b)))
  {
    hide IsTrig, Square, HalfSine, Chord, Offset;
    ChordLaw(a, b, sin, cos, pi);
    var p, q := Chip(centre, r, a, sin, cos), Chip(centre, r, b, sin, cos);
    ScaledDistance(r, cos(a), cos(b), sin(a), sin(b), HalfSine(sin, a, b), p.x - q.x, p.y - q.y);
  }

  lemma ScaledDistance(r: real, ca: real, cb: real, sa: real, sb: real, s: real, px: real, py: real)
    requires px == Offset(r, ca) - Offset(r, cb) && py == Offset(r, sa) - Offset(r, sb)
    requires Square(ca - cb) + Square(sa - sb) == 4.0 * Square(s)
    ensures Square(px) + Square(py) == Square(Chord(r, s))
  {
    var dx, dy := ca - cb, sa - sb;
    ScaleSquare(dx, r);
    ScaleSquare(dy, r);
    ScaleSquare(2.0 * s, r);
    OffsetsDiffer(r, ca, cb);
    OffsetsDiffer(r, sa, sb);
    assert Square(2.0 * s) == 4.0 * Square(s);
    assert Chord(r, s) == 2.0 * s * r;
    hide Chord;
    var rr, xx, yy := Square(r), Square(dx), Square(dy);
    hide Square;
    assert rr * xx + rr * yy == rr * (xx + yy);
  }

  lemma OffsetsDiffer(r: real, a: real, b: real)
    ensures Offset(r, a) - Offset(r, b) == (a - b) * r
  {
  }

  lemma ScaleSquare(a: real, r: real)
    ensures Square(a * r) == Square(r) * Square(a)
  {
  }

  /** Half the angle between chips i and j is on the increasing stretch of the sine. */
  lemma HalfAngle(base: real, count: nat, i: nat, j: nat, pi: real)
    requires pi > 0.0 && count >= 2 && i < j < count
    ensures var half := (ChipAngle(base, count, j, pi) - ChipAngle(base, count, i, pi)) / 2.0;
      0.0 < Step(count, pi) / 2.0 <= half <= pi / 2.0
  {
    var step, n := Step(count, pi), (count - 1) as real;
    StepTimesGaps(Spread(pi), n);
    var m := (j - i) as real;
    Distribute(i as real, j as real, step);
    assert j as real - i as real == m;
    ProductBetween(m, n, step);
  }

  lemma StepTimesGaps(spread: real, n: real)
    requires spread > 0.0 && n >= 1.0
    ensures spread / n > 0.0 && n * (spread / n) == spread
  {
  }

  lemma Distribute(i: real, j: real, step: real)
    ensures j * step - i * step == (j - i) * step
  {
  }

  lemma ProductBetween(m: real, n: real, step: real)
    requires step > 0.0 && 1.0 <= m <= n
    ensures step <= m * step <= n * step
  {
    assert (m - 1.0) * step >= 0.0;
    assert (n - m) * step >= 0.0;
  }

  lemma RadiusReaches(chord: real, s0: real, s: real, r: real)
    requires chord >= 0.0 && 0.0 < s0 <= s && r >= chord / (2.0 * s0)
    ensures Chord(r, s) >= chord
  {
    var q := chord / (2.0 * s0);
    QuotientTimes(chord, 2.0 * s0);
    QuotientNonneg(chord, 2.0 * s0);
    MulMonotone(2.0 * s0, q, r);
    MulMonotone(2.0 * r, s0, s);
    assert 2.0 * s0 * r == 2.0 * r * s0;
  }

  lemma SquareMonotone(a: real, b: real)
    requires 0.0 <= a <= b
    ensures Square(a) <= Square(b)
  {
    SquaresGrow(a, b);
  }

  /** Any two chips of an arc, not only neighbours, are at least two chip radii plus the padding
      apart, for every number of chips. */
  lemma ChipsApart(
      centre: Point, base: real, count: nat, i: nat, j: nat, chipR: real, minR: real, padding: real,
      sin: TrigFn, cos: TrigFn, pi: real)
    requires IsTrig(sin, cos, pi) && count >= 2 && i < j < count && 2.0 * chipR + padding >= 0.0
    ensures sin(Step(count, pi) / 2.0) > 0.0
    ensures var r := BloomRadius(count, chipR, minR, padding, sin, pi);
      var p := Chip(centre, r, ChipAngle(base, count, i, pi), sin, cos);
      var q := Chip(centre, r, ChipAngle(base, count, j, pi), sin, cos);
      DistanceSquared(p, q) >= Square(2.0 * chipR + padding)
  {
    hide IsTrig, Square, DistanceSquared, Chip, ChipAngle, Step, Chord;
    var a, b := ChipAngle(base, count, i, pi), ChipAngle(base, count, j, pi);
    assert pi > 0.0 by { PiPositive(sin, cos, pi); }
    HalfAngle(base, count, i, j, pi);
    SineOrder(Step(count, pi) / 2.0, (b - a) / 2.0, sin, cos, pi);
    var r := BloomRadius(count, chipR, minR, padding, sin, pi);
    ChipDistance(centre, r, a, b, sin, cos, pi);
    RadiusReaches(2.0 * chipR + padding, sin(Step(count, pi) / 2.0), HalfSine(sin, a, b), r);
    SquareMonotone(2.0 * chipR + padding, Chord(r, HalfSine(sin, a, b)));
  }

  /** At radius `r` every chip stands on the circle around its chain. */
  lemma ChipOnCircle(centre: Point, r: real, angle: real, sin: TrigFn, cos: TrigFn, pi: real)
    requires IsTrig(sin, cos, pi)
    ensures DistanceSquared(Chip(centre, r, angle, sin, cos), centre) == Square(r)
  {
    assert Pythagoras(sin, cos, angle);
    hide IsTrig, Square, OnCircle, Offset;
    OnRadius(centre.x, centre.y, r, sin(angle), cos(angle));
  }

  lemma OnRadius(x: real, y: real, r: real, s: real, c: real)
    requires OnCircle(s, c)
    ensures Square((x + Offset(r, c)) - x) + Square((y + Offset(r, s)) - y) == Square(r)
  {
    ScaleSquare(c, r);
    ScaleSquare(s, r);
    hide OnCircle, Square;
    UnitScaled(Square(r), s, c);
    assert Offset(r, c) == c * r && Offset(r, s) == s * r;
    hide Offset;
    assert (x + Offset(r, c)) - x == Offset(r, c) && (y + Offset(r, s)) - y == Offset(r, s);
  }

  lemma UnitScaled(k: real, s: real, c: real)
    requires OnCircle(s, c)
    ensures k * Square(c) + k * Square(s) == k
  {
    assert k * (s * s) + k * (c * c) == k * (s * s + c * c);
  }

  /** A chip of an arc is never closer to its chain than the minimum radius, and stands exactly on
      it when the arc needs no more. */
  lemma ChipKeepsMinimum(
      centre: Point, base: real, count: nat, i: nat, chipR: real, minR: real, padding: real,
      sin: TrigFn, cos: TrigFn, pi: real)
    requires IsTrig(sin, cos, pi) && i < count && minR >= 0.0
    ensures count >= 2 ==> sin(Step(count, pi) / 2.0) > 0.0
    ensures var r := BloomRadius(count, chipR, minR, padding, sin, pi);
      var chip := Chip(centre, r, ChipAngle(base, count, i, pi), sin, cos);
      && DistanceSquared(chip, centre) == Square(r) >= Square(minR)
      && (r == minR <==> count == 1 || 2.0 * chipR + padding <= 2.0 * sin(Step(count, pi) / 2.0) * minR)
  {
    hide IsTrig, Square, DistanceSquared, Chip, ChipAngle, Step;
    PiPositive(sin, cos, pi);
    if count >= 2 {
      HalfAngle(base, count, 0, 1, pi);
      SineOrder(Step(count, pi) / 2.0, Step(count, pi) / 2.0, sin, cos, pi);
      QuotientBelow(2.0 * chipR + padding, 2.0 * sin(Step(count, pi) / 2.0), minR);
    }
    var r := BloomRadius(count, chipR, minR, padding, sin, pi);
    SquareMonotone(minR, r);
    ChipOnCircle(centre, r, ChipAngle(base, count, i, pi), sin, cos, pi);
  }

  lemma QuotientBelow(a: real, w: real, b: real)
    requires w > 0.0
    ensures a / w <= b <==> a <= w * b
  {
    QuotientTimes(a, w);
    MulOrder(w, a / w, b);
  }

  /** A single chip stands straight out from its chain. Several spread evenly from 0.46 of a half turn on
      one side to as much on the other. */
  lemma ArcByAngles(base: real, count: nat, i: nat, pi: real)
    ensures count <= 1 ==> ChipAngle(base, count, i, pi) == base
    ensures count >= 2 ==>
      && ChipAngle(base, count, 0, pi) == base - 0.46 * pi
      && ChipAngle(base, count, count - 1, pi) == base + 0.46 * pi
      && ChipAngle(base, count, i + 1, pi) - ChipAngle(base, count, i, pi) == 0.92 * pi / (count - 1) as real
  {
    if count >= 2 {
      var n := (count - 1) as real;
      QuotientTimes(Spread(pi), n);
      Distribute(i as real, (i + 1) as real, Step(count, pi));
      assert n * Step(count, pi) == Spread(pi);
    }
  }

  /** The radius is the least one, from the minimum on, at which neighbouring chips keep two chip radii
      plus the padding. */
  lemma RadiusIsLeast(
      count: nat, chipR: real, minR: real, padding: real, sin: TrigFn, cos: TrigFn, pi: real, r: real)
    requires IsTrig(sin, cos, pi) && r >= minR
    ensures count >= 2 ==> sin(Step(count, pi) / 2.0) > 0.0
    ensures r >= BloomRadius(count, chipR, minR, padding, sin, pi)
       <==> count <= 1 || Chord(r, sin(Step(count, pi) / 2.0)) >= 2.0 * chipR + padding
  {
    if count >= 2 {
      PiPositive(sin, cos, pi);
      HalfAngle(0.0, count, 0, 1, pi);
      hide IsTrig, Step, ChipAngle;
      SineOrder(Step(count, pi) / 2.0, Step(count, pi) / 2.0, sin, cos, pi);
      hide Chord;
      ChordReaches(2.0 * chipR + padding, sin(Step(count, pi) / 2.0), r);
    }
  }

  lemma ChordReaches(chord: real, s: real, r: real)
    requires s > 0.0
    ensures r >= chord / (2.0 * s) <==> Chord(r, s) >= chord
  {
    QuotientBelow(chord, 2.0 * s, r);
    assert Chord(r, s) == 2.0 * s * r;
  }
}
