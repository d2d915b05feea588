/** What contacts do, exactly (dashboard/public/mindmap.jsx): how much momentum one contact gives to
    each of its two bodies, and that a whole in-place contact loop gives every body the sum of what its
    partners push it with, whatever the order of the bodies. */
module Contacts {
  import opened Prelude
  import opened Bodies
  import opened SolverLaws

  function Place(b: BodyState, axis: Axis): real {
    if axis.X? then b.x else b.y
  }

  function Anchor(b: BodyState, axis: Axis): real {
    if axis.X? then b.anchorX else b.anchorY
  }

  function Length(sqrt: SqrtFn, dx: real, dy: real): real {
    sqrt(dx * dx + dy * dy)
  }

  /** How far apart two bodies stand. */
  function Gap(a: BodyState, b: BodyState, sqrt: SqrtFn): real {
    Length(sqrt, b.x - a.x, b.y - a.y)
  }

  /** How hard a contact at distance `d` pushes: in proportion to how far the two discs, or the ring of
      `a` and the disc of `b`, reach into each other with 6 to spare; a ring pushes half as hard again. */
  function Strength(rule: Rule, a: BodyState, b: BodyState, k: real, d: real): real {
    if rule.Pairwise? then
      if d < a.radius + b.radius + 6.0 then k * (a.radius + b.radius + 6.0 - d) else 0.0
    else if a.orbitRadius != 0.0 && d < a.orbitRadius + b.radius + 6.0 then
      1.5 * (k * (a.orbitRadius + b.radius + 6.0 - d))
    else 0.0
  }

  /** The part of a push along one axis, of which the distance spans `delta`. */
  function Part(push: real, delta: real, d: real): real
    requires d != 0.0
  {
    push * (delta / d)
  }

  /** What `other` gives to `target` at distance `d`, straight away from itself. A fixed body takes
      nothing, a held body gives nothing, and two bodies in one spot have no direction. */
  function Recoil(strength: real, other: BodyState, target: BodyState, d: real, axis: Axis): real {
    if target.Fixed() || other.isDragging || d == 0.0 then 0.0
    else Part(strength, Place(target, axis) - Place(other, axis), d)
  }

  // ----- one contact -----

  lemma RootOfSquare(sqrt: SqrtFn, d: real)
    requires IsSqrt(sqrt) && d >= 0.0
    ensures sqrt(d * d) == d
  {
    SquareNonneg(d);
    RootsGrow(sqrt(d * d), d);
    RootsGrow(d, sqrt(d * d));
  }

  lemma LengthIs(sqrt: SqrtFn, dx: real, dy: real, d: real)
    requires IsSqrt(sqrt) && d >= 0.0 && d * d == dx * dx + dy * dy
    ensures Length(sqrt, dx, dy) == d
  {
    RootOfSquare(sqrt, d);
  }

  lemma LengthMeans(sqrt: SqrtFn, dx: real, dy: real)
    requires IsSqrt(sqrt)
    ensures Length(sqrt, dx, dy) == Length(sqrt, -dx, -dy) >= 0.0
    ensures Length(sqrt, dx, dy) == 0.0 ==> dx == 0.0 && dy == 0.0
    ensures Dist(sqrt, dx, dy) == if Length(sqrt, dx, dy) == 0.0 then 1.0 else Length(sqrt, dx, dy)
  {
    SquareNonneg(dx);
    SquareNonneg(dy);
    SquareZero(dx);
    SquareZero(dy);
    assert (-dx) * (-dx) + (-dy) * (-dy) == dx * dx + dy * dy;
  }

  lemma GapMeans(a: BodyState, b: BodyState, sqrt: SqrtFn)
    requires IsSqrt(sqrt)
    ensures Gap(a, b, sqrt) == Gap(b, a, sqrt) >= 0.0
    ensures Gap(a, b, sqrt) == 0.0 ==> a.x == b.x && a.y == b.y
    ensures Dist(sqrt, b.x - a.x, b.y - a.y) == if Gap(a, b, sqrt) == 0.0 then 1.0 else Gap(a, b, sqrt)
  {
    hide Length, Dist, IsSqrt;
    LengthMeans(sqrt, b.x - a.x, b.y - a.y);
    assert -(b.x - a.x) == a.x - b.x && -(b.y - a.y) == a.y - b.y;
  }

  lemma KickGives(m: Mass, v: real, i: real)
    ensures m * (v + i / m) == m * v + i
    ensures m * (v - i / m) == m * v - i
  {
    QuotientTimes(i, m);
  }

  /** The momentum of two bodies after an impulse was shared between them. */
  lemma ShareGives(a: BodyState, b: BodyState, ix: real, iy: real, axis: Axis)
    ensures var m, i := Share(a, b, ix, iy), if axis.X? then ix else iy;
      && Momentum(m.0, axis) == Momentum(a, axis) - (if a.Fixed() || b.isDragging then 0.0 else i)
      && Momentum(m.1, axis) == Momentum(b, axis) + (if b.Fixed() || a.isDragging then 0.0 else i)
  {
    var i := if axis.X? then ix else iy;
    KickGives(a.mass, Speed(a, axis), i);
    KickGives(b.mass, Speed(b, axis), i);
  }

  lemma ForceIsStrength(rule: Rule, a: BodyState, b: BodyState, t: Tuning, d: real)
    requires (rule.Orbit? ==> a.orbitRadius != 0.0) && d < Reach(rule, a, b)
    ensures Force(rule, Reach(rule, a, b) - d, t) == Strength(rule, a, b, t.repulsionK, d)
  {
  }

  lemma NoStrength(rule: Rule, a: BodyState, b: BodyState, k: real, d: real)
    requires (rule.Orbit? && a.orbitRadius == 0.0) || d >= Reach(rule, a, b)
    ensures Strength(rule, a, b, k, d) == 0.0
  {
  }

  lemma NoRecoil(strength: real, other: BodyState, target: BodyState, d: real, axis: Axis)
    ensures strength == 0.0 || d == 0.0 ==> Recoil(strength, other, target, d, axis) == 0.0
  {
  }
  /** The impulse the model shares is the strength along the line between the bodies. */
  lemma MeetShares(rule: Rule, a: BodyState, b: BodyState, t: Tuning, sqrt: SqrtFn)
    requires IsSqrt(sqrt)
    ensures var dx, dy, d, m := b.x - a.x, b.y - a.y, Gap(a, b, sqrt), Meet(rule, a, b, t, sqrt);
      var strength := Strength(rule, a, b, t.repulsionK, d);
      && (d == 0.0 ==> dx == 0.0 && dy == 0.0 && m in [(a, b), Share(a, b, 0.0, 0.0)])
      && (d != 0.0 ==>
            || m == Share(a, b, Component(strength, dx, d), Component(strength, dy, d))
            || (strength == 0.0 && m == (a, b)))
  {
    var dx, dy, d := b.x - a.x, b.y - a.y, Gap(a, b, sqrt);
    GapMeans(a, b, sqrt);
    hide IsSqrt, Share, Strength, Force, Reach, Component, Gap, Dist;
    if Overlap(rule, a, b, sqrt) {
      if d == 0.0 {
        NoComponent(Force(rule, Reach(rule, a, b) - 1.0, t));
      } else {
        ForceIsStrength(rule, a, b, t, d);
      }
    } else if d != 0.0 {
      NoStrength(rule, a, b, t.repulsionK, d);
    }
  }

  lemma NoComponent(force: real)
    ensures Component(force, 0.0, 1.0) == 0.0
  {
  }

  /** One contact gives each body exactly what the other pushes it with. */
  lemma ContactGives(rule: Rule, a: BodyState, b: BodyState, t: Tuning, sqrt: SqrtFn, axis: Axis)
    requires IsSqrt(sqrt)
    ensures var m, d := Meet(rule, a, b, t, sqrt), Gap(a, b, sqrt);
      var strength := Strength(rule, a, b, t.repulsionK, d);
      && Momentum(m.0, axis) == Momentum(a, axis) + Recoil(strength, b, a, d, axis)
      && Momentum(m.1, axis) == Momentum(b, axis) + Recoil(strength, a, b, d, axis)
  {
    hide IsSqrt, Share, Strength, Meet, Gap, Overlap, Component, Recoil, Part;
    MeetShares(rule, a, b, t, sqrt);
    var dx, dy, d := b.x - a.x, b.y - a.y, Gap(a, b, sqrt);
    var strength := Strength(rule, a, b, t.repulsionK, d);
    NoRecoil(strength, a, b, d, axis);
    NoRecoil(strength, b, a, d, axis);
    ShareGives(a, b, 0.0, 0.0, axis);
    if d != 0.0 {
      ShareGives(a, b, Component(strength, dx, d), Component(strength, dy, d), axis);
      RecoilIsComponent(strength, a, b, d, axis);
    }
  }

  /** The same spelled out for two bodies at distance `d`: a contact below its reach pushes both away
      from each other along the line between them, unless they are fixed or the other one is held. */
  lemma ContactImpulse(rule: Rule, a: BodyState, b: BodyState, t: Tuning, sqrt: SqrtFn, dx: real, dy: real, d: real)
    requires IsSqrt(sqrt) && d > 0.0 && dx == b.x - a.x && dy == b.y - a.y && d * d == dx * dx + dy * dy
    ensures var m, push := Meet(rule, a, b, t, sqrt), Strength(rule, a, b, t.repulsionK, d);
      && m.0.SameButVelocity(a) && m.1.SameButVelocity(b)
      && Momentum(m.0, X) == Momentum(a, X) - (if a.Fixed() || b.isDragging then 0.0 else Part(push, dx, d))
      && Momentum(m.0, Y) == Momentum(a, Y) - (if a.Fixed() || b.isDragging then 0.0 else Part(push, dy, d))
      && Momentum(m.1, X) == Momentum(b, X) + (if b.Fixed() || a.isDragging then 0.0 else Part(push, dx, d))
      && Momentum(m.1, Y) == Momentum(b, Y) + (if b.Fixed() || a.isDragging then 0.0 else Part(push, dy, d))
  {
    LengthIs(sqrt, dx, dy, d);
    assert Gap(a, b, sqrt) == d;
    MeetKeepsShape(rule, a, b, t, sqrt);
    AxisImpulse(rule, a, b, t, sqrt, X, dx, d);
    AxisImpulse(rule, a, b, t, sqrt, Y, dy, d);
    hide *;
  }

  lemma AxisImpulse(
      rule: Rule, a: BodyState, b: BodyState, t: Tuning, sqrt: SqrtFn, axis: Axis, delta: real, d: real)
    requires IsSqrt(sqrt) && d != 0.0 && d == Gap(a, b, sqrt) && delta == Place(b, axis) - Place(a, axis)
    ensures var m, push := Meet(rule, a, b, t, sqrt), Strength(rule, a, b, t.repulsionK, d);
      && Momentum(m.0, axis) == Momentum(a, axis) - (if a.Fixed() || b.isDragging then 0.0 else Part(push, delta, d))
      && Momentum(m.1, axis) == Momentum(b, axis) + (if b.Fixed() || a.isDragging then 0.0 else Part(push, delta, d))
  {
    ContactGives(rule, a, b, t, sqrt, axis);
    RecoilIsComponent(Strength(rule, a, b, t.repulsionK, d), a, b, d, axis);
    hide IsSqrt, Meet, Gap, Recoil, Momentum, Strength, Place, Part, Component;
  }

  lemma RecoilIsComponent(strength: real, a: BodyState, b: BodyState, d: real, axis: Axis)
    requires d != 0.0
    ensures var delta := Place(b, axis) - Place(a, axis);
      && Component(strength, delta, d) == Part(strength, delta, d)
      && Recoil(strength, a, b, d, axis) == (if b.Fixed() || a.isDragging then 0.0 else Part(strength, delta, d))
      && Recoil(strength, b, a, d, axis) == (if a.Fixed() || b.isDragging then 0.0 else -Part(strength, delta, d))
  {
    var delta := Place(b, axis) - Place(a, axis);
    PartOpposite(strength, delta, d);
    assert Place(a, axis) - Place(b, axis) == -delta;
    assert Component(strength, delta, d) == Part(strength, delta, d);
    hide Part, Component, Place;
  }

  lemma PartOpposite(push: real, delta: real, d: real)
    requires d != 0.0
    ensures Part(push, -delta, d) == -Part(push, delta, d)
  {
    assert (-delta) / d == -(delta / d);
  }
}
