/** The protocol chips of a selected chain as bodies of the solver (dashboard/public/mindmap.jsx): which
    of them touch where the arc puts them, and when the whole arc stays still. */
module BloomBodies {
  import opened Prelude
  import opened Trig
  import opened Bodies
  import opened SolverLaws
  import opened Bloom

  const CHIP_RADIUS := 33.6
  const BLOOM_MIN_RADIUS := 112.0
  const BLOOM_PADDING := 22.0

  /** How far a loop's orbit ring reaches towards the centre of another chip. */
  const RING_REACH := CHIP_RADIUS * 1.8 + 6.0 + (CHIP_RADIUS + 4.0) + PAD

  datatype Arc = Arc(centre: Point, base: real, count: nat, sin: TrigFn, cos: TrigFn, pi: real) {
    ghost predicate Valid() {
      IsTrig(sin, cos, pi)
    }

    /** Half the angle between neighbours. */
    function HalfStep(): real {
      Step(count, pi) / 2.0
    }

    lemma HalfStepPositive()
      requires Valid() && count >= 2
      ensures sin(HalfStep()) > 0.0
    {
      PiPositive(sin, cos, pi);
      HalfAngle(base, count, 0, 1, pi);
      hide Step, IsTrig;
      SineOrder(HalfStep(), HalfStep(), sin, cos, pi);
    }

    ghost function Radius(): real
      requires Valid()
    {
      assert count >= 2 ==> sin(HalfStep()) != 0.0 by { if count >= 2 { HalfStepPositive(); } }
      BloomRadius(count, CHIP_RADIUS, BLOOM_MIN_RADIUS, BLOOM_PADDING, sin, pi)
    }

    ghost function Place(i: nat): Point
      requires Valid()
    {
      Chip(centre, Radius(), ChipAngle(base, count, i, pi), sin, cos)
    }

    /** The straight distance between chips i < j. */
    ghost function Gap(i: nat, j: nat): real
      requires Valid()
    {
      Chord(Radius(), HalfSine(sin, ChipAngle(base, count, i, pi), ChipAngle(base, count, j, pi)))
    }
  }

  /** The radius of an arc in numbers. */
  lemma RadiusByNumbers(arc: Arc)
    requires arc.Valid()
    ensures arc.count >= 2 ==> arc.sin(Step(arc.count, arc.pi) / 2.0) > 0.0
    ensures arc.Radius() == BloomRadius(arc.count, 33.6, 112.0, 22.0, arc.sin, arc.pi)
  {
    if arc.count >= 2 {
      arc.HalfStepPositive();
    }
    hide IsTrig;
  }

  /** The body of a chip at its anchor; a loop has an orbit ring. */
  function ChipBody(p: Point, loop: bool): BodyState {
    BodyState(p.x, p.y, 0.0, 0.0, p.x, p.y, CHIP_RADIUS + 4.0, 1.0, false, None,
              if loop then CHIP_RADIUS * 1.8 + 6.0 else 0.0)
  }

  ghost function ArcBodies(arc: Arc, loops: seq<bool>): (r: seq<BodyState>)
    requires arc.Valid() && |loops| == arc.count
    ensures |r| == arc.count
  {
    seq(arc.count, i requires 0 <= i < arc.count => ChipBody(arc.Place(i), loops[i]))
  }

  lemma GapBound(arc: Arc, i: nat, j: nat)
    requires arc.Valid() && i < j < arc.count
    ensures arc.Gap(i, j) >= 2.0 * CHIP_RADIUS + BLOOM_PADDING
    ensures DistanceSquared(arc.Place(i), arc.Place(j)) == Square(arc.Gap(i, j))
  {
    arc.HalfStepPositive();
    PiPositive(arc.sin, arc.cos, arc.pi);
    HalfAngle(arc.base, arc.count, i, j, arc.pi);
    hide IsTrig, Square, DistanceSquared, Chip, ChipAngle, Step, Chord;
    var a, b := ChipAngle(arc.base, arc.count, i, arc.pi), ChipAngle(arc.base, arc.count, j, arc.pi);
    SineOrder(arc.HalfStep(), (b - a) / 2.0, arc.sin, arc.cos, arc.pi);
    ChipDistance(arc.centre, arc.Radius(), a, b, arc.sin, arc.cos, arc.pi);
    RadiusReaches(2.0 * CHIP_RADIUS + BLOOM_PADDING, arc.sin(arc.HalfStep()), HalfSine(arc.sin, a, b), arc.Radius());
  }

  lemma DistIs(sqrt: SqrtFn, dx: real, dy: real, d: real)
    requires IsSqrt(sqrt) && d > 0.0 && dx * dx + dy * dy == d * d
    ensures Dist(sqrt, dx, dy) == d
  {
    SquareNonneg(d);
    var root := sqrt(d * d);
    RootsGrow(root, d);
    RootsGrow(d, root);
  }

  /** Two bodies whose distance is known overlap exactly when a rule applies and reaches that far. */
  lemma OverlapAt(rule: Rule, a: BodyState, b: BodyState, sqrt: SqrtFn, d: real)
    requires IsSqrt(sqrt) && d > 0.0
    requires (b.x - a.x) * (b.x - a.x) + (b.y - a.y) * (b.y - a.y) == d * d
    ensures Overlap(rule, a, b, sqrt) <==> (rule.Orbit? ==> a.orbitRadius != 0.0) && d < Reach(rule, a, b)
    ensures Pushes(rule, a, b, sqrt) == Overlap(rule, a, b, sqrt)
  {
    hide IsSqrt, Dist;
    DistIs(sqrt, b.x - a.x, b.y - a.y, d);
    SomewhereElse(b.x - a.x, b.y - a.y, d);
  }

  lemma SomewhereElse(dx: real, dy: real, d: real)
    requires d > 0.0 && dx * dx + dy * dy == d * d
    ensures dx != 0.0 || dy != 0.0
  {
    if dx == 0.0 && dy == 0.0 {
      SquareZero(d);
    }
  }

  lemma ChipsAtDistance(p: Point, q: Point, d: real, first: bool, second: bool, rule: Rule, sqrt: SqrtFn)
    requires IsSqrt(sqrt) && d >= 2.0 * CHIP_RADIUS + BLOOM_PADDING && DistanceSquared(p, q) == Square(d)
    ensures var a, b := ChipBody(p, first), ChipBody(q, second);
      && (Overlap(rule, a, b, sqrt) == Pushes(rule, a, b, sqrt) == (rule.Orbit? && first && d < RING_REACH))
      && (Overlap(rule, b, a, sqrt) == Pushes(rule, b, a, sqrt) == (rule.Orbit? && second && d < RING_REACH))
  {
    hide IsSqrt, Overlap, Pushes;
    SquareFlips(p.x, q.x);
    SquareFlips(p.y, q.y);
    OverlapAt(rule, ChipBody(p, first), ChipBody(q, second), sqrt, d);
    OverlapAt(rule, ChipBody(q, second), ChipBody(p, first), sqrt, d);
  }

  /** Bodies of two chips of one arc never touch; a loop's ring reaches another chip exactly when
      their distance is below `RING_REACH`. */
  lemma ChipsTouchExactly(arc: Arc, i: nat, j: nat, first: bool, second: bool, rule: Rule, sqrt: SqrtFn)
    requires arc.Valid() && IsSqrt(sqrt) && i < j < arc.count
    ensures var a, b := ChipBody(arc.Place(i), first), ChipBody(arc.Place(j), second);
      && (Overlap(rule, a, b, sqrt) == Pushes(rule, a, b, sqrt)
          == (rule.Orbit? && first && arc.Gap(i, j) < RING_REACH))
      && (Overlap(rule, b, a, sqrt) == Pushes(rule, b, a, sqrt)
          == (rule.Orbit? && second && arc.Gap(i, j) < RING_REACH))
  {
    GapBound(arc, i, j);
    hide *;
    ChipsAtDistance(arc.Place(i), arc.Place(j), arc.Gap(i, j), first, second, rule, sqrt);
  }

  lemma SquareFlips(a: real, b: real)
    ensures (a - b) * (a - b) == (b - a) * (b - a)
  {
  }

  /** No loop's ring reaches another chip. */
  ghost predicate RingsClear(arc: Arc, loops: seq<bool>)
    requires arc.Valid() && |loops| == arc.count
  {
    forall i: nat, j: nat :: i < j < arc.count && (loops[i] || loops[j]) ==> arc.Gap(i, j) >= RING_REACH
  }

  /** Among themselves the chips do not push exactly when the rings are clear. */
  lemma ArcSpacedExactly(arc: Arc, loops: seq<bool>, sqrt: SqrtFn)
    requires arc.Valid() && IsSqrt(sqrt) && |loops| == arc.count
    ensures Spaced(ArcBodies(arc, loops), sqrt) <==> RingsClear(arc, loops)
  {
    hide IsSqrt, IsTrig, Pushes, Overlap;
    var bs := ArcBodies(arc, loops);
    forall rule: Rule, i: nat, j: nat | i < j < arc.count
      ensures Pushes(rule, bs[i], bs[j], sqrt) <==> rule.Orbit? && loops[i] && arc.Gap(i, j) < RING_REACH
      ensures Pushes(rule, bs[j], bs[i], sqrt) <==> rule.Orbit? && loops[j] && arc.Gap(i, j) < RING_REACH
    {
      ChipsTouchExactly(arc, i, j, loops[i], loops[j], rule, sqrt);
    }
    if Spaced(bs, sqrt) {
      forall i: nat, j: nat | i < j < arc.count && (loops[i] || loops[j])
        ensures arc.Gap(i, j) >= RING_REACH
      {
        assert Visits(Orbit, i, j) && Visits(Orbit, j, i);
      }
    }
  }

  // ----- when the rings are clear -----

  /** The chord between neighbours at the minimum radius. */
  function LeastChord(arc: Arc): real {
    2.0 * BLOOM_MIN_RADIUS * arc.sin(arc.HalfStep())
  }

  lemma GapAtLeast(arc: Arc, i: nat, j: nat)
    requires arc.Valid() && i < j < arc.count
    ensures arc.Gap(i, j) >= LeastChord(arc)
  {
    arc.HalfStepPositive();
    PiPositive(arc.sin, arc.cos, arc.pi);
    HalfAngle(arc.base, arc.count, i, j, arc.pi);
    hide IsTrig, ChipAngle, Step;
    var a, b := ChipAngle(arc.base, arc.count, i, arc.pi), ChipAngle(arc.base, arc.count, j, arc.pi);
    var s0, s, r := arc.sin(arc.HalfStep()), HalfSine(arc.sin, a, b), arc.Radius();
    SineOrder(arc.HalfStep(), (b - a) / 2.0, arc.sin, arc.cos, arc.pi);
    LongerChord(BLOOM_MIN_RADIUS, r, s0, s);
  }

  lemma LongerChord(r0: real, r: real, s0: real, s: real)
    requires 0.0 <= r0 <= r && 0.0 <= s0 <= s
    ensures Chord(r0, s0) <= Chord(r, s)
  {
    MulMonotone(2.0 * r0, s0, s);
    MulMonotone(2.0 * s, r0, r);
  }

  lemma NeighbourGap(arc: Arc, i: nat)
    requires arc.Valid() && i + 1 < arc.count
    ensures arc.Gap(i, i + 1) == Chord(arc.Radius(), arc.sin(arc.HalfStep()))
    ensures arc.Radius() == BLOOM_MIN_RADIUS ==> arc.Gap(i, i + 1) == LeastChord(arc)
    ensures arc.Radius() > BLOOM_MIN_RADIUS ==> arc.Gap(i, i + 1) == 2.0 * CHIP_RADIUS + BLOOM_PADDING
  {
    arc.HalfStepPositive();
    NeighbourAngle(arc.base, arc.count, i, arc.pi);
    hide IsTrig, ChipAngle, Step;
    ChordAtRequired(2.0 * CHIP_RADIUS + BLOOM_PADDING, arc.sin(arc.HalfStep()));
  }

  lemma ChordAtRequired(chord: real, s: real)
    requires s > 0.0
    ensures Chord(chord / (2.0 * s), s) == chord
  {
    var q := chord / (2.0 * s);
    QuotientTimes(chord, 2.0 * s);
    assert 2.0 * q * s == 2.0 * s * q;
  }

  /** Neighbours are out of reach of a ring exactly when their chord at the minimum radius is. */
  lemma NeighbourReachable(arc: Arc, i: nat)
    requires arc.Valid() && i + 1 < arc.count
    ensures arc.Gap(i, i + 1) < RING_REACH <==> LeastChord(arc) < RING_REACH
  {
    NeighbourGap(arc, i);
    GapAtLeast(arc, i, i + 1);
    RadiusAtLeast(arc);
  }

  lemma RadiusAtLeast(arc: Arc)
    requires arc.Valid()
    ensures arc.Radius() >= BLOOM_MIN_RADIUS
  {
  }

  /** A loop's ring reaches the chip before and the chip behind it exactly when the chord between
      neighbours at the minimum radius is below its reach. */
  lemma RingReachesNeighbours(arc: Arc, i: nat, other: bool, sqrt: SqrtFn)
    requires arc.Valid() && IsSqrt(sqrt) && i + 1 < arc.count
    ensures Pushes(Orbit, ChipBody(arc.Place(i), true), ChipBody(arc.Place(i + 1), other), sqrt)
       <==> LeastChord(arc) < RING_REACH
    ensures Pushes(Orbit, ChipBody(arc.Place(i + 1), true), ChipBody(arc.Place(i), other), sqrt)
       <==> LeastChord(arc) < RING_REACH
  {
    NeighbourReachable(arc, i);
    hide IsTrig, IsSqrt, Pushes, Overlap, LeastChord, Chord;
    ChipsTouchExactly(arc, i, i + 1, true, other, Orbit, sqrt);
    ChipsTouchExactly(arc, i, i + 1, other, true, Orbit, sqrt);
  }

  /** The rings are clear if and only if there is one chip at most, or no loop, or the chord between
      neighbours at the minimum radius is at least a ring's reach. */
  lemma RingsClearExactly(arc: Arc, loops: seq<bool>)
    requires arc.Valid() && |loops| == arc.count
    ensures RingsClear(arc, loops) <==> arc.count <= 1 || true !in loops || LeastChord(arc) >= RING_REACH
  {
    hide IsTrig, LeastChord;
    if LeastChord(arc) >= RING_REACH {
      forall i: nat, j: nat | i < j < arc.count
        ensures arc.Gap(i, j) >= RING_REACH
      {
        GapAtLeast(arc, i, j);
      }
    } else if arc.count > 1 && true in loops {
      var i: nat :| i < |loops| && loops[i];
      var k := if i + 1 < arc.count then i else i - 1;
      NeighbourReachable(arc, k);
      assert loops[k] || loops[k + 1];
    }
  }

  lemma NeighbourAngle(base: real, count: nat, i: nat, pi: real)
    requires count >= 2
    ensures ChipAngle(base, count, i + 1, pi) - ChipAngle(base, count, i, pi) == Step(count, pi)
  {
    Distribute(i as real, (i + 1) as real, Step(count, pi));
  }
}
