/** All bodies the map creates (dashboard/public/mindmap.jsx): the ring of chains, bitcoin above it, the
    gateway at its hub, and the protocol chips of the selected chain. The laws say exactly when this
    layout stays still. */
module MapLayout {
  import opened Prelude
  import opened Trig
  import opened Bodies
  import opened SolverLaws
  import opened Stillness
  import opened Bloom
  import opened BloomBodies

  const RING_RADIUS := 138.0
  const CHAIN_SIZE := 34.0
  const GATEWAY_SIZE := 22.0
  const CHAIN_BODY := CHAIN_SIZE * 0.9
  const BITCOIN_BODY := CHAIN_SIZE * 0.95 * 0.9
  const GATEWAY_BODY := GATEWAY_SIZE * 1.6
  const BITCOIN_DISTANCE := RING_RADIUS + CHAIN_SIZE * 1.7
  const HUB := Point(0.0, 0.0)

  function MapBody(p: Point, radius: real, mass: Mass, draggable: Option<bool>): BodyState {
    BodyState(p.x, p.y, 0.0, 0.0, p.x, p.y, radius, mass, false, draggable, 0.0)
  }

  const BITCOIN := MapBody(Point(0.0, -BITCOIN_DISTANCE), BITCOIN_BODY, 3.0, None)
  const GATEWAY := MapBody(HUB, GATEWAY_BODY, 5.0, Some(false))

  function Times(a: real, b: real): real {
    a * b
  }

  /** What is on the map: the number of chains on the ring, the selected one and which of its protocols
      are loops. Without a selection, or without protocols, there are no chips. */
  datatype Scene = Scene(chains: nat, own: nat, loops: seq<bool>, sin: TrigFn, cos: TrigFn, pi: real) {
    ghost predicate Valid() {
      IsTrig(sin, cos, pi) && (loops != [] ==> own < chains)
    }

    function RingStep(): real {
      if chains == 0 then 0.0 else 2.0 * pi / chains as real
    }

    /** `placeRing`. */
    function RingAngle(k: nat): real {
      -(pi / 2.0) + RingStep() / 2.0 + Times(k as real, RingStep())
    }

    function ChainPlace(k: nat): Point {
      Chip(HUB, RING_RADIUS, RingAngle(k), sin, cos)
    }

    function ChainAt(k: nat): BodyState {
      MapBody(ChainPlace(k), CHAIN_BODY, 3.0, None)
    }

    function ChipArc(): Arc {
      Arc(ChainPlace(own), RingAngle(own), |loops|, sin, cos, pi)
    }

    function ChainBodies(): seq<BodyState> {
      seq(chains, k requires 0 <= k < chains => ChainAt(k))
    }

    /** The bodies in the order they are created. */
    ghost function Bodies(): seq<BodyState>
      requires Valid()
    {
      ChainBodies() + [BITCOIN, GATEWAY] + ArcBodies(ChipArc(), loops)
    }
  }

  /** How large a body is, how heavy, and whether it can be dragged. */
  ghost predicate Sized(b: BodyState, radius: real, mass: real, draggable: Option<bool>, ring: real) {
    && b.radius == radius && b.mass == mass && b.draggable == draggable && b.orbitRadius == ring
    && b.AtRest() && !b.isDragging
  }

  /** The layout in numbers: `n` chains at 138 from the hub, half a step off the top; bitcoin above them;
      the gateway fixed in the middle; and a chip with its ring when it is a loop. */
  lemma LayoutByNumbers(scene: Scene, k: nat, p: Point, loop: bool)
    requires k < scene.chains
    ensures Sized(scene.ChainAt(k), 30.6, 3.0, None, 0.0)
    ensures scene.RingAngle(k) == -(scene.pi / 2.0) + (k as real + 0.5) * (2.0 * scene.pi / scene.chains as real)
    ensures scene.ChainPlace(k) == Point(scene.cos(scene.RingAngle(k)) * 138.0, scene.sin(scene.RingAngle(k)) * 138.0)
    ensures Sized(BITCOIN, 29.07, 3.0, None, 0.0) && BITCOIN.x == 0.0 && BITCOIN.y == -195.8
    ensures Sized(GATEWAY, 35.2, 5.0, Some(false), 0.0) && GATEWAY.x == 0.0 && GATEWAY.y == 0.0
    ensures Sized(ChipBody(p, loop), 37.6, 1.0, None, if loop then 66.48 else 0.0)
    ensures Spot(ChipBody(p, loop)) == p && Spot(scene.ChainAt(k)) == scene.ChainPlace(k)
  {
    assert (k as real + 0.5) * scene.RingStep() == scene.RingStep() / 2.0 + Times(k as real, scene.RingStep());
  }

  /** Chip `i` is the body behind chains, bitcoin and gateway: it stands the bloom radius away from the
      selected chain, `i` even steps into the arc around that chain's own direction. */
  lemma ChipsByAngles(scene: Scene, i: nat)
    requires scene.Valid() && i < |scene.loops|
    ensures |scene.Bodies()| == scene.chains + 2 + |scene.loops|
    ensures var chip, own := scene.Bodies()[scene.chains + 2 + i], scene.ChainPlace(scene.own);
      var angle := ChipAngle(scene.RingAngle(scene.own), |scene.loops|, i, scene.pi);
      var r := scene.ChipArc().Radius();
      && Spot(chip) == Point(own.x + scene.cos(angle) * r, own.y + scene.sin(angle) * r)
      && (chip.orbitRadius != 0.0 <==> scene.loops[i])
  {
    var arc := scene.ChipArc();
    assert scene.Bodies()[scene.chains + 2 + i] == ArcBodies(arc, scene.loops)[i];
    hide IsTrig, ChipAngle, Arc.Radius, Scene.RingAngle, Scene.ChainPlace;
  }

  // ----- squared distances -----

  function Spot(b: BodyState): Point {
    Point(b.x, b.y)
  }

  /** In terms of squared distance no square root is left. */
  lemma PushesSquared(rule: Rule, a: BodyState, b: BodyState, sqrt: SqrtFn)
    requires IsSqrt(sqrt) && Reach(rule, a, b) > 1.0
    ensures var q := DistanceSquared(Spot(a), Spot(b));
      Pushes(rule, a, b, sqrt) <==> (rule.Orbit? ==> a.orbitRadius != 0.0) && 0.0 < q < Square(Reach(rule, a, b))
  {
    hide IsSqrt, Dist, Reach, DistanceSquared, Square;
    NearBelow(sqrt, Spot(a), Spot(b), Reach(rule, a, b));
  }

  lemma NearBelow(sqrt: SqrtFn, p: Point, q: Point, r: real)
    requires IsSqrt(sqrt) && r > 1.0
    ensures Dist(sqrt, q.x - p.x, q.y - p.y) < r && (p.x != q.x || p.y != q.y)
       <==> 0.0 < DistanceSquared(p, q) < Square(r)
  {
    hide IsSqrt, Dist, Square;
    SquareOfFlip(p.x, q.x);
    SquareOfFlip(p.y, q.y);
    DistBelow(sqrt, q.x - p.x, q.y - p.y, r);
  }

  lemma SquareOfFlip(a: real, b: real)
    ensures Square(a - b) == Square(b - a)
  {
  }

  lemma DistBelow(sqrt: SqrtFn, dx: real, dy: real, r: real)
    requires IsSqrt(sqrt) && r > 1.0
    ensures Dist(sqrt, dx, dy) < r && (dx != 0.0 || dy != 0.0) <==> 0.0 < Square(dx) + Square(dy) < Square(r)
  {
    hide Square, IsSqrt, Dist;
    SumOfSquares(dx, dy);
    DistIsRoot(sqrt, dx, dy);
    var q := Square(dx) + Square(dy);
    if q > 0.0 {
      RootBelow(sqrt, q, r);
    }
  }

  lemma DistIsRoot(sqrt: SqrtFn, dx: real, dy: real)
    ensures var root := sqrt(Square(dx) + Square(dy)); Dist(sqrt, dx, dy) == if root == 0.0 then 1.0 else root
  {
  }

  lemma RootBelow(sqrt: SqrtFn, q: real, r: real)
    requires IsSqrt(sqrt) && q > 0.0 && r > 0.0
    ensures sqrt(q) != 0.0 && (sqrt(q) < r <==> q < Square(r))
  {
    RootOf(sqrt, q);
    hide IsSqrt;
    SquareBelow(sqrt(q), r);
  }

  lemma SumOfSquares(x: real, y: real)
    ensures Square(x) + Square(y) >= 0.0
    ensures Square(x) + Square(y) > 0.0 <==> x != 0.0 || y != 0.0
  {
    SquareNonneg(x);
    SquareNonneg(y);
    SquareZero(x);
    SquareZero(y);
  }

  lemma RootOf(sqrt: SqrtFn, q: real)
    requires IsSqrt(sqrt) && q > 0.0
    ensures sqrt(q) > 0.0 && Square(sqrt(q)) == q
  {
    SquareZero(sqrt(q));
  }

  lemma SquareBelow(a: real, b: real)
    requires a >= 0.0 && b >= 0.0
    ensures a < b <==> Square(a) < Square(b)
  {
    if a < b {
      StrictSquaresGrow(a, b);
    } else {
      SquaresGrow(b, a);
    }
  }

  /** A squared distance is out of reach, or is none at all. */
  predicate Clear(q: real, reach: real) {
    q <= 0.0 || q >= Square(reach)
  }

  /** Two bodies without orbit rings. */
  lemma PlainApart(a: BodyState, b: BodyState, sqrt: SqrtFn)
    requires IsSqrt(sqrt) && a.orbitRadius == 0.0 && b.orbitRadius == 0.0 && a.radius >= 0.0 && b.radius >= 0.0
    ensures Apart(a, b, sqrt) <==> Clear(DistanceSquared(Spot(a), Spot(b)), a.radius + b.radius + PAD)
  {
    hide IsSqrt, Square, DistanceSquared;
    PushesSquared(Pairwise, a, b, sqrt);
    ApartByRule(a, b, sqrt);
    NoRingNoPush(a, b, sqrt);
    NoRingNoPush(b, a, sqrt);
    hide Pushes, Apart;
  }

  lemma NoRingNoPush(a: BodyState, b: BodyState, sqrt: SqrtFn)
    requires a.orbitRadius == 0.0
    ensures !Pushes(Orbit, a, b, sqrt)
  {
  }

  /** A chip against a body without an orbit ring. */
  lemma ChipApart(p: Point, loop: bool, b: BodyState, sqrt: SqrtFn)
    requires IsSqrt(sqrt) && b.orbitRadius == 0.0 && b.radius >= 0.0
    ensures Apart(b, ChipBody(p, loop), sqrt) <==>
      && Clear(DistanceSquared(p, Spot(b)), CHIP_RADIUS + 4.0 + b.radius + PAD)
      && (loop ==> Clear(DistanceSquared(p, Spot(b)), CHIP_RADIUS * 1.8 + 6.0 + b.radius + PAD))
  {
    hide IsSqrt, Square, DistanceSquared;
    var chip := ChipBody(p, loop);
    PushesSquared(Pairwise, chip, b, sqrt);
    PushesSquared(Orbit, chip, b, sqrt);
    PushesFlips(chip, b, sqrt);
    ApartByRule(b, chip, sqrt);
    NoRingNoPush(b, chip, sqrt);
    hide Pushes, Apart;
  }

  // ----- the cosine law -----

  /** The squared distance of two points seen from the hub at distances `d` and `e`, where `c` is the
      cosine of the angle between them. */
  function PolarGap(d: real, e: real, c: real): real {
    d * d + e * e - 2.0 * d * e * c
  }

  lemma PolarIdentity(d: real, cd: real, sd: real, e: real, ce: real, se: real)
    ensures Square(Offset(d, cd) - Offset(e, ce)) + Square(Offset(d, sd) - Offset(e, se))
         == Times(d * d, Inner(cd, sd, cd, sd)) + Times(e * e, Inner(ce, se, ce, se))
          - Times(2.0 * d * e, Inner(cd, sd, ce, se))
  {
  }

  lemma PolarValue(d: real, e: real, c: real)
    ensures Times(d * d, 1.0) + Times(e * e, 1.0) - Times(2.0 * d * e, c) == PolarGap(d, e, c)
  {
  }

  lemma PolarDistance(d: real, a: real, e: real, b: real, sin: TrigFn, cos: TrigFn, pi: real)
    requires IsTrig(sin, cos, pi)
    ensures DistanceSquared(Chip(HUB, d, a, sin, cos), Chip(HUB, e, b, sin, cos)) == PolarGap(d, e, cos(a - b))
  {
    InnerIsCosine(a, b, sin, cos, pi);
    InnerIsCosine(b, a, sin, cos, pi);
    hide IsTrig, Times, Offset, Square, PolarGap, Inner;
    PolarIdentity(d, cos(a), sin(a), e, cos(b), sin(b));
    PolarValue(d, e, cos(a - b));
  }

  /** The squared distance between a point at distance `r` from a chain, itself `d` from the hub, and a
      point `e` from the hub; the three numbers at the end are the cosines of the angles between the
      directions. */
  function SpokeGap(d: real, r: real, e: real, chainChip: real, chainOther: real, chipOther: real): real {
    d * d + r * r + e * e + 2.0 * d * r * chainChip - 2.0 * d * e * chainOther - 2.0 * r * e * chipOther
  }

  lemma SpokePolynomial(d: real, cd: real, sd: real, r: real, cr: real, sr: real, e: real, ce: real, se: real)
    ensures (cd * d + cr * r - ce * e) * (cd * d + cr * r - ce * e)
          + (sd * d + sr * r - se * e) * (sd * d + sr * r - se * e)
         == d * d * (cd * cd + sd * sd) + r * r * (cr * cr + sr * sr) + e * e * (ce * ce + se * se)
          + 2.0 * d * r * (cr * cd + sr * sd) - 2.0 * d * e * (cd * ce + sd * se) - 2.0 * r * e * (cr * ce + sr * se)
  {
  }

  lemma SpokeIdentity(d: real, cd: real, sd: real, r: real, cr: real, sr: real, e: real, ce: real, se: real)
    ensures Square(Offset(d, cd) + Offset(r, cr) - Offset(e, ce))
          + Square(Offset(d, sd) + Offset(r, sr) - Offset(e, se))
         == Times(d * d, Inner(cd, sd, cd, sd)) + Times(r * r, Inner(cr, sr, cr, sr))
          + Times(e * e, Inner(ce, se, ce, se))
          + Times(2.0 * d * r, Inner(cr, sr, cd, sd)) - Times(2.0 * d * e, Inner(cd, sd, ce, se))
          - Times(2.0 * r * e, Inner(cr, sr, ce, se))
  {
    hide Times, Inner, Square, Offset;
    SpokePolynomial(d, cd, sd, r, cr, sr, e, ce, se);
    SquareOffsets(d, cd, r, cr, e, ce);
    SquareOffsets(d, sd, r, sr, e, se);
    TimesInner(d * d, cd, sd, cd, sd);
    TimesInner(r * r, cr, sr, cr, sr);
    TimesInner(e * e, ce, se, ce, se);
    TimesInner(2.0 * d * r, cr, sr, cd, sd);
    TimesInner(2.0 * d * e, cd, sd, ce, se);
    TimesInner(2.0 * r * e, cr, sr, ce, se);
  }

  lemma SquareOffsets(d: real, x: real, r: real, y: real, e: real, z: real)
    ensures Square(Offset(d, x) + Offset(r, y) - Offset(e, z)) == (x * d + y * r - z * e) * (x * d + y * r - z * e)
  {
    assert Offset(d, x) + Offset(r, y) - Offset(e, z) == x * d + y * r - z * e;
  }

  lemma TimesInner(k: real, c: real, s: real, d: real, t: real)
    ensures Times(k, Inner(c, s, d, t)) == k * (c * d + s * t)
  {
  }

  lemma SpokeValue(d: real, r: real, e: real, k: real, l: real, m: real)
    ensures Times(d * d, 1.0) + Times(r * r, 1.0) + Times(e * e, 1.0)
          + Times(2.0 * d * r, k) - Times(2.0 * d * e, l) - Times(2.0 * r * e, m)
         == SpokeGap(d, r, e, k, l, m)
  {
  }

  lemma SpokeDistance(
      d: real, b: real, r: real, a: real, e: real, g: real, sin: TrigFn, cos: TrigFn, pi: real)
    requires IsTrig(sin, cos, pi)
    ensures DistanceSquared(Chip(Chip(HUB, d, b, sin, cos), r, a, sin, cos), Chip(HUB, e, g, sin, cos))
         == SpokeGap(d, r, e, cos(a - b), cos(b - g), cos(a - g))
  {
    InnerIsCosine(a, b, sin, cos, pi);
    InnerIsCosine(b, g, sin, cos, pi);
    InnerIsCosine(a, g, sin, cos, pi);
    InnerIsCosine(g, g, sin, cos, pi);
    hide IsTrig, Times, Offset, Square, SpokeGap, Inner;
    SpokeIdentity(d, cos(b), sin(b), r, cos(a), sin(a), e, cos(g), sin(g));
    SpokeValue(d, r, e, cos(a - b), cos(b - g), cos(a - g));
  }
}
