/** Exactly when the map stays still (dashboard/public/mindmap.jsx), over all bodies it creates, and what
    that says about the ring of eleven chains the dashboard shows. */
module MapLaws {
  import opened Prelude
  import opened Trig
  import opened Bodies
  import opened SolverLaws
  import opened Stillness
  import opened Bloom
  import opened BloomBodies
  import opened MapLayout

  const CHAIN_REACH := CHAIN_BODY + CHAIN_BODY + PAD
  const BITCOIN_REACH := CHAIN_BODY + BITCOIN_BODY + PAD

  // ----- the ring -----

  /** Neighbouring chains are out of each other's reach. */
  predicate ChainsRoomy(scene: Scene) {
    || scene.chains <= 1
    || PolarGap(RING_RADIUS, RING_RADIUS, scene.cos(scene.RingStep())) >= Square(CHAIN_REACH)
  }

  /** The chains next to the top are out of reach of bitcoin. */
  predicate BitcoinRoomy(scene: Scene) {
    || scene.chains == 0
    || PolarGap(RING_RADIUS, BITCOIN_DISTANCE, scene.cos(scene.RingStep() / 2.0)) >= Square(BITCOIN_REACH)
  }

  lemma RingStepFits(scene: Scene)
    requires scene.Valid() && scene.chains > 0
    ensures scene.RingStep() > 0.0 && Times(scene.chains as real, scene.RingStep()) == 2.0 * scene.pi
    ensures scene.chains >= 2 ==> scene.RingStep() <= scene.pi
  {
    PiPositive(scene.sin, scene.cos, scene.pi);
    hide IsTrig;
    var n, turn := scene.chains as real, 2.0 * scene.pi;
    QuotientPositive(turn, n);
    QuotientTimes(turn, n);
    assert Times(n, scene.RingStep()) == turn;
    hide Times, Scene.RingStep;
    if scene.chains >= 2 {
      StepsWithin(scene.RingStep(), 1.0, n);
    }
  }

  lemma QuotientPositive(a: real, w: real)
    requires a > 0.0 && w > 0.0
    ensures a / w > 0.0
  {
  }

  /** Some of n steps, but not all, are at least none, or one, and leave at least one. */
  lemma StepsWithin(step: real, m: real, n: real)
    requires step > 0.0 && 0.0 <= m <= n - 1.0
    ensures 0.0 <= Times(m, step) <= Times(n, step) - step
    ensures m >= 1.0 ==> step <= Times(m, step)
  {
    MulMonotone(step, 0.0, m);
    MulMonotone(step, m, n - 1.0);
    if m >= 1.0 {
      MulMonotone(step, 1.0, m);
    }
  }

  lemma StepsDiffer(step: real, k: real, l: real)
    ensures Times(l, step) - Times(k, step) == Times(l - k, step)
    ensures Times(0.0, step) == 0.0 && Times(1.0, step) == step
  {
  }

  /** The angle from chain k to a later chain l. */
  lemma ChainAngle(scene: Scene, k: nat, l: nat)
    requires scene.Valid() && k < l < scene.chains
    ensures scene.RingStep() <= scene.RingAngle(l) - scene.RingAngle(k) <= 2.0 * scene.pi - scene.RingStep()
    ensures l == k + 1 ==> scene.RingAngle(l) - scene.RingAngle(k) == scene.RingStep()
  {
    RingStepFits(scene);
    hide IsTrig, Scene.RingStep, Times;
    StepsDiffer(scene.RingStep(), k as real, l as real);
    StepsWithin(scene.RingStep(), l as real - k as real, scene.chains as real);
  }

  /** The angle from bitcoin to chain k. */
  lemma BitcoinAngle(scene: Scene, k: nat)
    requires scene.Valid() && k < scene.chains
    ensures var angle := scene.RingAngle(k) - (-(scene.pi / 2.0));
      && scene.RingStep() / 2.0 <= angle <= 2.0 * scene.pi - scene.RingStep() / 2.0
      && (k == 0 ==> angle == scene.RingStep() / 2.0)
  {
    RingStepFits(scene);
    hide IsTrig, Scene.RingStep, Times;
    StepsDiffer(scene.RingStep(), 0.0, 0.0);
    StepsWithin(scene.RingStep(), k as real, scene.chains as real);
  }

  lemma PolarGapOrder(d: real, e: real, c: real, k: real)
    requires d >= 0.0 && e >= 0.0 && c <= k
    ensures PolarGap(d, e, k) <= PolarGap(d, e, c)
  {
    NonnegProduct(d, e);
    MulMonotone(2.0 * d * e, c, k);
  }

  lemma CosineAtMostOne(a: real, sin: TrigFn, cos: TrigFn, pi: real)
    requires IsTrig(sin, cos, pi)
    ensures cos(a) <= 1.0
    ensures 0.0 < a <= pi ==> cos(a) < 1.0
  {
    ByHalf(a, sin, cos, pi);
    var s := sin(a / 2.0);
    if 0.0 < a <= pi {
      SineOrder(a / 2.0, a / 2.0, sin, cos, pi);
    }
    hide IsTrig;
    SquareNonneg(s);
    SquareZero(s);
  }

  lemma ChainGap(scene: Scene, k: nat, l: nat)
    requires scene.Valid() && k < l < scene.chains
    ensures var q := DistanceSquared(Spot(scene.ChainAt(k)), Spot(scene.ChainAt(l)));
      var near := PolarGap(RING_RADIUS, RING_RADIUS, scene.cos(scene.RingStep()));
      q >= near > 0.0 && (l == k + 1 ==> q == near)
  {
    var a, b := scene.RingAngle(k), scene.RingAngle(l);
    RingStepFits(scene);
    ChainAngle(scene, k, l);
    PolarDistance(RING_RADIUS, a, RING_RADIUS, b, scene.sin, scene.cos, scene.pi);
    Mirror(b - a, scene.sin, scene.cos, scene.pi);
    CosineBeyond(scene.RingStep(), b - a, scene.sin, scene.cos, scene.pi);
    CosineAtMostOne(scene.RingStep(), scene.sin, scene.cos, scene.pi);
    assert -(b - a) == a - b;
    hide IsTrig, DistanceSquared, Scene.RingAngle, Scene.RingStep;
    PolarGapOrder(RING_RADIUS, RING_RADIUS, scene.cos(b - a), scene.cos(scene.RingStep()));
  }

  /** Where bitcoin stands, in polar form. */
  lemma BitcoinPlace(sin: TrigFn, cos: TrigFn, pi: real)
    requires IsTrig(sin, cos, pi)
    ensures Spot(BITCOIN) == Chip(HUB, BITCOIN_DISTANCE, -(pi / 2.0), sin, cos)
  {
    QuarterTurns(sin, cos, pi);
    Mirror(pi / 2.0, sin, cos, pi);
    Mirror(-(pi / 2.0), sin, cos, pi);
    hide IsTrig;
    assert pi / 2.0 - -(pi / 2.0) == pi;
  }

  lemma BitcoinGap(scene: Scene, k: nat)
    requires scene.Valid() && k < scene.chains
    ensures var q := DistanceSquared(Spot(scene.ChainAt(k)), Spot(BITCOIN));
      var near := PolarGap(RING_RADIUS, BITCOIN_DISTANCE, scene.cos(scene.RingStep() / 2.0));
      q >= near > 0.0 && (k == 0 ==> q == near)
  {
    var a, b, half := scene.RingAngle(k), -(scene.pi / 2.0), scene.RingStep() / 2.0;
    RingStepFits(scene);
    BitcoinAngle(scene, k);
    BitcoinPlace(scene.sin, scene.cos, scene.pi);
    PolarDistance(RING_RADIUS, a, BITCOIN_DISTANCE, b, scene.sin, scene.cos, scene.pi);
    CosineBeyond(half, a - b, scene.sin, scene.cos, scene.pi);
    CosineAtMostOne(half, scene.sin, scene.cos, scene.pi);
    hide IsTrig, DistanceSquared, Scene.RingAngle, Scene.RingStep;
    PolarGapOrder(RING_RADIUS, BITCOIN_DISTANCE, scene.cos(a - b), scene.cos(half));
    PolarGapOrder(RING_RADIUS, BITCOIN_DISTANCE, scene.cos(half), 1.0);
  }

  lemma ChainsSpacedExactly(scene: Scene, sqrt: SqrtFn)
    requires scene.Valid() && IsSqrt(sqrt)
    ensures Spaced(scene.ChainBodies(), sqrt) <==> ChainsRoomy(scene)
  {
    var bs := scene.ChainBodies();
    SpacedPairs(bs, sqrt);
    hide IsTrig, IsSqrt, Apart, Spaced, DistanceSquared, PolarGap, Square;
    forall k: nat, l: nat | k < l < scene.chains
      ensures ChainsRoomy(scene) ==> Apart(bs[k], bs[l], sqrt)
      ensures l == k + 1 && Apart(bs[k], bs[l], sqrt) ==> ChainsRoomy(scene)
    {
      ChainGap(scene, k, l);
      PlainApart(bs[k], bs[l], sqrt);
    }
    if scene.chains > 1 {
      assert Apart(bs[0], bs[1], sqrt) ==> ChainsRoomy(scene);
    }
  }

  lemma BitcoinApartExactly(scene: Scene, sqrt: SqrtFn)
    requires scene.Valid() && IsSqrt(sqrt)
    ensures (forall k: nat :: k < scene.chains ==> Apart(scene.ChainAt(k), BITCOIN, sqrt)) <==> BitcoinRoomy(scene)
  {
    hide IsTrig, IsSqrt, Apart, DistanceSquared, PolarGap, Square;
    forall k: nat | k < scene.chains
      ensures BitcoinRoomy(scene) ==> Apart(scene.ChainAt(k), BITCOIN, sqrt)
      ensures k == 0 && Apart(scene.ChainAt(k), BITCOIN, sqrt) ==> BitcoinRoomy(scene)
    {
      BitcoinGap(scene, k);
      PlainApart(scene.ChainAt(k), BITCOIN, sqrt);
    }
    if scene.chains > 0 {
      assert Apart(scene.ChainAt(0), BITCOIN, sqrt) ==> BitcoinRoomy(scene);
    }
  }

  /** The gateway is out of reach of every chain and of bitcoin. */
  lemma GatewayApart(scene: Scene, k: nat, sqrt: SqrtFn)
    requires scene.Valid() && IsSqrt(sqrt)
    ensures Apart(scene.ChainAt(k), GATEWAY, sqrt) && Apart(BITCOIN, GATEWAY, sqrt)
  {
    ChipOnCircle(HUB, RING_RADIUS, scene.RingAngle(k), scene.sin, scene.cos, scene.pi);
    PlainApart(scene.ChainAt(k), GATEWAY, sqrt);
    PlainApart(BITCOIN, GATEWAY, sqrt);
    hide IsTrig, IsSqrt, Apart, Chip;
  }

  /** Without chips the map is spaced exactly when neighbouring chains, and bitcoin and the chains next to
      it, are out of reach. */
  lemma RootSpacedExactly(scene: Scene, sqrt: SqrtFn)
    requires scene.Valid() && IsSqrt(sqrt)
    ensures Spaced(scene.ChainBodies() + [BITCOIN, GATEWAY], sqrt) <==> ChainsRoomy(scene) && BitcoinRoomy(scene)
  {
    var bs, cs := scene.ChainBodies(), [BITCOIN, GATEWAY];
    ChainsSpacedExactly(scene, sqrt);
    BitcoinApartExactly(scene, sqrt);
    SpacedTogether(bs, cs, sqrt);
    SpacedPairs(cs, sqrt);
    hide IsTrig, IsSqrt, Apart, Spaced, ChainsRoomy, BitcoinRoomy, Scene.ChainAt;
    GatewayApart(scene, 0, sqrt);
    forall k: nat | k < scene.chains
      ensures Apart(bs[k], cs[1], sqrt)
      ensures Apart(bs[k], cs[0], sqrt) == Apart(scene.ChainAt(k), BITCOIN, sqrt)
    {
      GatewayApart(scene, k, sqrt);
    }
  }

  // ----- the chips against the rest -----

  /** The squared distance of chip i and a body `e` from the hub in direction `g`. */
  ghost function ChipGap(scene: Scene, i: nat, e: real, g: real): real
    requires scene.Valid()
  {
    var arc := scene.ChipArc();
    var a := ChipAngle(arc.base, arc.count, i, scene.pi);
    SpokeGap(RING_RADIUS, arc.Radius(), e, scene.cos(a - arc.base), scene.cos(arc.base - g), scene.cos(a - g))
  }

  /** A chip at squared distance `q`, with its orbit ring if it is a loop, is clear of a body. */
  predicate ChipClear(q: real, radius: real, loop: bool) {
    && Clear(q, CHIP_RADIUS + 4.0 + radius + PAD)
    && (loop ==> Clear(q, CHIP_RADIUS * 1.8 + 6.0 + radius + PAD))
  }

  /** All chips are clear of a body of radius `radius` that is `e` from the hub in direction `g`. */
  ghost predicate ChipsClearOf(scene: Scene, e: real, g: real, radius: real)
    requires scene.Valid()
  {
    forall i :: 0 <= i < |scene.loops| ==> ChipClear(ChipGap(scene, i, e, g), radius, scene.loops[i])
  }

  lemma ChipApartExactly(scene: Scene, i: nat, b: BodyState, e: real, g: real, sqrt: SqrtFn)
    requires scene.Valid() && IsSqrt(sqrt) && i < |scene.loops|
    requires b.orbitRadius == 0.0 && b.radius >= 0.0 && Spot(b) == Chip(HUB, e, g, scene.sin, scene.cos)
    ensures Apart(b, ArcBodies(scene.ChipArc(), scene.loops)[i], sqrt)
       <==> ChipClear(ChipGap(scene, i, e, g), b.radius, scene.loops[i])
  {
    hide IsTrig, IsSqrt, Apart, DistanceSquared, SpokeGap, Clear, Chip, ChipAngle;
    var arc := scene.ChipArc();
    var a := ChipAngle(arc.base, arc.count, i, scene.pi);
    SpokeDistance(RING_RADIUS, arc.base, arc.Radius(), a, e, g, scene.sin, scene.cos, scene.pi);
    ChipApart(arc.Place(i), scene.loops[i], b, sqrt);
  }

  /** No chip, and no ring, reaches the chip's own chain. */
  lemma OwnChainApart(scene: Scene, i: nat, sqrt: SqrtFn)
    requires scene.Valid() && IsSqrt(sqrt) && i < |scene.loops|
    ensures Apart(scene.ChainAt(scene.own), ArcBodies(scene.ChipArc(), scene.loops)[i], sqrt)
  {
    hide IsTrig, IsSqrt, Apart, DistanceSquared, Chip;
    var arc := scene.ChipArc();
    var a, r := ChipAngle(arc.base, arc.count, i, scene.pi), arc.Radius();
    RadiusAtLeast(arc);
    ChipOnCircle(arc.centre, r, a, scene.sin, scene.cos, scene.pi);
    assert Spot(scene.ChainAt(scene.own)) == arc.centre;
    ChipApart(arc.Place(i), scene.loops[i], scene.ChainAt(scene.own), sqrt);
    SquareMonotone(BLOOM_MIN_RADIUS, r);
    hide BloomRadius, ChipAngle;
  }

  /** A chip is never more than a quarter turn away from straight outwards. */
  lemma ChipOutwards(base: real, count: nat, i: nat, pi: real)
    requires pi > 0.0 && i < count
    ensures -(pi / 2.0) <= ChipAngle(base, count, i, pi) - base <= pi / 2.0
  {
    if count > 1 {
      var step, n := Step(count, pi), (count - 1) as real;
      StepTimesGaps(Spread(pi), n);
      MulMonotone(step, 0.0, i as real);
      MulMonotone(step, i as real, n);
    }
  }

  lemma FarFromHub(d: real, r: real, k: real, l: real, m: real)
    requires d >= 0.0 && r >= 0.0 && k >= 0.0
    ensures SpokeGap(d, r, 0.0, k, l, m) >= d * d
  {
    SquareNonneg(r);
    NonnegProduct(d, r);
    NonnegProduct(2.0 * d * r, k);
  }

  /** Nor the gateway. */
  lemma HubApart(scene: Scene, i: nat, sqrt: SqrtFn)
    requires scene.Valid() && IsSqrt(sqrt) && i < |scene.loops|
    ensures Apart(GATEWAY, ArcBodies(scene.ChipArc(), scene.loops)[i], sqrt)
  {
    hide IsTrig, IsSqrt, Apart, SpokeGap, ChipAngle, Chip;
    var arc := scene.ChipArc();
    var a := ChipAngle(arc.base, arc.count, i, scene.pi);
    PiPositive(scene.sin, scene.cos, scene.pi);
    ChipOutwards(arc.base, arc.count, i, scene.pi);
    CosineNonneg(a - arc.base, scene.sin, scene.cos, scene.pi);
    RadiusAtLeast(arc);
    HubPlace(scene.sin, scene.cos);
    ChipApartExactly(scene, i, GATEWAY, 0.0, 0.0, sqrt);
    FarFromHub(RING_RADIUS, arc.Radius(), scene.cos(a - arc.base), scene.cos(arc.base - 0.0), scene.cos(a - 0.0));
  }

  lemma HubPlace(sin: TrigFn, cos: TrigFn)
    ensures Spot(GATEWAY) == Chip(HUB, 0.0, 0.0, sin, cos)
  {
  }

  // ----- the whole map -----

  /** Every condition on the layout, checkable from the number of chains, the selected chain and its
      protocols: the ring, the chips among themselves, the chips against the other chains and bitcoin. */
  ghost predicate Roomy(scene: Scene)
    requires scene.Valid()
  {
    && ChainsRoomy(scene)
    && BitcoinRoomy(scene)
    && (|scene.loops| <= 1 || true !in scene.loops || LeastChord(scene.ChipArc()) >= RING_REACH)
    && (forall k: nat :: k < scene.chains && k != scene.own ==>
          ChipsClearOf(scene, RING_RADIUS, scene.RingAngle(k), CHAIN_BODY))
    && ChipsClearOf(scene, BITCOIN_DISTANCE, -(scene.pi / 2.0), BITCOIN_BODY)
  }

  /** Body `b` is apart from every chip. */
  ghost predicate ApartFromChips(scene: Scene, b: BodyState, sqrt: SqrtFn)
    requires scene.Valid()
  {
    forall i :: 0 <= i < |scene.loops| ==> Apart(b, ArcBodies(scene.ChipArc(), scene.loops)[i], sqrt)
  }

  lemma ClearOfStation(scene: Scene, b: BodyState, e: real, g: real, sqrt: SqrtFn)
    requires scene.Valid() && IsSqrt(sqrt)
    requires b.orbitRadius == 0.0 && b.radius >= 0.0 && Spot(b) == Chip(HUB, e, g, scene.sin, scene.cos)
    ensures ApartFromChips(scene, b, sqrt) <==> ChipsClearOf(scene, e, g, b.radius)
  {
    hide IsTrig, IsSqrt, Apart, ChipGap, ChipClear, ArcBodies;
    forall i: nat | i < |scene.loops|
      ensures Apart(b, ArcBodies(scene.ChipArc(), scene.loops)[i], sqrt)
         <==> ChipClear(ChipGap(scene, i, e, g), b.radius, scene.loops[i])
    {
      ChipApartExactly(scene, i, b, e, g, sqrt);
    }
  }

  lemma OwnAndHubApart(scene: Scene, sqrt: SqrtFn)
    requires scene.Valid() && IsSqrt(sqrt)
    ensures ApartFromChips(scene, scene.ChainAt(scene.own), sqrt) && ApartFromChips(scene, GATEWAY, sqrt)
  {
    hide IsTrig, IsSqrt, Apart, ArcBodies;
    forall i: nat | i < |scene.loops|
      ensures Apart(scene.ChainAt(scene.own), ArcBodies(scene.ChipArc(), scene.loops)[i], sqrt)
      ensures Apart(GATEWAY, ArcBodies(scene.ChipArc(), scene.loops)[i], sqrt)
    {
      OwnChainApart(scene, i, sqrt);
      HubApart(scene, i, sqrt);
    }
  }

  /** All chips are apart from everything else exactly when they are clear of the other chains and of
      bitcoin. */
  lemma ChipsApartExactly(scene: Scene, sqrt: SqrtFn)
    requires scene.Valid() && IsSqrt(sqrt)
    ensures var rest := scene.ChainBodies() + [BITCOIN, GATEWAY];
      (forall k :: 0 <= k < |rest| ==> ApartFromChips(scene, rest[k], sqrt)) <==>
        && (forall k: nat :: k < scene.chains && k != scene.own ==>
              ChipsClearOf(scene, RING_RADIUS, scene.RingAngle(k), CHAIN_BODY))
        && ChipsClearOf(scene, BITCOIN_DISTANCE, -(scene.pi / 2.0), BITCOIN_BODY)
  {
    hide IsTrig, IsSqrt, ApartFromChips, ChipsClearOf, Chip, Scene.RingAngle;
    var n, rest := scene.chains, scene.ChainBodies() + [BITCOIN, GATEWAY];
    BitcoinPlace(scene.sin, scene.cos, scene.pi);
    ClearOfStation(scene, BITCOIN, BITCOIN_DISTANCE, -(scene.pi / 2.0), sqrt);
    OwnAndHubApart(scene, sqrt);
    assert rest[n] == BITCOIN && rest[n + 1] == GATEWAY;
    forall k: nat | k < n
      ensures rest[k] == scene.ChainAt(k)
      ensures ApartFromChips(scene, rest[k], sqrt)
         <==> ChipsClearOf(scene, RING_RADIUS, scene.RingAngle(k), CHAIN_BODY)
    {
      ClearOfStation(scene, scene.ChainAt(k), RING_RADIUS, scene.RingAngle(k), sqrt);
    }
  }

  lemma MapSpacedExactly(scene: Scene, sqrt: SqrtFn)
    requires scene.Valid() && IsSqrt(sqrt)
    ensures Spaced(scene.Bodies(), sqrt) <==> Roomy(scene)
  {
    hide IsTrig, IsSqrt, Apart, Spaced, ChainsRoomy, BitcoinRoomy, ChipsClearOf, RingsClear, LeastChord, ArcBodies;
    RootSpacedExactly(scene, sqrt);
    ArcSpacedExactly(scene.ChipArc(), scene.loops, sqrt);
    RingsClearExactly(scene.ChipArc(), scene.loops);
    ChipsApartExactly(scene, sqrt);
    SpacedTogether(scene.ChainBodies() + [BITCOIN, GATEWAY], ArcBodies(scene.ChipArc(), scene.loops), sqrt);
  }

  /** With every body on its anchor and none held, no frame in any mode ever moves anything if and only if
      the layout is roomy. */
  lemma MapStillExactly(scene: Scene, focus: Focus, sqrt: SqrtFn)
    requires scene.Valid() && IsSqrt(sqrt)
    ensures StaysStill(scene.Bodies(), focus, sqrt) <==> Roomy(scene)
  {
    MapSpacedExactly(scene, sqrt);
    MapAtRest(scene);
    hide IsTrig, IsSqrt, Spaced, Roomy, StaysStill, Settled, AllLoose;
    StillExactly(scene.Bodies(), focus, sqrt, HUB);
  }

  lemma MapAtRest(scene: Scene)
    requires scene.Valid()
    ensures Settled(scene.Bodies()) && AllLoose(scene.Bodies(), HUB)
  {
    hide IsTrig, Chip;
  }
}
