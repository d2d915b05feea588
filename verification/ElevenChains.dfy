/** The map the dashboard shows, with eleven chains on the ring (dashboard/public/data.jsx,
    dashboard/public/mindmap.jsx): what stays still, what does not, and what comes to rest. */
module ElevenChains {
  import opened Prelude
  import opened Trig
  import opened Bodies
  import opened SolverLaws
  import opened Stillness
  import opened Decay
  import Settling
  import opened Bloom
  import opened BloomBodies
  import opened MapLayout
  import opened MapLaws

  ghost predicate Eleven(scene: Scene) {
    scene.Valid() && scene.chains == 11
  }

  /** Half the angle between neighbouring chains, and what is known of its sine and cosine. */
  lemma HalfRingStep(scene: Scene)
    requires Eleven(scene)
    ensures var h := scene.RingStep() / 2.0;
      && 11.0 * h == scene.pi > 0.0
      && 0.2587 <= scene.sin(h) <= 0.5 && scene.cos(h) <= 0.966
      && scene.cos(scene.RingStep()) == 1.0 - 2.0 * (scene.sin(h) * scene.sin(h))
  {
    var pi, h := scene.pi, scene.RingStep() / 2.0;
    RingStepFits(scene);
    assert 11.0 * h == pi;
    hide IsTrig, Scene.RingStep, Times;
    PiPositive(scene.sin, scene.cos, pi);
    Sixth(scene.sin, scene.cos, pi);
    Twelfth(scene.sin, scene.cos, pi);
    SineOrder(pi / 12.0, h, scene.sin, scene.cos, pi);
    SineOrder(h, pi / 6.0, scene.sin, scene.cos, pi);
    CosineOrder(pi / 12.0, h, scene.sin, scene.cos, pi);
    ByHalf(scene.RingStep(), scene.sin, scene.cos, pi);
  }

  /** The squared distances of neighbouring chains, and of bitcoin and the chains next to it. */
  lemma ElevenGaps(scene: Scene)
    requires Eleven(scene)
    ensures PolarGap(RING_RADIUS, RING_RADIUS, scene.cos(scene.RingStep())) >= 5097.0
    ensures PolarGap(RING_RADIUS, BITCOIN_DISTANCE, scene.cos(scene.RingStep() / 2.0)) >= 5178.0
  {
    HalfRingStep(scene);
    var s := scene.sin(scene.RingStep() / 2.0);
    SquaresGrow(0.2587, s);
    hide IsTrig, Scene.RingStep;
  }

  /** The ring has room for eleven chains, the gateway and bitcoin. */
  lemma ElevenRoomy(scene: Scene)
    requires Eleven(scene)
    ensures ChainsRoomy(scene) && BitcoinRoomy(scene)
  {
    ElevenGaps(scene);
    hide IsTrig, Scene.RingStep, PolarGap;
  }

  /** Without a selection nothing ever moves. */
  lemma RootStaysStill(scene: Scene, focus: Focus, sqrt: SqrtFn)
    requires Eleven(scene) && IsSqrt(sqrt) && scene.loops == []
    ensures StaysStill(scene.Bodies(), focus, sqrt)
  {
    ElevenRoomy(scene);
    hide IsTrig, IsSqrt, StaysStill, ChainsRoomy, BitcoinRoomy, ChipClear, ChipGap;
    MapStillExactly(scene, focus, sqrt);
  }

  // ----- one chip -----

  /** A single chip stands straight outwards from its chain. */
  lemma SingleChipGap(scene: Scene, e: real, g: real)
    requires scene.Valid() && |scene.loops| == 1
    ensures var k := scene.cos(scene.RingAngle(scene.own) - g);
      ChipGap(scene, 0, e, g) == SpokeGap(RING_RADIUS, BLOOM_MIN_RADIUS, e, 1.0, k, k)
  {
    QuarterTurns(scene.sin, scene.cos, scene.pi);
    hide IsTrig, SpokeGap;
  }

  lemma SpokeGapOrder(d: real, r: real, e: real, k: real, l: real)
    requires d >= 0.0 && r >= 0.0 && e >= 0.0 && k <= l
    ensures SpokeGap(d, r, e, 1.0, k, k) >= SpokeGap(d, r, e, 1.0, l, l)
  {
    NonnegProduct(d, e);
    NonnegProduct(r, e);
    MulMonotone(2.0 * d * e, k, l);
    MulMonotone(2.0 * r * e, k, l);
  }

  lemma SingleChipClearOfChain(scene: Scene, k: nat)
    requires Eleven(scene) && scene.loops == [false]
    ensures ChipsClearOf(scene, RING_RADIUS, scene.RingAngle(k), CHAIN_BODY)
  {
    hide IsTrig, ChipGap, Scene.RingAngle, Scene.RingStep;
    var angle := scene.RingAngle(scene.own) - scene.RingAngle(k);
    SingleChipGap(scene, RING_RADIUS, scene.RingAngle(k));
    CosineAtMostOne(angle, scene.sin, scene.cos, scene.pi);
    SpokeGapOrder(RING_RADIUS, BLOOM_MIN_RADIUS, RING_RADIUS, scene.cos(angle), 1.0);
  }

  /** A single protocol that is no loop leaves the whole map still, on whatever chain it is. */
  lemma SingleChipStaysStill(scene: Scene, focus: Focus, sqrt: SqrtFn)
    requires Eleven(scene) && IsSqrt(sqrt) && scene.loops == [false]
    ensures StaysStill(scene.Bodies(), focus, sqrt)
  {
    hide IsTrig, IsSqrt, StaysStill, ChainsRoomy, BitcoinRoomy, ChipsClearOf;
    ElevenRoomy(scene);
    forall k: nat | k < scene.chains && k != scene.own
      ensures ChipsClearOf(scene, RING_RADIUS, scene.RingAngle(k), CHAIN_BODY)
    {
      SingleChipClearOfChain(scene, k);
    }
    SingleChipClearOfBitcoin(scene);
    MapStillExactly(scene, focus, sqrt);
  }

  lemma SingleChipClearOfBitcoin(scene: Scene)
    requires Eleven(scene) && scene.loops == [false]
    ensures ChipsClearOf(scene, BITCOIN_DISTANCE, -(scene.pi / 2.0), BITCOIN_BODY)
  {
    var g, half := -(scene.pi / 2.0), scene.RingStep() / 2.0;
    var angle := scene.RingAngle(scene.own) - g;
    HalfRingStep(scene);
    SingleChipGap(scene, BITCOIN_DISTANCE, g);
    BitcoinAngle(scene, scene.own);
    CosineBeyond(half, angle, scene.sin, scene.cos, scene.pi);
    SpokeGapOrder(RING_RADIUS, BLOOM_MIN_RADIUS, BITCOIN_DISTANCE, scene.cos(angle), 0.966);
    hide IsTrig, ChipGap, Scene.RingAngle, Scene.RingStep;
  }

  // ----- two chips or more -----

  /** The end of an arc that leans towards a neighbouring chain, in terms of half the ring's step `h` and
      the rest `m` of the lean: `k`, `l` and `n` are the cosines of m + h, 2h and m - h. */
  lemma LeaningGap(d: real, r: real, k: real, l: real, n: real, c: real, sm: real, sh: real)
    requires k == c - sm * sh && l == 1.0 - 2.0 * (sh * sh) && n == c + sm * sh
    ensures SpokeGap(d, r, d, k, l, n) == r * r + 4.0 * d * d * (sh * sh) - 4.0 * d * r * (sm * sh)
  {
    MulSame(2.0 * d * r, k - n, -2.0 * (sm * sh));
    MulSame(2.0 * d * d, l, 1.0 - 2.0 * (sh * sh));
  }

  lemma LeaningBounds(s: real, m: real, ss: real, ms: real)
    requires 0.2587 <= s <= 0.5 && 0.866 <= m <= 0.966 && ss == s * s && ms == m * s
    ensures 0.0 < 112.0 * 112.0 + 4.0 * 138.0 * 138.0 * ss - 4.0 * 138.0 * 112.0 * ms < 74.2 * 74.2
  {
    Between(s, 0.2587, 0.5, ss);
    AboveTangent(s, 0.392, ss);
    ProductBounds(s, m, 0.866, 0.966, ms);
    LeaningLinear(s, ss, ms);
  }

  lemma ProductBounds(s: real, m: real, low: real, high: real, ms: real)
    requires s >= 0.0 && low <= m <= high && ms == m * s
    ensures low * s <= ms <= high * s
  {
    MulMonotone(s, low, m);
    MulMonotone(s, m, high);
  }

  lemma Between(s: real, low: real, high: real, ss: real)
    requires low <= s <= high && ss == s * s
    ensures ss <= (low + high) * s - low * high
  {
    NonnegProduct(s - low, high - s);
    assert (s - low) * (high - s) == (low + high) * s - low * high - s * s;
  }

  lemma AboveTangent(s: real, a: real, ss: real)
    requires ss == s * s
    ensures ss >= 2.0 * a * s - a * a
  {
    SquareNonneg(s - a);
    SquareOfDifference(s, a);
  }

  lemma SquareOfDifference(s: real, a: real)
    ensures (s - a) * (s - a) == s * s - 2.0 * a * s + a * a
  {
  }

  lemma LeaningLinear(s: real, ss: real, ms: real)
    requires 0.2587 <= s <= 0.5
    requires 0.784 * s - 0.153664 <= ss <= 0.7587 * s - 0.12935 && 0.866 * s <= ms <= 0.966 * s
    ensures 0.0 < 112.0 * 112.0 + 4.0 * 138.0 * 138.0 * ss - 4.0 * 138.0 * 112.0 * ms < 74.2 * 74.2
  {
  }

  /** How far an end of the arc leans beyond half the ring's step. */
  lemma Lean(scene: Scene)
    requires Eleven(scene)
    ensures var m := Spread(scene.pi) / 2.0 - scene.RingStep() / 2.0; 0.866 <= scene.sin(m) <= 0.966
  {
    var pi, m := scene.pi, Spread(scene.pi) / 2.0 - scene.RingStep() / 2.0;
    HalfRingStep(scene);
    Sixth(scene.sin, scene.cos, pi);
    Twelfth(scene.sin, scene.cos, pi);
    Mirror(m, scene.sin, scene.cos, pi);
    assert pi / 12.0 <= pi / 2.0 - m <= pi / 6.0;
    CosineOrder(pi / 12.0, pi / 2.0 - m, scene.sin, scene.cos, pi);
    CosineOrder(pi / 2.0 - m, pi / 6.0, scene.sin, scene.cos, pi);
  }

  lemma CosineOfParts(a: real, b: real, m: real, h: real, sin: TrigFn, cos: TrigFn, pi: real)
    requires IsTrig(sin, cos, pi) && a == m + h && b == m - h
    ensures cos(a) == cos(m) * cos(h) - sin(m) * sin(h) && cos(b) == cos(m) * cos(h) + sin(m) * sin(h)
  {
    Instances(m, h, sin, cos, pi);
  }

  /** The squared distance of the leaning chip and the chain it leans to. */
  lemma LeaningDistance(scene: Scene)
    requires Eleven(scene)
    ensures var step, lean := scene.RingStep(), Spread(scene.pi) / 2.0;
      var gap := SpokeGap(RING_RADIUS, BLOOM_MIN_RADIUS, RING_RADIUS,
                          scene.cos(lean), scene.cos(step), scene.cos(lean - step));
      0.0 < gap < 74.2 * 74.2
  {
    var step, lean := scene.RingStep(), Spread(scene.pi) / 2.0;
    var h, m := step / 2.0, lean - step / 2.0;
    HalfRingStep(scene);
    Lean(scene);
    CosineOfParts(lean, lean - step, m, h, scene.sin, scene.cos, scene.pi);
    hide IsTrig, Scene.RingStep, SpokeGap;
    var c, sm, sh := scene.cos(m) * scene.cos(h), scene.sin(m), scene.sin(h);
    LeaningGap(RING_RADIUS, BLOOM_MIN_RADIUS, scene.cos(lean), scene.cos(step), scene.cos(lean - step), c, sm, sh);
    LeaningBounds(sh, sm, sh * sh, sm * sh);
  }

  lemma EndAngles(base: real, count: nat, pi: real)
    requires pi > 0.0 && count >= 2
    ensures ChipAngle(base, count, 0, pi) - base == -(Spread(pi) / 2.0)
    ensures ChipAngle(base, count, count - 1, pi) - base == Spread(pi) / 2.0
  {
    StepTimesGaps(Spread(pi), (count - 1) as real);
  }

  /** An arc of two chips or more that needs no more than its minimum radius puts an end chip within reach
      of the chain next to its own. */
  lemma EndChipReachesNeighbour(scene: Scene) returns (i: nat, k: nat)
    requires Eleven(scene) && |scene.loops| >= 2 && scene.ChipArc().Radius() == BLOOM_MIN_RADIUS
    ensures i < |scene.loops| && k < scene.chains && k != scene.own
    ensures 0.0 < ChipGap(scene, i, RING_RADIUS, scene.RingAngle(k)) < 74.2 * 74.2
  {
    hide IsTrig, Scene.RingAngle, Scene.RingStep, ChipAngle, SpokeGap, Spread;
    var own, n, step, lean := scene.own, |scene.loops|, scene.RingStep(), Spread(scene.pi) / 2.0;
    var base := scene.RingAngle(own);
    PiPositive(scene.sin, scene.cos, scene.pi);
    EndAngles(base, n, scene.pi);
    LeaningDistance(scene);
    if own < 10 {
      i, k := n - 1, own + 1;
      ChainAngle(scene, own, own + 1);
      Mirror(step, scene.sin, scene.cos, scene.pi);
      assert base - scene.RingAngle(k) == -step;
      assert ChipAngle(base, n, i, scene.pi) - scene.RingAngle(k) == lean - step;
    } else {
      i, k := 0, own - 1;
      ChainAngle(scene, own - 1, own);
      Mirror(lean, scene.sin, scene.cos, scene.pi);
      Mirror(lean - step, scene.sin, scene.cos, scene.pi);
      assert base - scene.RingAngle(k) == step;
      assert ChipAngle(base, n, i, scene.pi) - scene.RingAngle(k) == -(lean - step);
    }
  }

  /** So with two protocols or more on a chain, as long as the arc needs no more than its minimum radius,
      the map does not stay still: an end chip and the neighbouring chain push each other. */
  lemma ArcMoves(scene: Scene, focus: Focus, sqrt: SqrtFn)
    requires Eleven(scene) && IsSqrt(sqrt) && |scene.loops| >= 2
    requires scene.ChipArc().Radius() == BLOOM_MIN_RADIUS
    ensures !StaysStill(scene.Bodies(), focus, sqrt)
  {
    var i, k := EndChipReachesNeighbour(scene);
    hide IsTrig, IsSqrt, StaysStill, ChainsRoomy, BitcoinRoomy, ChipGap, Scene.RingAngle;
    assert !ChipClear(ChipGap(scene, i, RING_RADIUS, scene.RingAngle(k)), CHAIN_BODY, scene.loops[i]);
    assert !ChipsClearOf(scene, RING_RADIUS, scene.RingAngle(k), CHAIN_BODY);
    MapStillExactly(scene, focus, sqrt);
  }

  /** Two and three chips never need more. */
  lemma FewChipsNeedNoMore(scene: Scene)
    requires Eleven(scene) && 2 <= |scene.loops| <= 3
    ensures scene.ChipArc().Radius() == BLOOM_MIN_RADIUS
  {
    var arc, pi := scene.ChipArc(), scene.pi;
    PiPositive(scene.sin, scene.cos, pi);
    Sixth(scene.sin, scene.cos, pi);
    FewHalfStep(|scene.loops|, pi);
    SineOrder(pi / 6.0, arc.HalfStep(), scene.sin, scene.cos, pi);
    arc.HalfStepPositive();
    hide IsTrig, Step;
    QuotientBelow(2.0 * CHIP_RADIUS + BLOOM_PADDING, 2.0 * scene.sin(arc.HalfStep()), BLOOM_MIN_RADIUS);
  }

  lemma FewHalfStep(count: nat, pi: real)
    requires pi > 0.0 && 2 <= count <= 3
    ensures pi / 6.0 <= Step(count, pi) / 2.0 <= pi / 2.0
  {
  }

  // ----- coming to rest -----

  /** A body at rest in root focus, moved up to 1.99 from its anchor and let go, stays within 2. */
  lemma ReleasedIsCleared(b: BodyState)
    requires b.Free() && MapMass(b.mass) && b.vx == 0.0 && b.vy == 0.0
    requires Settling.Length2(b.anchorX - b.x, b.anchorY - b.y) <= 1.99 * 1.99
    ensures Settling.Cleared(b, 2.0, Root)
  {
    var l := Settling.Length2(b.anchorX - b.x, b.anchorY - b.y);
    RestingReserve(b);
    var a, k := CoefficientE(Root, b.mass), Stiffness(Root, b.mass);
    assert 1000.0 * a <= 1006.0 * k;
    assert a > 0.0;
    hide CoefficientE, Stiffness, Settling.Reserve, Settling.Length2;
    MulMonotone(a, l, 1.99 * 1.99);
  }

  lemma RestingReserve(b: BodyState)
    requires b.vx == 0.0 && b.vy == 0.0
    ensures Settling.Reserve(b, Root)
         == CoefficientE(Root, b.mass) * Settling.Length2(b.anchorX - b.x, b.anchorY - b.y)
  {
  }

  /** The bodies of a scene without chips, moved about but not held. */
  ghost predicate Displaced(bs: seq<BodyState>, scene: Scene)
    requires scene.Valid()
  {
    && |bs| == |scene.Bodies()|
    && (forall i :: 0 <= i < |bs| ==> bs[i].SameShape(scene.Bodies()[i]) && Settling.Cleared(bs[i], 2.0, Root))
  }

  /** Two bodies on their anchors, far enough apart, leave room for a clearance of 2 each. */
  lemma RoomyFrom(a: BodyState, b: BodyState, rule: Rule)
    requires a.AtRest() && b.AtRest() && a.orbitRadius == 0.0 && b.orbitRadius == 0.0
    requires a.radius >= 0.0 && b.radius >= 0.0
    requires DistanceSquared(Spot(a), Spot(b)) >= Square(a.radius + b.radius + PAD + 4.0)
    ensures Settling.Roomy(rule, a, b, 2.0, 2.0) && Settling.Roomy(rule, b, a, 2.0, 2.0)
  {
    SquareFlips(a.x, b.x);
    SquareFlips(a.y, b.y);
  }

  /** The anchors of any two root bodies leave that room. */
  lemma RootAnchorsRoomy(scene: Scene, rule: Rule, i: nat, j: nat)
    requires Eleven(scene) && scene.loops == [] && i < j < |scene.Bodies()|
    ensures var a, b := scene.Bodies()[i], scene.Bodies()[j];
      Settling.Roomy(rule, a, b, 2.0, 2.0) && Settling.Roomy(rule, b, a, 2.0, 2.0)
  {
    ElevenGaps(scene);
    if i < 11 {
      ChipOnCircle(HUB, RING_RADIUS, scene.RingAngle(i), scene.sin, scene.cos, scene.pi);
      BitcoinGap(scene, i);
      if j < 11 {
        ChainGap(scene, i, j);
      }
    }
    RootBodies(scene);
    hide IsTrig, PolarGap, Chip, Settling.Roomy, Scene.RingAngle, Scene.RingStep;
    var a, b := scene.Bodies()[i], scene.Bodies()[j];
    assert DistanceSquared(Spot(a), Spot(b)) >= Square(a.radius + b.radius + PAD + 4.0) by {
      hide DistanceSquared;
    }
    RoomyFrom(a, b, rule);
  }

  lemma RootBodies(scene: Scene)
    requires Eleven(scene) && scene.loops == []
    ensures |scene.Bodies()| == 13 && scene.Bodies()[11] == BITCOIN && scene.Bodies()[12] == GATEWAY
    ensures forall k :: 0 <= k < 11 ==> scene.Bodies()[k] == scene.ChainAt(k)
  {
    hide IsTrig, Chip;
    assert scene.Bodies() == scene.ChainBodies() + [BITCOIN, GATEWAY];
  }

  lemma RoomyByShape(rule: Rule, a: BodyState, b: BodyState, c: BodyState, d: BodyState)
    requires Settling.Roomy(rule, c, d, 2.0, 2.0) && a.SameShape(c) && b.SameShape(d)
    ensures Settling.Roomy(rule, a, b, 2.0, 2.0)
  {
    hide Settling.Length2;
  }

  /** Whatever the eleven chains and bitcoin were moved to, within their clearance and with nobody held:
      they never touch, and everything comes to rest on its anchor. */
  lemma RootComesToRest(scene: Scene, bs: seq<BodyState>, sqrt: SqrtFn, eps: real) returns (n: nat)
    requires Eleven(scene) && scene.loops == [] && IsSqrt(sqrt) && Displaced(bs, scene) && eps > 0.0
    ensures forall i, m: nat :: 0 <= i < |bs| && !bs[i].Fixed() && m >= n ==>
      Unrest(Substeps(bs, m, TuningFor(Root), sqrt)[i]) <= eps
  {
    hide IsTrig, IsSqrt, Settling.Cleared, Settling.Roomy, Scene.Bodies, Unrest, Substeps;
    var clear := seq(|bs|, i => 2.0);
    forall rule: Rule, i, j | 0 <= i < |bs| && 0 <= j < |bs| && i != j
      ensures Settling.Roomy(rule, bs[i], bs[j], clear[i], clear[j])
    {
      if i < j {
        RootAnchorsRoomy(scene, rule, i, j);
      } else {
        RootAnchorsRoomy(scene, rule, j, i);
      }
      RoomyByShape(rule, bs[i], bs[j], scene.Bodies()[i], scene.Bodies()[j]);
    }
    assert Settling.SpreadOut(bs, clear, Root);
    hide Settling.SpreadOut;
    n := Settling.SpreadOutComesToRest(bs, clear, Root, sqrt, eps);
  }
}
