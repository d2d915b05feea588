/** How a free body without contacts settles: an exact decay law for each axis, and geometric
    convergence to the anchor in all three modes (dashboard/public/mindmap.jsx). */
module Decay {
  import opened Prelude
  import opened Bodies
  import opened SolverLaws

  // ----- one axis as a linear map -----

  /** One axis of a body: distance still to go, and velocity. */
  datatype Phase = Phase(e: real, v: real)

  function PhaseOf(b: BodyState, axis: Axis): Phase {
    if axis.X? then Phase(b.anchorX - b.x, b.vx) else Phase(b.anchorY - b.y, b.vy)
  }

  function Advance(p: Phase, k: real, s: real, d: real): Phase {
    Phase((1.0 - s) * (p.e - p.v - k * p.e), d * (p.v + k * p.e))
  }

  /** The quadratic form that every substep scales by exactly (1 - s) * d. */
  function Energy(p: Phase, k: real, s: real, d: real): real {
    d * k * (p.e * p.e) + (d - (1.0 - s) * (1.0 - k)) * (p.e * p.v) + (1.0 - s) * (p.v * p.v)
  }

  /** The signed area spanned by two phases. */
  function Area(p: Phase, q: Phase): real {
    p.e * q.v - p.v * q.e
  }

  lemma EnergyIsArea(p: Phase, k: real, s: real, d: real)
    ensures Energy(p, k, s, d) == Area(p, Advance(p, k, s, d))
  {
    var q := Advance(p, k, s, d);
    var c := 1.0 - s;
    var ee, ev, vv := p.e * p.e, p.e * p.v, p.v * p.v;
    assert p.e * q.v == d * ev + d * k * ee;
    assert p.v * q.e == c * (p.v * (p.e - p.v - k * p.e));
    assert p.v * (p.e - p.v - k * p.e) == (1.0 - k) * ev - vv;
    assert c * ((1.0 - k) * ev - vv) == c * (1.0 - k) * ev - c * vv;
    assert (d - c * (1.0 - k)) * ev == d * ev - c * (1.0 - k) * ev;
  }

  /** `Advance` is linear with determinant (1 - s) * d, so it scales every area by that factor. */
  lemma AdvanceScalesArea(p: Phase, q: Phase, k: real, s: real, d: real)
    ensures Area(Advance(p, k, s, d), Advance(q, k, s, d)) == (1.0 - s) * d * Area(p, q)
  {
    var c := 1.0 - s;
    var a0, a1 := p.e - p.v - k * p.e, p.v + k * p.e;
    var b0, b1 := q.e - q.v - k * q.e, q.v + k * q.e;
    assert (c * a0) * (d * b1) == c * d * (a0 * b1);
    assert (d * a1) * (c * b0) == c * d * (a1 * b0);
    assert a0 + a1 == p.e && b0 + b1 == q.e;
    assert a0 * b1 - a1 * b0 == (p.e - a1) * b1 - a1 * (q.e - b1) == p.e * b1 - a1 * q.e;
    assert p.e * b1 == p.e * q.v + k * (p.e * q.e);
    assert a1 * q.e == p.v * q.e + k * (p.e * q.e);
  }

  lemma EnergyDecays(p: Phase, k: real, s: real, d: real)
    ensures Energy(Advance(p, k, s, d), k, s, d) == (1.0 - s) * d * Energy(p, k, s, d)
  {
    var q := Advance(p, k, s, d);
    EnergyIsArea(p, k, s, d);
    EnergyIsArea(q, k, s, d);
    AdvanceScalesArea(p, q, k, s, d);
  }

  // ----- a free body inside the solver -----

  /** No contact of either rule involves body `i`. */
  ghost predicate Isolated(bs: seq<BodyState>, i: nat, sqrt: SqrtFn)
    requires i < |bs|
  {
    forall rule: Rule, j :: 0 <= j < |bs| && j != i ==>
      !Overlap(rule, bs[i], bs[j], sqrt) && !Overlap(rule, bs[j], bs[i], sqrt)
  }

  lemma ContactSparesIsolated(rule: Rule, bs: seq<BodyState>, i: nat, j: nat, n: nat, t: Tuning, sqrt: SqrtFn)
    requires i < |bs| && j < |bs| && n < |bs| && Isolated(bs, n, sqrt)
    ensures Contact(rule, bs, i, j, t, sqrt)[n] == bs[n]
    ensures Isolated(Contact(rule, bs, i, j, t, sqrt), n, sqrt)
  {
    var after := Contact(rule, bs, i, j, t, sqrt);
    ContactKeepsShape(rule, bs, i, j, t, sqrt);
    if i != j && (n == i || n == j) {
      assert Meet(rule, bs[i], bs[j], t, sqrt) == (bs[i], bs[j]);
    }
    hide Meet;
    assert after[n] == bs[n];
    forall r: Rule, m | 0 <= m < |bs| && m != n
      ensures !Overlap(r, after[n], after[m], sqrt) && !Overlap(r, after[m], after[n], sqrt)
    {
      assert after[m].SameButVelocity(bs[m]);
      assert Overlap(r, after[n], after[m], sqrt) == Overlap(r, bs[n], bs[m], sqrt);
      assert Overlap(r, after[m], after[n], sqrt) == Overlap(r, bs[m], bs[n], sqrt);
    }
  }

  lemma {:induction false} SweepSparesIsolated(
      rule: Rule, bs: seq<BodyState>, i: nat, j: nat, n: nat, t: Tuning, sqrt: SqrtFn)
    requires n < |bs| && Isolated(bs, n, sqrt)
    ensures Sweep(rule, bs, i, j, t, sqrt)[n] == bs[n]
    ensures Isolated(Sweep(rule, bs, i, j, t, sqrt), n, sqrt)
    decreases |bs| - i, |bs| - j
  {
    hide Contact, Isolated;
    if i < |bs| {
      if j >= |bs| {
        SweepSparesIsolated(rule, bs, i + 1, FirstPartner(rule, i + 1), n, t, sqrt);
      } else {
        ContactSparesIsolated(rule, bs, i, j, n, t, sqrt);
        SweepSparesIsolated(rule, Contact(rule, bs, i, j, t, sqrt), i, j + 1, n, t, sqrt);
      }
    }
  }

  lemma ScaledByQuotient(a: real, b: real, m: Mass)
    ensures a * b / m == (b / m) * a
  {
  }

  lemma SettledGap(anchor: real, x: real, v: real, s: real)
    requires s >= 0.0
    ensures anchor - Settle(x + v, anchor, s) == (1.0 - s) * ((anchor - x) - v)
  {
    var gap := anchor - (x + v);
    assert gap - gap * s == (1.0 - s) * gap;
  }

  lemma AxisAdvances(anchor: real, x: real, v: real, m: Mass, t: Tuning)
    requires t.settlePull >= 0.0
    ensures var sprung := Sprung(v, anchor - x, t, m);
      Phase(anchor - Settle(x + sprung, anchor, t.settlePull), Damped(sprung, t))
      == Advance(Phase(anchor - x, v), t.springK / m, t.settlePull, t.damping)
  {
    hide Settle, Advance;
    var sprung := Sprung(v, anchor - x, t, m);
    ScaledByQuotient(anchor - x, t.springK, m);
    SettledGap(anchor, x, sprung, t.settlePull);
    AdvanceOfSprung(anchor - x, v, sprung, t.springK / m, t.settlePull, t.damping);
  }

  lemma AdvanceOfSprung(e: real, v: real, sprung: real, k: real, s: real, d: real)
    requires sprung == v + k * e
    ensures Advance(Phase(e, v), k, s, d) == Phase((1.0 - s) * (e - sprung), sprung * d)
  {
    MulSame(1.0 - s, e - v - k * e, e - sprung);
    MulSame(d, v + k * e, sprung);
  }

  /** Springs, then integration, of a free body: the linear map above on each axis. */
  lemma FreeBodyAdvances(b: BodyState, t: Tuning, axis: Axis)
    requires b.Free() && t.settlePull >= 0.0
    ensures PhaseOf(IntegrateBody(SpringBody(b, t), t), axis)
         == Advance(PhaseOf(b, axis), t.springK / b.mass, t.settlePull, t.damping)
  {
    hide Settle, Advance, Sprung, Damped;
    AxisAdvances(b.anchorX, b.x, b.vx, b.mass, t);
    AxisAdvances(b.anchorY, b.y, b.vy, b.mass, t);
  }

  lemma IsolatedSubstep(bs: seq<BodyState>, i: nat, t: Tuning, sqrt: SqrtFn, axis: Axis)
    requires i < |bs| && bs[i].Free() && t.settlePull >= 0.0
    requires Isolated(SpringAll(bs, t), i, sqrt)
    ensures PhaseOf(Substep(bs, t, sqrt)[i], axis)
         == Advance(PhaseOf(bs[i], axis), t.springK / bs[i].mass, t.settlePull, t.damping)
  {
    var sprung := SpringAll(bs, t);
    var pushed := SweepAll(Pairwise, sprung, t, sqrt);
    SweepSparesIsolated(Pairwise, sprung, 0, FirstPartner(Pairwise, 0), i, t, sqrt);
    SweepSparesIsolated(Orbit, pushed, 0, FirstPartner(Orbit, 0), i, t, sqrt);
    hide Contact, Isolated, Advance;
    FreeBodyAdvances(bs[i], t, axis);
  }

  /** Body `i` meets no contact during the first `n` substeps. */
  ghost predicate IsolatedFor(bs: seq<BodyState>, i: nat, n: nat, t: Tuning, sqrt: SqrtFn)
    requires i < |bs|
  {
    forall m: nat :: m < n ==> Isolated(SpringAll(Substeps(bs, m, t, sqrt), t), i, sqrt)
  }

  function Power(r: real, n: nat): real {
    if n == 0 then 1.0 else r * Power(r, n - 1)
  }

  function EnergyOf(b: BodyState, t: Tuning, axis: Axis): real {
    Energy(PhaseOf(b, axis), t.springK / b.mass, t.settlePull, t.damping)
  }

  function RatioOf(t: Tuning): real {
    (1.0 - t.settlePull) * t.damping
  }

  lemma EnergyStep(bs: seq<BodyState>, i: nat, t: Tuning, sqrt: SqrtFn, axis: Axis)
    requires i < |bs| && bs[i].Free() && t.settlePull >= 0.0
    requires Isolated(SpringAll(bs, t), i, sqrt)
    ensures EnergyOf(Substep(bs, t, sqrt)[i], t, axis) == RatioOf(t) * EnergyOf(bs[i], t, axis)
  {
    hide Energy, Advance, Isolated, PhaseOf;
    IsolatedSubstep(bs, i, t, sqrt, axis);
    SubstepFrame(bs, t, sqrt);
    hide Substep;
    EnergyDecays(PhaseOf(bs[i], axis), t.springK / bs[i].mass, t.settlePull, t.damping);
  }

  lemma PowerStep(r: real, n: nat, q: real)
    requires n > 0
    ensures r * (Power(r, n - 1) * q) == Power(r, n) * q
  {
    var p := Power(r, n - 1);
    assert r * (p * q) == (r * p) * q;
  }

  /** The decay law over any number of substeps: not a bound, an equality. */
  lemma {:induction false} EnergyAfter(bs: seq<BodyState>, i: nat, n: nat, t: Tuning, sqrt: SqrtFn, axis: Axis)
    requires i < |bs| && bs[i].Free() && t.settlePull >= 0.0
    requires IsolatedFor(bs, i, n, t, sqrt)
    ensures EnergyOf(Substeps(bs, n, t, sqrt)[i], t, axis) == Power(RatioOf(t), n) * EnergyOf(bs[i], t, axis)
  {
    hide EnergyOf, Substep, Isolated, RatioOf;
    if n > 0 {
      var before := Substeps(bs, n - 1, t, sqrt);
      EnergyAfter(bs, i, n - 1, t, sqrt, axis);
      RunFrame(bs, n - 1, t, sqrt);
      EnergyStep(before, i, t, sqrt, axis);
      PowerStep(RatioOf(t), n, EnergyOf(bs[i], t, axis));
    }
  }

  // ----- positive definiteness -----

  function Norm(p: Phase): real {
    p.e * p.e + p.v * p.v
  }

  lemma QuadraticNonneg(a: real, b: real, c: real, p: Phase)
    requires a > 0.0 && b * b <= 4.0 * a * c
    ensures a * (p.e * p.e) + b * (p.e * p.v) + c * (p.v * p.v) >= 0.0
  {
    CompleteSquare(a, b, c, p.e, p.v);
    SquareNonneg(2.0 * a * p.e + b * p.v);
    SquareNonneg(p.v);
    NonnegProduct(4.0 * a * c - b * b, p.v * p.v);
    MulOrder(4.0 * a, 0.0, a * (p.e * p.e) + b * (p.e * p.v) + c * (p.v * p.v));
  }

  lemma CompleteSquare(a: real, b: real, c: real, e: real, v: real)
    ensures 4.0 * a * (a * (e * e) + b * (e * v) + c * (v * v))
         == (2.0 * a * e + b * v) * (2.0 * a * e + b * v) + (4.0 * a * c - b * b) * (v * v)
  {
  }

  /** The masses the map gives to chips (1) and chains (3); the gateway (5) is fixed. */
  predicate MapMass(m: Mass) {
    m == 1.0 || m == 3.0
  }

  function SpringRate(focus: Focus, m: Mass): real {
    TuningFor(focus).springK / m
  }

  /** The energy of a body lies between these two multiples of its squared distance and speed. */
  function Lower(focus: Focus, m: Mass): real {
    match focus
    case Root => if m == 1.0 then 0.09 else 0.03
    case ChainFocus => if m == 1.0 then 0.033 else 0.009
    case ProtocolFocus => if m == 1.0 then 0.01 else 0.0006
  }

  function Upper(focus: Focus): real {
    match focus
    case Root => 1.001
    case ChainFocus => 0.93
    case ProtocolFocus => 0.83
  }

  lemma LowerPositive(focus: Focus, m: Mass)
    ensures Lower(focus, m) > 0.0 && Upper(focus) > 0.0
  {
  }

  lemma SettlePullBounds(focus: Focus)
    ensures 0.0 <= TuningFor(focus).settlePull < 1.0
  {
  }

  /** The energy as a quadratic form in mode `focus`, for mass `m`. */
  function CoefficientE(focus: Focus, m: Mass): real {
    TuningFor(focus).damping * SpringRate(focus, m)
  }

  function CoefficientEV(focus: Focus, m: Mass): real {
    TuningFor(focus).damping - (1.0 - TuningFor(focus).settlePull) * (1.0 - SpringRate(focus, m))
  }

  function CoefficientV(focus: Focus): real {
    1.0 - TuningFor(focus).settlePull
  }

  /** In every mode the energy of a body is trapped between two multiples of its squared
      distance and speed, so it is positive definite. */
  lemma EnergyBounds(p: Phase, focus: Focus, m: Mass)
    requires MapMass(m)
    ensures var t := TuningFor(focus);
      Lower(focus, m) * Norm(p) <= Energy(p, SpringRate(focus, m), t.settlePull, t.damping) <= Upper(focus) * Norm(p)
  {
    var low, high := Lower(focus, m), Upper(focus);
    var a, b, c := CoefficientE(focus, m), CoefficientEV(focus, m), CoefficientV(focus);
    assert a > low && b * b <= 4.0 * (a - low) * (c - low);
    assert high > a && (-b) * (-b) <= 4.0 * (high - a) * (high - c);
    hide Lower, Upper, CoefficientE, CoefficientEV, CoefficientV;
    QuadraticNonneg(a - low, b, c - low, p);
    QuadraticNonneg(high - a, -b, high - c, p);
    FormDifference(a, b, c, low, p);
    FormDifference(a, b, c, high, p);
  }

  lemma FormDifference(a: real, b: real, c: real, r: real, p: Phase)
    ensures var form := a * (p.e * p.e) + b * (p.e * p.v) + c * (p.v * p.v);
      && (a - r) * (p.e * p.e) + b * (p.e * p.v) + (c - r) * (p.v * p.v) == form - r * Norm(p)
      && (r - a) * (p.e * p.e) + (-b) * (p.e * p.v) + (r - c) * (p.v * p.v) == r * Norm(p) - form
  {
  }

  /** How much energy it takes at least to be one unit away from the anchor on an axis. */
  function Stiffness(focus: Focus, m: Mass): real {
    var q := CoefficientEV(focus, m) / (2.0 * CoefficientV(focus));
    CoefficientE(focus, m) - CoefficientV(focus) * (q * q)
  }

  lemma StiffnessPositive(focus: Focus, m: Mass)
    requires MapMass(m)
    ensures Stiffness(focus, m) > 0.0
  {
    match focus
    case Root =>
    case ChainFocus =>
    case ProtocolFocus =>
  }

  lemma CompleteAxis(a: real, c: real, q: real, e: real, v: real)
    ensures a * (e * e) + 2.0 * c * q * (e * v) + c * (v * v)
         == (a - c * (q * q)) * (e * e) + c * ((v + q * e) * (v + q * e))
  {
  }

  /** The energy bounds the distance, whatever the speed. */
  lemma EnergyHoldsDistance(p: Phase, focus: Focus, m: Mass)
    ensures var t := TuningFor(focus);
      Energy(p, SpringRate(focus, m), t.settlePull, t.damping) >= Stiffness(focus, m) * (p.e * p.e)
  {
    var a, b, c := CoefficientE(focus, m), CoefficientEV(focus, m), CoefficientV(focus);
    assert c > 0.0;
    var q := b / (2.0 * c);
    QuotientTimes(b, 2.0 * c);
    hide CoefficientE, CoefficientEV, CoefficientV;
    CompleteAxis(a, c, q, p.e, p.v);
    SquareNonneg(p.v + q * p.e);
    NonnegProduct(c, (p.v + q * p.e) * (p.v + q * p.e));
  }

  // ----- convergence -----

  /** Squared distance from the anchor plus squared speed, over both axes. */
  function Unrest(b: BodyState): real {
    Norm(PhaseOf(b, X)) + Norm(PhaseOf(b, Y))
  }

  lemma UnrestNonneg(b: BodyState)
    ensures Unrest(b) >= 0.0
  {
    SquareNonneg(b.anchorX - b.x);
    SquareNonneg(b.anchorY - b.y);
    SquareNonneg(b.vx);
    SquareNonneg(b.vy);
  }

  function Ratio(focus: Focus): real {
    RatioOf(TuningFor(focus))
  }

  /** The three modes in numbers: how hard contacts push, how hard springs pull, what speed remains, how
      far a body is drawn to its anchor; and what share of the energy is left after a substep. */
  lemma ModesByNumbers()
    ensures TuningFor(Root) == Tuning(0.3, 0.1, 0.94, 0.0) && Ratio(Root) == 0.94
    ensures TuningFor(ChainFocus) == Tuning(0.102, 0.042, 0.82, 0.08) && Ratio(ChainFocus) == 0.7544
    ensures TuningFor(ProtocolFocus) == Tuning(0.048, 0.02, 0.7, 0.18) && Ratio(ProtocolFocus) == 0.574
  {
  }

  lemma RatioBelowOne(focus: Focus)
    ensures 0.0 < Ratio(focus) < 1.0
  {
  }

  function SpreadFactor(focus: Focus, m: Mass): real {
    Upper(focus) / Lower(focus, m)
  }

  /** Geometric convergence from any start, over any number of substeps. */
  lemma Converges(bs: seq<BodyState>, i: nat, n: nat, focus: Focus, sqrt: SqrtFn)
    requires i < |bs| && bs[i].Free() && MapMass(bs[i].mass)
    requires IsolatedFor(bs, i, n, TuningFor(focus), sqrt)
    ensures Unrest(Substeps(bs, n, TuningFor(focus), sqrt)[i])
         <= SpreadFactor(focus, bs[i].mass) * (Power(Ratio(focus), n) * Unrest(bs[i]))
  {
    hide Norm, PhaseOf, Power, Substeps, SpreadFactor;
    AxisConverges(bs, i, n, focus, sqrt, X);
    AxisConverges(bs, i, n, focus, sqrt, Y);
    Regroup(SpreadFactor(focus, bs[i].mass), Power(Ratio(focus), n), Norm(PhaseOf(bs[i], X)), Norm(PhaseOf(bs[i], Y)));
  }

  lemma Regroup(f: real, r: real, a: real, b: real)
    ensures f * (r * (a + b)) == f * (r * a) + f * (r * b)
  {
  }

  lemma AxisConverges(bs: seq<BodyState>, i: nat, n: nat, focus: Focus, sqrt: SqrtFn, axis: Axis)
    requires i < |bs| && bs[i].Free() && MapMass(bs[i].mass)
    requires IsolatedFor(bs, i, n, TuningFor(focus), sqrt)
    ensures Norm(PhaseOf(Substeps(bs, n, TuningFor(focus), sqrt)[i], axis))
         <= SpreadFactor(focus, bs[i].mass) * (Power(Ratio(focus), n) * Norm(PhaseOf(bs[i], axis)))
  {
    hide Norm, PhaseOf, Power, Substeps, IsolatedFor, EnergyOf, Upper, Lower, TuningFor, MapMass, Ratio, Scaled;
    var t := TuningFor(focus);
    var b, after := bs[i], Substeps(bs, n, t, sqrt)[i];
    RunFrame(bs, n, t, sqrt);
    RatioBelowOne(focus);
    SettlePullBounds(focus);
    LowerPositive(focus, b.mass);
    PowerPositive(Ratio(focus), n);
    DecaysBy(bs, i, n, focus, sqrt, axis);
    EnergyBetween(b, focus, axis);
    EnergyBetween(after, focus, axis);
    Squeeze(Upper(focus), Lower(focus, b.mass), SpreadFactor(focus, b.mass), Power(Ratio(focus), n),
            Norm(PhaseOf(b, axis)), EnergyOf(b, t, axis), Norm(PhaseOf(after, axis)));
  }

  function Scaled(a: real, b: real): real {
    a * b
  }

  lemma DecaysBy(bs: seq<BodyState>, i: nat, n: nat, focus: Focus, sqrt: SqrtFn, axis: Axis)
    requires i < |bs| && bs[i].Free() && IsolatedFor(bs, i, n, TuningFor(focus), sqrt)
    ensures var t := TuningFor(focus);
      EnergyOf(Substeps(bs, n, t, sqrt)[i], t, axis) == Scaled(Power(Ratio(focus), n), EnergyOf(bs[i], t, axis))
  {
    SettlePullBounds(focus);
    hide Substeps, IsolatedFor, EnergyOf, Power, TuningFor, RatioOf;
    EnergyAfter(bs, i, n, TuningFor(focus), sqrt, axis);
  }

  lemma EnergyBetween(b: BodyState, focus: Focus, axis: Axis)
    requires MapMass(b.mass)
    ensures Scaled(Lower(focus, b.mass), Norm(PhaseOf(b, axis))) <= EnergyOf(b, TuningFor(focus), axis)
         <= Scaled(Upper(focus), Norm(PhaseOf(b, axis)))
  {
    hide Norm, PhaseOf, Energy, Upper, Lower, TuningFor, MapMass;
    EnergyBounds(PhaseOf(b, axis), focus, b.mass);
  }

  lemma Squeeze(upper: real, lower: real, f: real, r: real, start: real, energy: real, end: real)
    requires r > 0.0 && lower > 0.0 && f == upper / lower
    requires energy <= Scaled(upper, start) && Scaled(lower, end) <= Scaled(r, energy)
    ensures end <= f * (r * start)
  {
    MulMonotone(r, energy, upper * start);
    QuotientTimes(upper, lower);
    assert r * (upper * start) == upper * (r * start);
    Swap(lower, f, r * start);
    assert (lower * f) * (r * start) == lower * (f * (r * start));
    MulOrder(lower, end, f * (r * start));
  }

  lemma {:induction false} PowerPositive(r: real, n: nat)
    requires r > 0.0
    ensures Power(r, n) > 0.0
  {
    if n > 0 {
      PowerPositive(r, n - 1);
    }
  }

  /** Bernoulli's inequality, in the form that bounds powers of a ratio below 1. */
  lemma {:induction false} PowerBound(r: real, n: nat)
    requires 0.0 < r < 1.0
    ensures Power(r, n) * (1.0 + n as real * (1.0 - r)) <= 1.0
  {
    if n > 0 {
      PowerBound(r, n - 1);
      PowerPositive(r, n - 1);
      var p, q, m := Power(r, n - 1), 1.0 - r, (n - 1) as real;
      assert n as real == m + 1.0;
      assert r * (1.0 + (m + 1.0) * q) == (1.0 + m * q) - (m + 1.0) * (q * q) by {
        assert (1.0 - q) * (1.0 + (m + 1.0) * q) == 1.0 + (m + 1.0) * q - q - (m + 1.0) * (q * q);
      }
      assert q * q >= 0.0;
      assert (m + 1.0) * (q * q) >= 0.0;
      MulMonotone(p, r * (1.0 + (m + 1.0) * q), 1.0 + m * q);
      assert (r * p) * (1.0 + (m + 1.0) * q) == p * (r * (1.0 + (m + 1.0) * q));
    }
  }

  lemma PowerVanishes(r: real, bound: real, eps: real) returns (n: nat)
    requires 0.0 < r < 1.0 && bound >= 0.0 && eps > 0.0
    ensures forall m: nat :: m >= n ==> bound * Power(r, m) <= eps
  {
    var slope := eps * (1.0 - r);
    assert slope > 0.0;
    var need := bound / slope;
    assert need >= 0.0;
    n := need.Floor + 1;
    forall m: nat | m >= n
      ensures bound * Power(r, m) <= eps
    {
      assert need <= m as real;
      MulMonotone(slope, need, m as real);
      PowerBelow(r, m, bound, eps);
    }
  }

  lemma PowerBelow(r: real, m: nat, bound: real, eps: real)
    requires 0.0 < r < 1.0 && eps > 0.0
    requires bound <= eps * (1.0 - r) * m as real
    ensures bound * Power(r, m) <= eps
  {
    PowerBound(r, m);
    PowerPositive(r, m);
    hide Power;
    var q := m as real * (1.0 - r);
    Swap(eps, 1.0 - r, m as real);
    Trap(Power(r, m), q, bound, eps);
  }

  lemma Swap(a: real, b: real, c: real)
    ensures a * b * c == a * (c * b)
  {
  }

  lemma Trap(p: real, q: real, bound: real, eps: real)
    requires p > 0.0 && eps > 0.0 && p * (1.0 + q) <= 1.0 && bound <= eps * q
    ensures bound * p <= eps
  {
    MulMonotone(p, bound, eps * q);
    assert p * (eps * q) == eps * (p * q);
    assert p * q <= 1.0;
    MulMonotone(eps, p * q, 1.0);
  }

  /** A free body that meets no contact comes to rest on its anchor: whatever the tolerance, it
      stays within it from some substep on. */
  lemma ComesToRest(bs: seq<BodyState>, i: nat, focus: Focus, sqrt: SqrtFn, eps: real) returns (n: nat)
    requires i < |bs| && bs[i].Free() && MapMass(bs[i].mass) && eps > 0.0
    requires forall m: nat :: IsolatedFor(bs, i, m, TuningFor(focus), sqrt)
    ensures forall m: nat :: m >= n ==> Unrest(Substeps(bs, m, TuningFor(focus), sqrt)[i]) <= eps
  {
    hide Unrest, Power, Substeps, IsolatedFor, TuningFor;
    var factor := SpreadFactor(focus, bs[i].mass);
    var bound := factor * Unrest(bs[i]);
    UnrestNonneg(bs[i]);
    NonnegProduct(factor, Unrest(bs[i]));
    RatioBelowOne(focus);
    n := PowerVanishes(Ratio(focus), bound, eps);
    forall m: nat | m >= n
      ensures Unrest(Substeps(bs, m, TuningFor(focus), sqrt)[i]) <= eps
    {
      Converges(bs, i, m, focus, sqrt);
      Swap(factor, Unrest(bs[i]), Power(Ratio(focus), m));
    }
  }
}
