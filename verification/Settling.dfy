/** When no contact ever happens: bodies whose anchors are far enough apart for the unrest they start
    with (dashboard/public/mindmap.jsx). The condition is one on the first frame only. */
module Settling {
  import opened Prelude
  import opened Bodies
  import opened SolverLaws
  import opened Decay

  // ----- distances in the plane -----

  function Length2(x: real, y: real): real {
    x * x + y * y
  }

  lemma Lagrange(ux: real, uy: real, vx: real, vy: real)
    ensures (ux * vx + uy * vy) * (ux * vx + uy * vy) + (ux * vy - uy * vx) * (ux * vy - uy * vx)
         == Length2(ux, uy) * Length2(vx, vy)
  {
  }

  lemma ProductOfSquares(a: real, b: real)
    ensures (a * a) * (b * b) == (a * b) * (a * b)
  {
  }

  /** The inequality of Cauchy and Schwarz. */
  lemma DotBound(ux: real, uy: real, vx: real, vy: real, a: real, b: real)
    requires a >= 0.0 && b >= 0.0 && Length2(ux, uy) <= a * a && Length2(vx, vy) <= b * b
    ensures ux * vx + uy * vy <= a * b
  {
    Lagrange(ux, uy, vx, vy);
    SquareNonneg(ux * vy - uy * vx);
    Length2Nonneg(ux, uy);
    SquareNonneg(b);
    MulMonotone(Length2(ux, uy), Length2(vx, vy), b * b);
    MulMonotone(b * b, Length2(ux, uy), a * a);
    ProductOfSquares(a, b);
    NonnegProduct(a, b);
    hide Length2;
    RootsGrow(ux * vx + uy * vy, a * b);
  }

  lemma Length2Nonneg(x: real, y: real)
    ensures Length2(x, y) >= 0.0
  {
    SquareNonneg(x);
    SquareNonneg(y);
  }

  lemma Length2OfSum(ux: real, uy: real, vx: real, vy: real)
    ensures Length2(ux + vx, uy + vy) == Length2(ux, uy) + 2.0 * (ux * vx + uy * vy) + Length2(vx, vy)
  {
  }

  lemma SquareOfSum(a: real, b: real)
    ensures (a + b) * (a + b) == a * a + 2.0 * (a * b) + b * b
  {
  }

  /** The triangle inequality, on bounds of the two lengths. */
  lemma Triangle(ux: real, uy: real, vx: real, vy: real, a: real, b: real)
    requires a >= 0.0 && b >= 0.0 && Length2(ux, uy) <= a * a && Length2(vx, vy) <= b * b
    ensures Length2(ux + vx, uy + vy) <= (a + b) * (a + b)
  {
    DotBound(ux, uy, vx, vy, a, b);
    Length2OfSum(ux, uy, vx, vy);
    SquareOfSum(a, b);
    hide Length2;
  }

  lemma Length2Flips(x: real, y: real)
    ensures Length2(-x, -y) == Length2(x, y)
  {
  }

  // ----- room -----

  /** The body is within `c` of its anchor. */
  predicate Near(b: BodyState, c: real) {
    Length2(b.anchorX - b.x, b.anchorY - b.y) <= c * c
  }

  /** The anchors of two bodies leave room for both clearances beyond what `rule` needs. */
  predicate Roomy(rule: Rule, a: BodyState, b: BodyState, ca: real, cb: real) {
    || (rule.Orbit? && a.orbitRadius == 0.0)
    || Reach(rule, a, b) <= 0.0
    || var room := Reach(rule, a, b) + (ca + cb);
       room * room <= Length2(b.anchorX - a.anchorX, b.anchorY - a.anchorY)
  }

  lemma DistSquared(sqrt: SqrtFn, dx: real, dy: real)
    requires IsSqrt(sqrt)
    ensures Dist(sqrt, dx, dy) > 0.0
    ensures Length2(dx, dy) <= Dist(sqrt, dx, dy) * Dist(sqrt, dx, dy)
  {
    Length2Nonneg(dx, dy);
  }

  /** Two bodies near their anchors do not overlap when the anchors are roomy. */
  lemma RoomyIsClear(rule: Rule, a: BodyState, b: BodyState, ca: real, cb: real, sqrt: SqrtFn)
    requires IsSqrt(sqrt) && ca >= 0.0 && cb >= 0.0
    requires Near(a, ca) && Near(b, cb) && Roomy(rule, a, b, ca, cb)
    ensures !Overlap(rule, a, b, sqrt)
  {
    hide Length2, Dist, IsSqrt, Reach;
    var dx, dy := b.x - a.x, b.y - a.y;
    var d, r := Dist(sqrt, dx, dy), Reach(rule, a, b);
    DistSquared(sqrt, dx, dy);
    var ex, ey := b.anchorX - b.x, b.anchorY - b.y;
    var fx, fy := -(a.anchorX - a.x), -(a.anchorY - a.y);
    Length2Flips(a.anchorX - a.x, a.anchorY - a.y);
    if r > 0.0 && (rule.Orbit? ==> a.orbitRadius != 0.0) {
      ApartEnough(dx, dy, ex, ey, fx, fy, b.anchorX - a.anchorX, b.anchorY - a.anchorY, d, r, ca, cb);
    }
  }

  /** Going from `a` to `b` by way of the anchors: the direct way is at least `r` long. */
  lemma ApartEnough(
      dx: real, dy: real, ex: real, ey: real, fx: real, fy: real, gx: real, gy: real,
      d: real, r: real, ca: real, cb: real)
    requires gx == dx + (fx + ex) && gy == dy + (fy + ey)
    requires d >= 0.0 && r > 0.0 && ca >= 0.0 && cb >= 0.0
    requires Length2(dx, dy) <= d * d && Length2(ex, ey) <= cb * cb && Length2(fx, fy) <= ca * ca
    requires (r + (ca + cb)) * (r + (ca + cb)) <= Length2(gx, gy)
    ensures d >= r
  {
    hide Length2;
    Triangle(fx, fy, ex, ey, ca, cb);
    Triangle(dx, dy, fx + ex, fy + ey, d, ca + cb);
    RootsGrow(r + (ca + cb), d + (ca + cb));
  }

  // ----- contact never happens -----

  /** The energy a body starts with, over both axes. */
  function Reserve(b: BodyState, focus: Focus): real {
    EnergyOf(b, TuningFor(focus), X) + EnergyOf(b, TuningFor(focus), Y)
  }

  /** The body is not held, and if it is free its energy does not suffice to carry it further than `c`
      from its anchor. */
  predicate Cleared(b: BodyState, c: real, focus: Focus) {
    && c >= 0.0
    && !b.isDragging
    && (b.Free() ==> MapMass(b.mass) && Reserve(b, focus) <= Stiffness(focus, b.mass) * (c * c))
  }

  /** All anchors leave room for the clearances of both bodies. */
  ghost predicate SpreadOut(bs: seq<BodyState>, clear: seq<real>, focus: Focus) {
    && |clear| == |bs|
    && (forall i :: 0 <= i < |bs| ==> Cleared(bs[i], clear[i], focus))
    && (forall rule: Rule, i, j :: 0 <= i < |bs| && 0 <= j < |bs| && i != j ==>
          Roomy(rule, bs[i], bs[j], clear[i], clear[j]))
  }

  lemma {:induction false} PowerAtMostOne(r: real, n: nat)
    requires 0.0 < r <= 1.0
    ensures 0.0 < Power(r, n) <= 1.0
  {
    if n > 0 {
      PowerAtMostOne(r, n - 1);
      PositiveProduct(r, Power(r, n - 1));
      MulMonotone(Power(r, n - 1), r, 1.0);
    }
  }

  /** A body of a given energy is no further from its anchor than that energy can hold it. */
  lemma ReserveHolds(b: BodyState, c: real, focus: Focus)
    requires MapMass(b.mass) && Reserve(b, focus) <= Stiffness(focus, b.mass) * (c * c)
    ensures Near(b, c)
  {
    EnergyHoldsDistance(PhaseOf(b, X), focus, b.mass);
    EnergyHoldsDistance(PhaseOf(b, Y), focus, b.mass);
    StiffnessPositive(focus, b.mass);
    hide Stiffness, Energy, TuningFor, MapMass;
    var ex, ey := b.anchorX - b.x, b.anchorY - b.y;
    assert Stiffness(focus, b.mass) * (ex * ex + ey * ey)
        == Stiffness(focus, b.mass) * (ex * ex) + Stiffness(focus, b.mass) * (ey * ey);
    MulOrder(Stiffness(focus, b.mass), ex * ex + ey * ey, c * c);
  }

  lemma ReserveNonneg(b: BodyState, focus: Focus)
    requires MapMass(b.mass)
    ensures Reserve(b, focus) >= 0.0
  {
    EnergyHoldsDistance(PhaseOf(b, X), focus, b.mass);
    EnergyHoldsDistance(PhaseOf(b, Y), focus, b.mass);
    StiffnessPositive(focus, b.mass);
    hide Stiffness, Energy, TuningFor, MapMass;
    var ex, ey := b.anchorX - b.x, b.anchorY - b.y;
    SquareNonneg(ex);
    SquareNonneg(ey);
    NonnegProduct(Stiffness(focus, b.mass), ex * ex);
    NonnegProduct(Stiffness(focus, b.mass), ey * ey);
  }

  /** Without contacts the energy never grows. */
  lemma ReserveShrinks(bs: seq<BodyState>, i: nat, n: nat, focus: Focus, sqrt: SqrtFn)
    requires i < |bs| && bs[i].Free() && MapMass(bs[i].mass) && IsolatedFor(bs, i, n, TuningFor(focus), sqrt)
    ensures Reserve(Substeps(bs, n, TuningFor(focus), sqrt)[i], focus) <= Reserve(bs[i], focus)
  {
    hide Power, EnergyOf, Substeps, IsolatedFor, TuningFor, MapMass;
    var t := TuningFor(focus);
    SettlePullBounds(focus);
    EnergyAfter(bs, i, n, t, sqrt, X);
    EnergyAfter(bs, i, n, t, sqrt, Y);
    ReserveNonneg(bs[i], focus);
    RatioBelowOne(focus);
    PowerAtMostOne(Ratio(focus), n);
    var p, ex, ey := Power(Ratio(focus), n), EnergyOf(bs[i], t, X), EnergyOf(bs[i], t, Y);
    MulMonotone(ex + ey, p, 1.0);
    assert p * ex + p * ey == (ex + ey) * p;
  }

  /** While it meets no contact, a body stays within its clearance. */
  lemma StaysNear(bs: seq<BodyState>, i: nat, c: real, n: nat, focus: Focus, sqrt: SqrtFn)
    requires i < |bs| && Cleared(bs[i], c, focus) && IsolatedFor(bs, i, n, TuningFor(focus), sqrt)
    ensures var t := TuningFor(focus); Near(SpringAll(Substeps(bs, n, t, sqrt), t)[i], c)
  {
    hide Substeps, IsolatedFor, Reserve, Length2, MapMass, TuningFor, Stiffness;
    var t := TuningFor(focus);
    RunFrame(bs, n, t, sqrt);
    var after := Substeps(bs, n, t, sqrt)[i];
    SpringStandsStill(after, t, c);
    if bs[i].Fixed() {
      HomeIsNear(after, t, c);
    } else {
      ReserveShrinks(bs, i, n, focus, sqrt);
      ReserveHolds(after, c, focus);
    }
  }

  lemma HomeIsNear(b: BodyState, t: Tuning, c: real)
    requires b.Fixed()
    ensures Near(SpringBody(b, t), c)
  {
    SquareNonneg(c);
  }

  lemma SpringStandsStill(b: BodyState, t: Tuning, c: real)
    ensures !b.Fixed() ==> Near(SpringBody(b, t), c) == Near(b, c)
  {
  }

  /** What the spring passes on has the shape of the first frame, so the anchors are as roomy. */
  lemma RoomyKept(
      bs: seq<BodyState>, rule: Rule, i: nat, j: nat, ci: real, cj: real, n: nat, t: Tuning, sqrt: SqrtFn)
    requires i < |bs| && j < |bs| && Roomy(rule, bs[i], bs[j], ci, cj)
    ensures var now := SpringAll(Substeps(bs, n, t, sqrt), t); Roomy(rule, now[i], now[j], ci, cj)
  {
    RunFrame(bs, n, t, sqrt);
    hide Substeps, Length2;
  }

  lemma ClearNow(bs: seq<BodyState>, clear: seq<real>, i: nat, n: nat, focus: Focus, sqrt: SqrtFn)
    requires IsSqrt(sqrt) && SpreadOut(bs, clear, focus) && i < |bs|
    requires forall j :: 0 <= j < |bs| ==> IsolatedFor(bs, j, n, TuningFor(focus), sqrt)
    ensures var t := TuningFor(focus); Isolated(SpringAll(Substeps(bs, n, t, sqrt), t), i, sqrt)
  {
    var t := TuningFor(focus);
    hide IsolatedFor, Near, Roomy, IsSqrt, Overlap, TuningFor;
    var now := SpringAll(Substeps(bs, n, t, sqrt), t);
    StaysNear(bs, i, clear[i], n, focus, sqrt);
    forall rule: Rule, j | 0 <= j < |bs| && j != i
      ensures !Overlap(rule, now[i], now[j], sqrt) && !Overlap(rule, now[j], now[i], sqrt)
    {
      StaysNear(bs, j, clear[j], n, focus, sqrt);
      RoomyKept(bs, rule, i, j, clear[i], clear[j], n, t, sqrt);
      RoomyKept(bs, rule, j, i, clear[j], clear[i], n, t, sqrt);
      hide SpringAll;
      RoomyIsClear(rule, now[i], now[j], clear[i], clear[j], sqrt);
      RoomyIsClear(rule, now[j], now[i], clear[j], clear[i], sqrt);
    }
  }

  /** Bodies that start spread out never touch, in any mode, for any number of substeps. */
  lemma {:induction false} NeverTouch(bs: seq<BodyState>, clear: seq<real>, n: nat, focus: Focus, sqrt: SqrtFn)
    requires IsSqrt(sqrt) && SpreadOut(bs, clear, focus)
    ensures forall i :: 0 <= i < |bs| ==> IsolatedFor(bs, i, n, TuningFor(focus), sqrt)
  {
    hide SpreadOut, Isolated, SpringAll, IsSqrt, TuningFor;
    if n > 0 {
      NeverTouch(bs, clear, n - 1, focus, sqrt);
      forall i | 0 <= i < |bs|
        ensures IsolatedFor(bs, i, n, TuningFor(focus), sqrt)
      {
        ClearNow(bs, clear, i, n - 1, focus, sqrt);
        assert IsolatedFor(bs, i, n - 1, TuningFor(focus), sqrt);
      }
    }
  }

  /** ... so every free body approaches its anchor geometrically, and never leaves its clearance ... */
  lemma SpreadOutConverges(bs: seq<BodyState>, clear: seq<real>, i: nat, n: nat, focus: Focus, sqrt: SqrtFn)
    requires IsSqrt(sqrt) && SpreadOut(bs, clear, focus) && i < |bs| && !bs[i].Fixed()
    ensures var after := Substeps(bs, n, TuningFor(focus), sqrt)[i];
      && Unrest(after) <= SpreadFactor(focus, bs[i].mass) * (Power(Ratio(focus), n) * Unrest(bs[i]))
      && Near(after, clear[i])
  {
    NeverTouch(bs, clear, n, focus, sqrt);
    hide IsolatedFor, IsSqrt, Unrest, Power, Roomy, Near;
    Converges(bs, i, n, focus, sqrt);
    StaysNear(bs, i, clear[i], n, focus, sqrt);
    RunFrame(bs, n, TuningFor(focus), sqrt);
    SpringStandsStill(Substeps(bs, n, TuningFor(focus), sqrt)[i], TuningFor(focus), clear[i]);
  }

  /** ... and the whole map comes to rest: whatever the tolerance, from some substep on every free
      body is within it. */
  lemma SpreadOutComesToRest(bs: seq<BodyState>, clear: seq<real>, focus: Focus, sqrt: SqrtFn, eps: real)
    returns (n: nat)
    requires IsSqrt(sqrt) && SpreadOut(bs, clear, focus) && eps > 0.0
    ensures forall i, m: nat :: 0 <= i < |bs| && !bs[i].Fixed() && m >= n ==>
      Unrest(Substeps(bs, m, TuningFor(focus), sqrt)[i]) <= eps
  {
    n := RestUpTo(bs, clear, |bs|, focus, sqrt, eps);
  }

  lemma {:induction false} RestUpTo(
      bs: seq<BodyState>, clear: seq<real>, k: nat, focus: Focus, sqrt: SqrtFn, eps: real) returns (n: nat)
    requires IsSqrt(sqrt) && SpreadOut(bs, clear, focus) && eps > 0.0 && k <= |bs|
    ensures forall i, m: nat :: 0 <= i < k && !bs[i].Fixed() && m >= n ==>
      Unrest(Substeps(bs, m, TuningFor(focus), sqrt)[i]) <= eps
  {
    hide IsSqrt, Unrest, Substeps, Roomy;
    n := 0;
    if k > 0 {
      n := RestUpTo(bs, clear, k - 1, focus, sqrt, eps);
      if !bs[k - 1].Fixed() {
        var i := k - 1;
        forall m: nat
          ensures IsolatedFor(bs, i, m, TuningFor(focus), sqrt)
        {
          NeverTouch(bs, clear, m, focus, sqrt);
        }
        var last := ComesToRest(bs, i, focus, sqrt, eps);
        n := if n < last then last else n;
      }
    }
  }
}
