/** The converse of settling (dashboard/public/mindmap.jsx): a layout at rest that any two bodies push
    apart does move. The proof adds up, over all free bodies, how fast they move away from the one
    fixed spot; every push raises that sum. */
module Stillness {
  import opened Prelude
  import opened Bodies
  import opened SolverLaws
  import opened Contacts

  // ----- how fast everything moves away from one spot -----

  function Dot(ux: real, uy: real, vx: real, vy: real): real {
    ux * vx + uy * vy
  }

  /** Momentum along the position as seen from `g`; a fixed body counts for nothing. */
  function Outward(b: BodyState, g: Point): real {
    if b.Fixed() then 0.0 else b.mass * Dot(b.vx, b.vy, b.x - g.x, b.y - g.y)
  }

  function TotalOutward(bs: seq<BodyState>, g: Point): real {
    if bs == [] then 0.0 else Outward(bs[0], g) + TotalOutward(bs[1..], g)
  }

  lemma {:induction false} OutwardUpdate(bs: seq<BodyState>, i: nat, b: BodyState, g: Point)
    requires i < |bs|
    ensures TotalOutward(bs[i := b], g) == TotalOutward(bs, g) - Outward(bs[i], g) + Outward(b, g)
  {
    hide Outward;
    if i == 0 {
      assert bs[i := b][1..] == bs[1..];
    } else {
      assert bs[i := b][1..] == bs[1..][i - 1 := b];
      OutwardUpdate(bs[1..], i - 1, b, g);
    }
  }

  /** The body is not held, and if it is fixed it stands at `g`. */
  predicate Loose(b: BodyState, g: Point) {
    !b.isDragging && (b.Fixed() ==> b.x == g.x && b.y == g.y)
  }

  /** An impulse changes the outward momentum by its component along the position. */
  lemma KickOutward(b: BodyState, ix: real, iy: real, g: Point)
    requires Loose(b, g)
    ensures Outward(KickForward(b, ix, iy), g) == Outward(b, g) + Dot(ix, iy, b.x - g.x, b.y - g.y)
    ensures Outward(KickBack(b, ix, iy), g) == Outward(b, g) - Dot(ix, iy, b.x - g.x, b.y - g.y)
  {
    hide Dot;
    if b.Fixed() {
      DotAtOrigin(ix, iy);
    } else {
      KickDot(b.mass, b.vx, b.vy, ix, iy, b.x - g.x, b.y - g.y);
    }
  }

  lemma DotAtOrigin(ux: real, uy: real)
    ensures Dot(ux, uy, 0.0, 0.0) == 0.0
  {
  }

  lemma KickDot(m: Mass, vx: real, vy: real, ix: real, iy: real, dx: real, dy: real)
    ensures m * Dot(vx + ix / m, vy + iy / m, dx, dy) == m * Dot(vx, vy, dx, dy) + Dot(ix, iy, dx, dy)
    ensures m * Dot(vx - ix / m, vy - iy / m, dx, dy) == m * Dot(vx, vy, dx, dy) - Dot(ix, iy, dx, dy)
  {
    QuotientTimes(ix, m);
    QuotientTimes(iy, m);
    DotShift(m, vx, vy, ix / m, iy / m, dx, dy);
    DotScales(m, ix / m, iy / m, dx, dy);
    hide Dot;
  }

  lemma DotShift(m: real, vx: real, vy: real, ux: real, uy: real, dx: real, dy: real)
    ensures m * Dot(vx + ux, vy + uy, dx, dy) == m * Dot(vx, vy, dx, dy) + m * Dot(ux, uy, dx, dy)
    ensures m * Dot(vx - ux, vy - uy, dx, dy) == m * Dot(vx, vy, dx, dy) - m * Dot(ux, uy, dx, dy)
  {
  }

  lemma DotScales(m: real, ux: real, uy: real, dx: real, dy: real)
    ensures m * Dot(ux, uy, dx, dy) == Dot(m * ux, m * uy, dx, dy)
  {
  }

  lemma DotDifference(ix: real, iy: real, ax: real, ay: real, cx: real, cy: real)
    ensures Dot(ix, iy, cx, cy) - Dot(ix, iy, ax, ay) == Dot(ix, iy, cx - ax, cy - ay)
  {
  }

  /** Sharing an impulse works along the line between the two bodies. */
  lemma ShareOutward(a: BodyState, b: BodyState, ix: real, iy: real, g: Point)
    requires Loose(a, g) && Loose(b, g)
    ensures var m := Share(a, b, ix, iy);
      Outward(m.0, g) + Outward(m.1, g) == Outward(a, g) + Outward(b, g) + Dot(ix, iy, b.x - a.x, b.y - a.y)
  {
    hide Outward, KickForward, KickBack, Dot;
    KickOutward(a, ix, iy, g);
    KickOutward(b, ix, iy, g);
    DotDifference(ix, iy, a.x - g.x, a.y - g.y, b.x - g.x, b.y - g.y);
    assert (b.x - g.x) - (a.x - g.x) == b.x - a.x && (b.y - g.y) - (a.y - g.y) == b.y - a.y;
  }

  /** What a contact adds to how fast everything moves outwards. */
  function Work(rule: Rule, a: BodyState, b: BodyState, k: real, sqrt: SqrtFn): real {
    Strength(rule, a, b, k, Gap(a, b, sqrt)) * Gap(a, b, sqrt)
  }

  /** A contact adds its strength times the distance to the outward momentum of its two bodies. */
  lemma MeetOutward(rule: Rule, a: BodyState, b: BodyState, t: Tuning, sqrt: SqrtFn, g: Point)
    requires IsSqrt(sqrt) && Loose(a, g) && Loose(b, g)
    ensures var m := Meet(rule, a, b, t, sqrt);
      Outward(m.0, g) + Outward(m.1, g) == Outward(a, g) + Outward(b, g) + Work(rule, a, b, t.repulsionK, sqrt)
  {
    hide Outward, Component, Strength, Gap, Dist, IsSqrt, Share, Loose, Dot, Meet;
    var dx, dy, d := b.x - a.x, b.y - a.y, Gap(a, b, sqrt);
    var strength := Strength(rule, a, b, t.repulsionK, d);
    MeetShares(rule, a, b, t, sqrt);
    ShareOutward(a, b, 0.0, 0.0, g);
    DotOfNothing(dx, dy);
    if d != 0.0 {
      ShareOutward(a, b, Component(strength, dx, d), Component(strength, dy, d), g);
      GapSquared(a, b, sqrt, dx, dy, d);
      PushWorks(strength, dx, dy, d);
    }
  }

  lemma DotOfNothing(dx: real, dy: real)
    ensures Dot(0.0, 0.0, dx, dy) == 0.0
  {
  }

  lemma GapSquared(a: BodyState, b: BodyState, sqrt: SqrtFn, dx: real, dy: real, d: real)
    requires IsSqrt(sqrt) && dx == b.x - a.x && dy == b.y - a.y && d == Gap(a, b, sqrt)
    ensures Squared(d) == Squared(dx) + Squared(dy)
  {
    SquareNonneg(dx);
    SquareNonneg(dy);
  }

  function Squared(a: real): real {
    a * a
  }

  /** An impulse along (dx, dy) works along (dx, dy). */
  lemma PushWorks(strength: real, dx: real, dy: real, d: real)
    requires d != 0.0 && Squared(d) == Squared(dx) + Squared(dy)
    ensures Dot(Component(strength, dx, d), Component(strength, dy, d), dx, dy) == strength * d
  {
    var ux, uy := dx / d, dy / d;
    QuotientTimes(dx, d);
    QuotientTimes(dy, d);
    UnitLine(dx, dy, ux, uy, d);
    WorkOnUnit(strength, dx, dy, ux, uy, d);
  }

  lemma WorkOnUnit(strength: real, dx: real, dy: real, ux: real, uy: real, d: real)
    requires dx == d * ux && dy == d * uy && ux * ux + uy * uy == 1.0
    ensures Dot(strength * ux, strength * uy, dx, dy) == strength * d
  {
    assert strength * ux * (d * ux) + strength * uy * (d * uy) == strength * d * (ux * ux + uy * uy);
  }

  lemma UnitLine(dx: real, dy: real, ux: real, uy: real, d: real)
    requires d != 0.0 && dx == d * ux && dy == d * uy && Squared(d) == Squared(dx) + Squared(dy)
    ensures ux * ux + uy * uy == 1.0
  {
    PositiveSquare(d);
    SquareOfProduct(dx, d, ux);
    SquareOfProduct(dy, d, uy);
    hide Squared;
    SameFactor(Squared(d), ux * ux + uy * uy, 1.0);
  }

  lemma SquareOfProduct(p: real, d: real, u: real)
    requires p == d * u
    ensures Squared(p) == Squared(d) * (u * u)
  {
  }

  lemma PositiveSquare(d: real)
    requires d != 0.0
    ensures Squared(d) > 0.0
  {
    SquareNonneg(d);
    SquareZero(d);
  }

  lemma SameFactor(m: real, a: real, b: real)
    requires m > 0.0 && m * a == m * b
    ensures a == b
  {
    MulOrder(m, a, b);
    MulOrder(m, b, a);
  }

  /** The work is never negative, and positive exactly when the pair pushes. */
  lemma WorkPositive(rule: Rule, a: BodyState, b: BodyState, k: real, sqrt: SqrtFn)
    requires IsSqrt(sqrt) && k > 0.0
    ensures Work(rule, a, b, k, sqrt) >= 0.0
    ensures Work(rule, a, b, k, sqrt) > 0.0 <==> Pushes(rule, a, b, sqrt)
  {
    var d := Gap(a, b, sqrt);
    GapMeans(a, b, sqrt);
    StrengthPositive(rule, a, b, k, d);
    if a.x == b.x && a.y == b.y {
      GapSquared(a, b, sqrt, 0.0, 0.0, d);
      SquareZero(d);
    }
    ProductSign(Strength(rule, a, b, k, d), d);
    hide IsSqrt, Strength, Dist, Gap, Squared;
  }

  lemma ProductSign(a: real, b: real)
    requires a >= 0.0 && b >= 0.0
    ensures a * b >= 0.0 && (a * b > 0.0 <==> a > 0.0 && b > 0.0)
  {
    if a > 0.0 && b > 0.0 {
      PositiveProduct(a, b);
    }
  }

  lemma StrengthPositive(rule: Rule, a: BodyState, b: BodyState, k: real, d: real)
    requires k > 0.0
    ensures Strength(rule, a, b, k, d) >= 0.0
    ensures Strength(rule, a, b, k, d) > 0.0 <==> (rule.Orbit? ==> a.orbitRadius != 0.0) && d < Reach(rule, a, b)
  {
    if d < Reach(rule, a, b) {
      if rule.Orbit? ==> a.orbitRadius != 0.0 { StrengthBelow(rule, a, b, k, d); }
      PositiveProduct(k, Reach(rule, a, b) - d);
    } else {
      NoStrength(rule, a, b, k, d);
    }
    if rule.Orbit? && a.orbitRadius == 0.0 {
      NoStrength(rule, a, b, k, d);
    }
    hide Strength;
  }

  lemma StrengthBelow(rule: Rule, a: BodyState, b: BodyState, k: real, d: real)
    requires (rule.Orbit? ==> a.orbitRadius != 0.0) && d < Reach(rule, a, b)
    ensures var push := k * (Reach(rule, a, b) - d);
      Strength(rule, a, b, k, d) == if rule.Pairwise? then push else 1.5 * push
  {
  }

  // ----- the contact loops -----

  ghost predicate AllLoose(bs: seq<BodyState>, g: Point) {
    forall i :: 0 <= i < |bs| ==> Loose(bs[i], g)
  }

  /** A contact keeps where the bodies stand, so it keeps who pushes whom. */
  lemma ContactKeepsPushes(rule: Rule, bs: seq<BodyState>, i: nat, j: nat, t: Tuning, sqrt: SqrtFn, g: Point)
    requires i < |bs| && j < |bs| && AllLoose(bs, g)
    ensures var after := Contact(rule, bs, i, j, t, sqrt);
      && AllLoose(after, g)
      && (forall p, q :: 0 <= p < |bs| && 0 <= q < |bs| ==>
            Pushes(rule, after[p], after[q], sqrt) == Pushes(rule, bs[p], bs[q], sqrt))
  {
    ContactKeepsShape(rule, bs, i, j, t, sqrt);
    hide Contact;
  }

  lemma ContactOutward(rule: Rule, bs: seq<BodyState>, i: nat, j: nat, t: Tuning, sqrt: SqrtFn, g: Point)
    requires IsSqrt(sqrt) && i < |bs| && j < |bs| && AllLoose(bs, g)
    ensures TotalOutward(Contact(rule, bs, i, j, t, sqrt), g)
         == TotalOutward(bs, g) + if i == j then 0.0 else Work(rule, bs[i], bs[j], t.repulsionK, sqrt)
  {
    if i != j {
      MeetOutward(rule, bs[i], bs[j], t, sqrt, g);
      hide Meet, Outward, Work, IsSqrt;
      var (a, b) := Meet(rule, bs[i], bs[j], t, sqrt);
      OutwardUpdate(bs, i, a, g);
      OutwardUpdate(bs[i := a], j, b, g);
    }
  }

  /** The loop at (i, j) still visits the pair (p, q). */
  predicate Ahead(rule: Rule, i: nat, j: nat, p: nat, q: nat) {
    (p == i && q >= j) || (p > i && q >= FirstPartner(rule, p))
  }

  /** The work of all pairs the loop at (i, j) still visits, where the bodies stand. */
  function WorkAhead(rule: Rule, bs: seq<BodyState>, i: nat, j: nat, k: real, sqrt: SqrtFn): real
    decreases |bs| - i, |bs| - j
  {
    if i >= |bs| then 0.0
    else if j >= |bs| then WorkAhead(rule, bs, i + 1, FirstPartner(rule, i + 1), k, sqrt)
    else (if i == j then 0.0 else Work(rule, bs[i], bs[j], k, sqrt)) + WorkAhead(rule, bs, i, j + 1, k, sqrt)
  }

  lemma SameWork(rule: Rule, a: BodyState, b: BodyState, a': BodyState, b': BodyState, k: real, sqrt: SqrtFn)
    requires a'.SameButVelocity(a) && b'.SameButVelocity(b)
    ensures Work(rule, a', b', k, sqrt) == Work(rule, a, b, k, sqrt)
  {
    assert Gap(a', b', sqrt) == Gap(a, b, sqrt);
    assert forall d :: Strength(rule, a', b', k, d) == Strength(rule, a, b, k, d);
    hide Gap, Strength;
  }

  lemma WorkAheadStep(rule: Rule, bs: seq<BodyState>, i: nat, j: nat, k: real, sqrt: SqrtFn)
    ensures WorkAhead(rule, bs, i, j, k, sqrt) ==
      if i >= |bs| then 0.0
      else if j >= |bs| then WorkAhead(rule, bs, i + 1, FirstPartner(rule, i + 1), k, sqrt)
      else (if i == j then 0.0 else Work(rule, bs[i], bs[j], k, sqrt)) + WorkAhead(rule, bs, i, j + 1, k, sqrt)
  {
  }

  lemma {:induction false} WorkAheadSame(
      rule: Rule, bs: seq<BodyState>, after: seq<BodyState>, i: nat, j: nat, k: real, sqrt: SqrtFn)
    requires |after| == |bs| && forall p :: 0 <= p < |bs| ==> after[p].SameButVelocity(bs[p])
    ensures WorkAhead(rule, after, i, j, k, sqrt) == WorkAhead(rule, bs, i, j, k, sqrt)
    decreases |bs| - i, |bs| - j
  {
    hide Work, WorkAhead;
    WorkAheadStep(rule, bs, i, j, k, sqrt);
    WorkAheadStep(rule, after, i, j, k, sqrt);
    if i < |bs| {
      if j >= |bs| {
        WorkAheadSame(rule, bs, after, i + 1, FirstPartner(rule, i + 1), k, sqrt);
      } else {
        SameWork(rule, bs[i], bs[j], after[i], after[j], k, sqrt);
        WorkAheadSame(rule, bs, after, i, j + 1, k, sqrt);
      }
    }
  }

  /** A contact loop raises the sum by exactly the work of the pairs still ahead of it. */
  lemma {:induction false} SweepOutward(
      rule: Rule, bs: seq<BodyState>, i: nat, j: nat, t: Tuning, sqrt: SqrtFn, g: Point)
    requires IsSqrt(sqrt) && AllLoose(bs, g)
    ensures TotalOutward(Sweep(rule, bs, i, j, t, sqrt), g)
         == TotalOutward(bs, g) + WorkAhead(rule, bs, i, j, t.repulsionK, sqrt)
    decreases |bs| - i, |bs| - j
  {
    hide Contact, TotalOutward, Work, WorkAhead, IsSqrt, AllLoose;
    WorkAheadStep(rule, bs, i, j, t.repulsionK, sqrt);
    if i < |bs| {
      if j >= |bs| {
        SweepOutward(rule, bs, i + 1, FirstPartner(rule, i + 1), t, sqrt, g);
      } else {
        var after := Contact(rule, bs, i, j, t, sqrt);
        ContactOutward(rule, bs, i, j, t, sqrt, g);
        ContactKeepsPushes(rule, bs, i, j, t, sqrt, g);
        ContactKeepsShape(rule, bs, i, j, t, sqrt);
        WorkAheadSame(rule, bs, after, i, j + 1, t.repulsionK, sqrt);
        SweepOutward(rule, after, i, j + 1, t, sqrt, g);
      }
    }
  }

  /** It is never negative, and positive when a pair still ahead pushes. */
  lemma {:induction false} WorkAheadPositive(
      rule: Rule, bs: seq<BodyState>, i: nat, j: nat, k: real, sqrt: SqrtFn, p: nat, q: nat)
    requires IsSqrt(sqrt) && k > 0.0
    ensures WorkAhead(rule, bs, i, j, k, sqrt) >= 0.0
    ensures p < |bs| && q < |bs| && Ahead(rule, i, j, p, q) && Pushes(rule, bs[p], bs[q], sqrt) ==>
      WorkAhead(rule, bs, i, j, k, sqrt) > 0.0
    decreases |bs| - i, |bs| - j
  {
    hide Work, IsSqrt;
    if i < |bs| {
      if j >= |bs| {
        WorkAheadPositive(rule, bs, i + 1, FirstPartner(rule, i + 1), k, sqrt, p, q);
      } else {
        WorkPositive(rule, bs[i], bs[j], k, sqrt);
        WorkAheadPositive(rule, bs, i, j + 1, k, sqrt, p, q);
      }
    }
  }

  // ----- one substep of a layout at rest -----

  lemma {:induction false} RestHasNone(bs: seq<BodyState>, g: Point)
    requires Settled(bs)
    ensures TotalOutward(bs, g) == 0.0
  {
    if bs != [] {
      RestHasNone(bs[1..], g);
    }
  }

  /** If the sum is not zero, some free body moves. */
  lemma {:induction false} SomeoneMoves(bs: seq<BodyState>, g: Point) returns (n: nat)
    requires TotalOutward(bs, g) != 0.0
    ensures n < |bs| && !bs[n].Fixed() && (bs[n].vx != 0.0 || bs[n].vy != 0.0)
  {
    if Outward(bs[0], g) != 0.0 {
      n := 0;
    } else {
      var m := SomeoneMoves(bs[1..], g);
      n := m + 1;
    }
  }

  /** A free body that stands on its anchor and moves is carried off it. */
  lemma MovingLeaves(b: BodyState, t: Tuning)
    requires b.Free() && b.x == b.anchorX && b.y == b.anchorY && (b.vx != 0.0 || b.vy != 0.0)
    requires 0.0 <= t.settlePull < 1.0
    ensures !IntegrateBody(b, t).AtRest()
  {
    SettleLeaves(b.anchorX, b.vx, t.settlePull);
    SettleLeaves(b.anchorY, b.vy, t.settlePull);
    hide Settle;
  }

  lemma SettleLeaves(anchor: real, v: real, pull: real)
    requires 0.0 <= pull < 1.0
    ensures v != 0.0 ==> Settle(anchor + v, anchor, pull) != anchor
  {
    if v > 0.0 {
      PositiveProduct(v, 1.0 - pull);
    } else if v < 0.0 {
      PositiveProduct(-v, 1.0 - pull);
    }
  }

  lemma SpringsRest(bs: seq<BodyState>, t: Tuning)
    requires Settled(bs)
    ensures SpringAll(bs, t) == bs
  {
    forall k | 0 <= k < |bs|
      ensures SpringBody(bs[k], t) == bs[k]
    {
    }
  }

  /** One pushing pair is enough: the layout has moved after one substep. */
  lemma PushMoves(bs: seq<BodyState>, rule: Rule, p: nat, q: nat, t: Tuning, sqrt: SqrtFn, g: Point)
    requires IsSqrt(sqrt) && t.repulsionK > 0.0 && 0.0 <= t.settlePull < 1.0
    requires Settled(bs) && AllLoose(bs, g)
    requires p < |bs| && q < |bs| && Visits(rule, p, q) && Pushes(rule, bs[p], bs[q], sqrt)
    ensures Substep(bs, t, sqrt) != bs
  {
    SpringsRest(bs, t);
    RestHasNone(bs, g);
    var paired := SweepAll(Pairwise, bs, t, sqrt);
    SweepKeepsShape(Pairwise, bs, 0, FirstPartner(Pairwise, 0), t, sqrt);
    LooseKept(bs, paired, g);
    PushesKept(rule, bs, paired, p, q, sqrt);
    SweepOutward(Pairwise, bs, 0, FirstPartner(Pairwise, 0), t, sqrt, g);
    WorkAheadPositive(Pairwise, bs, 0, FirstPartner(Pairwise, 0), t.repulsionK, sqrt, p, q);
    var orbited := SweepAll(Orbit, paired, t, sqrt);
    SweepKeepsShape(Orbit, paired, 0, FirstPartner(Orbit, 0), t, sqrt);
    SweepOutward(Orbit, paired, 0, FirstPartner(Orbit, 0), t, sqrt, g);
    WorkAheadPositive(Orbit, paired, 0, FirstPartner(Orbit, 0), t.repulsionK, sqrt, p, q);
    hide Sweep, TotalOutward, Pushes, IsSqrt, WorkAhead;
    assert TotalOutward(orbited, g) > 0.0;
    var n := SomeoneMoves(orbited, g);
    assert orbited[n].SameButVelocity(paired[n]) && paired[n].SameButVelocity(bs[n]);
    MovingLeaves(orbited[n], t);
    assert Substep(bs, t, sqrt)[n] == IntegrateBody(orbited[n], t);
  }

  lemma LooseKept(bs: seq<BodyState>, after: seq<BodyState>, g: Point)
    requires AllLoose(bs, g) && |after| == |bs|
    requires forall k :: 0 <= k < |bs| ==> after[k].SameButVelocity(bs[k])
    ensures AllLoose(after, g)
  {
  }

  lemma PushesKept(rule: Rule, bs: seq<BodyState>, after: seq<BodyState>, p: nat, q: nat, sqrt: SqrtFn)
    requires |after| == |bs| && p < |bs| && q < |bs|
    requires forall k :: 0 <= k < |bs| ==> after[k].SameButVelocity(bs[k])
    ensures Pushes(rule, after[p], after[q], sqrt) == Pushes(rule, bs[p], bs[q], sqrt)
  {
  }

  // ----- exactly when a layout stays still -----

  /** Nothing moves, for any number of substeps. */
  ghost predicate StaysStill(bs: seq<BodyState>, focus: Focus, sqrt: SqrtFn) {
    forall n: nat :: Substeps(bs, n, TuningFor(focus), sqrt) == bs
  }

  /** A layout at rest with nobody held and all fixed bodies in one spot stays still, in whatever mode,
      if and only if no two bodies push each other. */
  lemma StillExactly(bs: seq<BodyState>, focus: Focus, sqrt: SqrtFn, g: Point)
    requires IsSqrt(sqrt) && Settled(bs) && AllLoose(bs, g)
    ensures StaysStill(bs, focus, sqrt) <==> Spaced(bs, sqrt)
  {
    var t := TuningFor(focus);
    if Spaced(bs, sqrt) {
      forall n: nat
        ensures Substeps(bs, n, t, sqrt) == bs
      {
        SettledRun(bs, n, t, sqrt);
      }
    } else {
      var rule: Rule, p, q :| 0 <= p < |bs| && 0 <= q < |bs| && Visits(rule, p, q) && Pushes(rule, bs[p], bs[q], sqrt);
      PushMoves(bs, rule, p, q, t, sqrt, g);
      OneSubstep(bs, 1, t, sqrt);
      ZeroSubsteps(bs, t, sqrt);
    }
  }

  /** After the snap on a change of selection, with nobody held and all fixed bodies on one anchor,
      nothing ever moves again if and only if the anchors are spaced. */
  lemma SnapStopsExactly(bs: seq<BodyState>, focus: Focus, sqrt: SqrtFn, g: Point)
    requires IsSqrt(sqrt) && forall i :: 0 <= i < |bs| ==> !bs[i].isDragging
    requires forall i :: 0 <= i < |bs| && bs[i].Fixed() ==> bs[i].anchorX == g.x && bs[i].anchorY == g.y
    ensures StaysStill(SnapAll(bs), focus, sqrt) <==> Spaced(SnapAll(bs), sqrt)
  {
    StillExactly(SnapAll(bs), focus, sqrt, g);
  }
}
