/** What every frame of the solver keeps: shapes, fixed and held bodies, settled layouts, and,
    for the contact loops, total momentum. */
module SolverLaws {
  import opened Prelude
  import opened Bodies

  // ----- frames -----

  lemma MeetKeepsShape(rule: Rule, a: BodyState, b: BodyState, t: Tuning, sqrt: SqrtFn)
    ensures var m := Meet(rule, a, b, t, sqrt); m.0.SameButVelocity(a) && m.1.SameButVelocity(b)
  {
  }

  lemma ContactKeepsShape(rule: Rule, bs: seq<BodyState>, i: nat, j: nat, t: Tuning, sqrt: SqrtFn)
    requires i < |bs| && j < |bs|
    ensures forall k :: 0 <= k < |bs| ==> Contact(rule, bs, i, j, t, sqrt)[k].SameButVelocity(bs[k])
  {
    MeetKeepsShape(rule, bs[i], bs[j], t, sqrt);
    hide Meet;
  }

  lemma {:induction false} SweepKeepsShape(rule: Rule, bs: seq<BodyState>, i: nat, j: nat, t: Tuning, sqrt: SqrtFn)
    ensures forall k :: 0 <= k < |bs| ==> Sweep(rule, bs, i, j, t, sqrt)[k].SameButVelocity(bs[k])
    decreases |bs| - i, |bs| - j
  {
    hide Contact;
    if i < |bs| {
      if j >= |bs| {
        SweepKeepsShape(rule, bs, i + 1, FirstPartner(rule, i + 1), t, sqrt);
      } else {
        ContactKeepsShape(rule, bs, i, j, t, sqrt);
        SweepKeepsShape(rule, Contact(rule, bs, i, j, t, sqrt), i, j + 1, t, sqrt);
      }
    }
  }

  /** What one substep guarantees about one body, whatever the others do. */
  ghost predicate Obeys(before: BodyState, after: BodyState) {
    && after.SameShape(before)
    && (before.Fixed() ==> after.AtRest())
    && (before.isDragging && !before.Fixed() ==> after.x == before.x && after.y == before.y)
  }

  lemma SubstepFrame(bs: seq<BodyState>, t: Tuning, sqrt: SqrtFn)
    ensures forall k :: 0 <= k < |bs| ==> Obeys(bs[k], Substep(bs, t, sqrt)[k])
  {
    var sprung := SpringAll(bs, t);
    var pushed := SweepAll(Pairwise, sprung, t, sqrt);
    SweepKeepsShape(Pairwise, sprung, 0, FirstPartner(Pairwise, 0), t, sqrt);
    SweepKeepsShape(Orbit, pushed, 0, FirstPartner(Orbit, 0), t, sqrt);
    hide Contact;
  }

  /** Any number of substeps, hence any number of frames: anchors, masses, radii and flags never
      change; a fixed body ends on its anchor at rest; a held body does not move. */
  lemma {:induction false} RunFrame(bs: seq<BodyState>, n: nat, t: Tuning, sqrt: SqrtFn)
    ensures forall k :: 0 <= k < |bs| ==>
      var after := Substeps(bs, n, t, sqrt)[k];
      && after.SameShape(bs[k])
      && (bs[k].Fixed() && n > 0 ==> after.AtRest())
      && (bs[k].isDragging && !bs[k].Fixed() ==> after.x == bs[k].x && after.y == bs[k].y)
  {
    if n > 0 {
      RunFrame(bs, n - 1, t, sqrt);
      SubstepFrame(Substeps(bs, n - 1, t, sqrt), t, sqrt);
      hide Substep;
    }
  }

  lemma TickFrame(bs: seq<BodyState>, focus: Focus, sqrt: SqrtFn)
    ensures forall k :: 0 <= k < |bs| ==> Obeys(bs[k], Tick(bs, TuningFor(focus), sqrt)[k])
  {
    RunFrame(bs, SUBSTEPS, TuningFor(focus), sqrt);
    hide Substeps;
  }

  function Frames(bs: seq<BodyState>, n: nat, t: Tuning, sqrt: SqrtFn): (r: seq<BodyState>)
    ensures |r| == |bs|
  {
    if n == 0 then bs else Tick(Frames(bs, n - 1, t, sqrt), t, sqrt)
  }

  /** A run of frames is a run of twice as many substeps, so every law about substeps is one
      about frames. */
  lemma {:induction false} FramesAreSubsteps(bs: seq<BodyState>, n: nat, t: Tuning, sqrt: SqrtFn)
    ensures Frames(bs, n, t, sqrt) == Substeps(bs, 2 * n, t, sqrt)
  {
    hide Substep, Tick, Substeps;
    if n == 0 {
      ZeroSubsteps(bs, t, sqrt);
    } else {
      FramesAreSubsteps(bs, n - 1, t, sqrt);
      TwoSubsteps(Substeps(bs, SUBSTEPS * (n - 1), t, sqrt), t, sqrt);
      OneSubstep(bs, SUBSTEPS * n - 1, t, sqrt);
      OneSubstep(bs, SUBSTEPS * n, t, sqrt);
    }
  }

  lemma ZeroSubsteps(bs: seq<BodyState>, t: Tuning, sqrt: SqrtFn)
    ensures Substeps(bs, 0, t, sqrt) == bs
  {
  }

  lemma OneSubstep(bs: seq<BodyState>, n: nat, t: Tuning, sqrt: SqrtFn)
    requires n > 0
    ensures Substeps(bs, n, t, sqrt) == Substep(Substeps(bs, n - 1, t, sqrt), t, sqrt)
  {
  }

  lemma TwoSubsteps(bs: seq<BodyState>, t: Tuning, sqrt: SqrtFn)
    ensures Tick(bs, t, sqrt) == Substep(Substep(bs, t, sqrt), t, sqrt)
  {
    hide Substep;
    assert Substeps(bs, 1, t, sqrt) == Substep(Substeps(bs, 0, t, sqrt), t, sqrt);
  }

  // ----- held bodies -----

  /** The two lists agree on every body that is not held, and hold the same bodies. */
  ghost predicate AgreeButHeld(bs: seq<BodyState>, cs: seq<BodyState>) {
    && |bs| == |cs|
    && (forall i :: 0 <= i < |bs| ==> bs[i].isDragging == cs[i].isDragging)
    && (forall i :: 0 <= i < |bs| && !bs[i].isDragging ==> bs[i] == cs[i])
  }

  /** In a contact with exactly one held body, the other one is not moved. */
  lemma HeldPushesNobody(rule: Rule, a: BodyState, b: BodyState, t: Tuning, sqrt: SqrtFn)
    ensures a.isDragging && !b.isDragging ==> Meet(rule, a, b, t, sqrt).1 == b
    ensures !a.isDragging && b.isDragging ==> Meet(rule, a, b, t, sqrt).0 == a
  {
  }

  lemma ContactAgrees(rule: Rule, bs: seq<BodyState>, cs: seq<BodyState>, i: nat, j: nat, t: Tuning, sqrt: SqrtFn)
    requires AgreeButHeld(bs, cs) && i < |bs| && j < |bs|
    ensures AgreeButHeld(Contact(rule, bs, i, j, t, sqrt), Contact(rule, cs, i, j, t, sqrt))
  {
    HeldPushesNobody(rule, bs[i], bs[j], t, sqrt);
    HeldPushesNobody(rule, cs[i], cs[j], t, sqrt);
    MeetKeepsShape(rule, bs[i], bs[j], t, sqrt);
    MeetKeepsShape(rule, cs[i], cs[j], t, sqrt);
    hide Meet;
  }

  lemma {:induction false} SweepAgrees(
      rule: Rule, bs: seq<BodyState>, cs: seq<BodyState>, i: nat, j: nat, t: Tuning, sqrt: SqrtFn)
    requires AgreeButHeld(bs, cs)
    ensures AgreeButHeld(Sweep(rule, bs, i, j, t, sqrt), Sweep(rule, cs, i, j, t, sqrt))
    decreases |bs| - i, |bs| - j
  {
    hide Contact;
    if i < |bs| {
      if j >= |bs| {
        SweepAgrees(rule, bs, cs, i + 1, FirstPartner(rule, i + 1), t, sqrt);
      } else {
        ContactAgrees(rule, bs, cs, i, j, t, sqrt);
        SweepAgrees(rule, Contact(rule, bs, i, j, t, sqrt), Contact(rule, cs, i, j, t, sqrt), i, j + 1, t, sqrt);
      }
    }
  }

  lemma SubstepAgrees(bs: seq<BodyState>, cs: seq<BodyState>, t: Tuning, sqrt: SqrtFn)
    requires AgreeButHeld(bs, cs)
    ensures AgreeButHeld(Substep(bs, t, sqrt), Substep(cs, t, sqrt))
  {
    var b1, c1 := SpringAll(bs, t), SpringAll(cs, t);
    var b2, c2 := SweepAll(Pairwise, b1, t, sqrt), SweepAll(Pairwise, c1, t, sqrt);
    SweepAgrees(Pairwise, b1, c1, 0, FirstPartner(Pairwise, 0), t, sqrt);
    SweepAgrees(Orbit, b2, c2, 0, FirstPartner(Orbit, 0), t, sqrt);
    hide Sweep;
  }

  /** Where a held body is dragged to has no influence on the others: two runs that differ only in
      their held bodies agree on all other bodies after any number of substeps. */
  lemma {:induction false} HeldAreInert(bs: seq<BodyState>, cs: seq<BodyState>, n: nat, t: Tuning, sqrt: SqrtFn)
    requires AgreeButHeld(bs, cs)
    ensures AgreeButHeld(Substeps(bs, n, t, sqrt), Substeps(cs, n, t, sqrt))
  {
    hide Substep, AgreeButHeld;
    if n > 0 {
      HeldAreInert(bs, cs, n - 1, t, sqrt);
      SubstepAgrees(Substeps(bs, n - 1, t, sqrt), Substeps(cs, n - 1, t, sqrt), t, sqrt);
    }
  }

  // ----- settled layouts -----

  /** `rule` gives the two bodies an impulse. Bodies in one and the same spot overlap, but the force
      between them has no direction. */
  predicate Pushes(rule: Rule, a: BodyState, b: BodyState, sqrt: SqrtFn) {
    Overlap(rule, a, b, sqrt) && (a.x != b.x || a.y != b.y)
  }

  /** No pair of bodies and no orbit ring pushes, where the bodies stand. */
  ghost predicate Spaced(bs: seq<BodyState>, sqrt: SqrtFn) {
    forall rule: Rule, i, j :: 0 <= i < |bs| && 0 <= j < |bs| && Visits(rule, i, j) ==>
      !Pushes(rule, bs[i], bs[j], sqrt)
  }

  lemma IdleMeet(rule: Rule, a: BodyState, b: BodyState, t: Tuning, sqrt: SqrtFn)
    requires !Pushes(rule, a, b, sqrt)
    ensures Meet(rule, a, b, t, sqrt) == (a, b)
  {
    if Overlap(rule, a, b, sqrt) {
      var dist := Dist(sqrt, b.x - a.x, b.y - a.y);
      NoComponent(Force(rule, Reach(rule, a, b) - dist, t), dist);
      hide Component;
    }
  }

  lemma NoComponent(force: real, dist: real)
    requires dist != 0.0
    ensures Component(force, 0.0, dist) == 0.0
  {
  }

  /** The ordered pairs a contact loop looks at. */
  predicate Visits(rule: Rule, i: int, j: int) {
    if rule.Pairwise? then i < j else i != j
  }

  /** Neither rule gives the two bodies an impulse, whichever comes first. */
  ghost predicate Apart(a: BodyState, b: BodyState, sqrt: SqrtFn) {
    forall rule: Rule :: !Pushes(rule, a, b, sqrt) && !Pushes(rule, b, a, sqrt)
  }

  lemma PushesFlips(a: BodyState, b: BodyState, sqrt: SqrtFn)
    ensures Pushes(Pairwise, a, b, sqrt) == Pushes(Pairwise, b, a, sqrt)
  {
    assert (b.x - a.x) * (b.x - a.x) == (a.x - b.x) * (a.x - b.x);
    assert (b.y - a.y) * (b.y - a.y) == (a.y - b.y) * (a.y - b.y);
  }

  lemma ApartByRule(a: BodyState, b: BodyState, sqrt: SqrtFn)
    ensures Apart(a, b, sqrt) <==>
      && !Pushes(Pairwise, a, b, sqrt)
      && !Pushes(Orbit, a, b, sqrt) && !Pushes(Orbit, b, a, sqrt)
  {
    PushesFlips(a, b, sqrt);
    hide Pushes;
    if !Pushes(Pairwise, a, b, sqrt) && !Pushes(Orbit, a, b, sqrt) && !Pushes(Orbit, b, a, sqrt) {
      forall rule: Rule
        ensures !Pushes(rule, a, b, sqrt) && !Pushes(rule, b, a, sqrt)
      {
        match rule
        case Pairwise =>
        case Orbit =>
      }
    }
  }

  /** A list is spaced when all its pairs are apart. */
  lemma SpacedPairs(bs: seq<BodyState>, sqrt: SqrtFn)
    ensures Spaced(bs, sqrt) <==> forall i, j :: 0 <= i < j < |bs| ==> Apart(bs[i], bs[j], sqrt)
  {
    hide Pushes;
    if Spaced(bs, sqrt) {
      forall i, j | 0 <= i < j < |bs|
        ensures Apart(bs[i], bs[j], sqrt)
      {
        PushesFlips(bs[i], bs[j], sqrt);
        assert Visits(Pairwise, i, j) && Visits(Orbit, i, j) && Visits(Orbit, j, i);
      }
    }
    if forall i, j :: 0 <= i < j < |bs| ==> Apart(bs[i], bs[j], sqrt) {
      forall rule: Rule, i, j | 0 <= i < |bs| && 0 <= j < |bs| && Visits(rule, i, j)
        ensures !Pushes(rule, bs[i], bs[j], sqrt)
      {
        assert i < j ==> Apart(bs[i], bs[j], sqrt);
        assert j < i ==> Apart(bs[j], bs[i], sqrt);
      }
    }
  }

  /** Two lists together are spaced when each is, and every body of one is apart from every body of
      the other. */
  lemma SpacedTogether(bs: seq<BodyState>, cs: seq<BodyState>, sqrt: SqrtFn)
    ensures Spaced(bs + cs, sqrt) <==>
      && Spaced(bs, sqrt) && Spaced(cs, sqrt)
      && (forall i, j :: 0 <= i < |bs| && 0 <= j < |cs| ==> Apart(bs[i], cs[j], sqrt))
  {
    SpacedPairs(bs, sqrt);
    SpacedPairs(cs, sqrt);
    SpacedPairs(bs + cs, sqrt);
    hide Spaced, Apart;
    var all, n := bs + cs, |bs|;
    assert forall i :: 0 <= i < n ==> all[i] == bs[i];
    assert forall j :: 0 <= j < |cs| ==> all[n + j] == cs[j];
    if forall i, j :: 0 <= i < j < |all| ==> Apart(all[i], all[j], sqrt) {
      forall i, j | 0 <= i < j < |cs|
        ensures Apart(cs[i], cs[j], sqrt)
      {
        assert Apart(all[n + i], all[n + j], sqrt);
      }
      forall i, j | 0 <= i < n && 0 <= j < |cs|
        ensures Apart(bs[i], cs[j], sqrt)
      {
        assert Apart(all[i], all[n + j], sqrt);
      }
    }
  }

  ghost predicate Settled(bs: seq<BodyState>) {
    forall i :: 0 <= i < |bs| ==> bs[i].AtRest()
  }

  lemma {:induction false} SpacedSweep(rule: Rule, bs: seq<BodyState>, i: nat, j: nat, t: Tuning, sqrt: SqrtFn)
    requires Spaced(bs, sqrt) && (rule.Pairwise? ==> i < j)
    ensures Sweep(rule, bs, i, j, t, sqrt) == bs
    decreases |bs| - i, |bs| - j
  {
    hide Pushes, Meet;
    if i < |bs| {
      if j >= |bs| {
        SpacedSweep(rule, bs, i + 1, FirstPartner(rule, i + 1), t, sqrt);
      } else {
        if i != j {
          assert Visits(rule, i, j);
          IdleMeet(rule, bs[i], bs[j], t, sqrt);
        }
        assert Contact(rule, bs, i, j, t, sqrt) == bs;
        SpacedSweep(rule, bs, i, j + 1, t, sqrt);
      }
    }
  }

  lemma SettledSubstep(bs: seq<BodyState>, t: Tuning, sqrt: SqrtFn)
    requires Settled(bs) && Spaced(bs, sqrt)
    ensures Substep(bs, t, sqrt) == bs
  {
    forall k | 0 <= k < |bs|
      ensures SpringBody(bs[k], t) == bs[k] && IntegrateBody(bs[k], t) == bs[k]
    {
    }
    assert SpringAll(bs, t) == bs;
    SpacedSweep(Pairwise, bs, 0, 1, t, sqrt);
    SpacedSweep(Orbit, bs, 0, 0, t, sqrt);
    assert IntegrateAll(bs, t) == bs;
  }

  /** A layout whose anchors respect every distance is a fixed point of every frame, in every mode. */
  lemma {:induction false} SettledRun(bs: seq<BodyState>, n: nat, t: Tuning, sqrt: SqrtFn)
    requires Settled(bs) && Spaced(bs, sqrt)
    ensures Substeps(bs, n, t, sqrt) == bs
  {
    if n > 0 {
      SettledRun(bs, n - 1, t, sqrt);
      SettledSubstep(bs, t, sqrt);
    }
  }

  /** After the snap on a change of selection nothing moves again, in any mode, when no body is
      held and the anchors are far enough apart. */
  lemma SnapStopsMotion(bs: seq<BodyState>, n: nat, focus: Focus, sqrt: SqrtFn)
    requires forall i :: 0 <= i < |bs| ==> !bs[i].isDragging
    requires Spaced(SnapAll(bs), sqrt)
    ensures Substeps(SnapAll(bs), n, TuningFor(focus), sqrt) == SnapAll(bs)
  {
    SettledRun(SnapAll(bs), n, TuningFor(focus), sqrt);
  }

  // ----- momentum -----

  /** The snap leaves held bodies alone and puts every other one on its anchor at rest, with the same
      shape. */
  lemma SnapFrame(bs: seq<BodyState>)
    ensures |SnapAll(bs)| == |bs|
    ensures forall k :: 0 <= k < |bs| ==>
      var after := SnapAll(bs)[k];
      if bs[k].isDragging then after == bs[k] else after.AtRest() && after.SameShape(bs[k])
  {
  }

  datatype Axis = X | Y

  function Speed(b: BodyState, axis: Axis): real {
    if axis.X? then b.vx else b.vy
  }

  function Momentum(b: BodyState, axis: Axis): real {
    b.mass * Speed(b, axis)
  }

  function Total(bs: seq<BodyState>, axis: Axis): real {
    if bs == [] then 0.0 else Momentum(bs[0], axis) + Total(bs[1..], axis)
  }

  lemma {:induction false} TotalUpdate(bs: seq<BodyState>, i: nat, b: BodyState, axis: Axis)
    requires i < |bs|
    ensures Total(bs[i := b], axis) == Total(bs, axis) - Momentum(bs[i], axis) + Momentum(b, axis)
  {
    hide Momentum;
    if i == 0 {
      assert bs[i := b][1..] == bs[1..];
    } else {
      assert bs[i := b][1..] == bs[1..][i - 1 := b];
      TotalUpdate(bs[1..], i - 1, b, axis);
    }
  }

  lemma KickMomentum(b: BodyState, ix: real, iy: real, axis: Axis)
    requires !b.Fixed()
    ensures Momentum(KickForward(b, ix, iy), axis) == Momentum(b, axis) + (if axis.X? then ix else iy)
    ensures Momentum(KickBack(b, ix, iy), axis) == Momentum(b, axis) - (if axis.X? then ix else iy)
  {
    var p := if axis.X? then ix else iy;
    assert b.mass * (Speed(b, axis) + p / b.mass) == b.mass * Speed(b, axis) + p;
    assert b.mass * (Speed(b, axis) - p / b.mass) == b.mass * Speed(b, axis) - p;
  }

  lemma ShareConserves(a: BodyState, b: BodyState, ix: real, iy: real, axis: Axis)
    requires a.Free() && b.Free()
    ensures var m := Share(a, b, ix, iy);
      Momentum(m.0, axis) + Momentum(m.1, axis) == Momentum(a, axis) + Momentum(b, axis)
  {
    KickMomentum(a, ix, iy, axis);
    KickMomentum(b, ix, iy, axis);
    hide Momentum, KickForward, KickBack;
  }

  lemma MeetConserves(rule: Rule, a: BodyState, b: BodyState, t: Tuning, sqrt: SqrtFn, axis: Axis)
    requires a.Free() && b.Free()
    ensures var m := Meet(rule, a, b, t, sqrt);
      Momentum(m.0, axis) + Momentum(m.1, axis) == Momentum(a, axis) + Momentum(b, axis)
  {
    hide Share, Momentum, Component, Force, Reach;
    forall ix, iy {
      ShareConserves(a, b, ix, iy, axis);
    }
  }

  ghost predicate AllFree(bs: seq<BodyState>) {
    forall i :: 0 <= i < |bs| ==> bs[i].Free()
  }

  lemma ContactConserves(rule: Rule, bs: seq<BodyState>, i: nat, j: nat, t: Tuning, sqrt: SqrtFn, axis: Axis)
    requires i < |bs| && j < |bs| && AllFree(bs)
    ensures Total(Contact(rule, bs, i, j, t, sqrt), axis) == Total(bs, axis)
  {
    if i != j {
      MeetConserves(rule, bs[i], bs[j], t, sqrt, axis);
      hide Meet, Momentum;
      var (a, b) := Meet(rule, bs[i], bs[j], t, sqrt);
      TotalUpdate(bs, i, a, axis);
      TotalUpdate(bs[i := a], j, b, axis);
    }
  }

  /** With no body fixed or held, each contact loop conserves momentum on both axes, for any number
      of bodies and overlaps. */
  lemma {:induction false} SweepConserves(
      rule: Rule, bs: seq<BodyState>, i: nat, j: nat, t: Tuning, sqrt: SqrtFn, axis: Axis)
    requires AllFree(bs)
    ensures Total(Sweep(rule, bs, i, j, t, sqrt), axis) == Total(bs, axis)
    decreases |bs| - i, |bs| - j
  {
    hide Contact, Total;
    if i < |bs| {
      if j >= |bs| {
        SweepConserves(rule, bs, i + 1, FirstPartner(rule, i + 1), t, sqrt, axis);
      } else {
        ContactConserves(rule, bs, i, j, t, sqrt, axis);
        ContactKeepsShape(rule, bs, i, j, t, sqrt);
        SweepConserves(rule, Contact(rule, bs, i, j, t, sqrt), i, j + 1, t, sqrt, axis);
      }
    }
  }

  lemma ContactPassesConserve(bs: seq<BodyState>, t: Tuning, sqrt: SqrtFn, axis: Axis)
    requires AllFree(bs)
    ensures Total(SweepAll(Pairwise, bs, t, sqrt), axis) == Total(bs, axis)
    ensures Total(SweepAll(Orbit, bs, t, sqrt), axis) == Total(bs, axis)
  {
    SweepConserves(Pairwise, bs, 0, FirstPartner(Pairwise, 0), t, sqrt, axis);
    SweepConserves(Orbit, bs, 0, FirstPartner(Orbit, 0), t, sqrt, axis);
  }
}
