/** The equation of motion of the map (dashboard/public/mindmap.jsx). Both contact loops update
    velocities in place, one pair after the other; nevertheless every body ends with the sum of what
    each other body pushes it with where they stand, so a substep does not depend on the order. */
module Superposition {
  import opened Prelude
  import opened Bodies
  import opened SolverLaws
  import opened Stillness
  import opened Contacts

  /** What `other` gives to `target` in one full loop: a pair of discs meets once, a pair of rings
      twice, each ring against the other's disc. */
  function From(rule: Rule, other: BodyState, target: BodyState, k: real, sqrt: SqrtFn, axis: Axis): real {
    var d := Gap(other, target, sqrt);
    if rule.Pairwise? then Recoil(Strength(Pairwise, other, target, k, d), other, target, d, axis)
    else Recoil(Strength(Orbit, other, target, k, d), other, target, d, axis)
         + Recoil(Strength(Orbit, target, other, k, d), other, target, d, axis)
  }

  /** What the first `m` bodies, other than itself, give to body `n`. */
  function Received(rule: Rule, bs: seq<BodyState>, n: nat, m: nat, k: real, sqrt: SqrtFn, axis: Axis): real
    requires n < |bs| && m <= |bs|
  {
    if m == 0 then 0.0
    else Received(rule, bs, n, m - 1, k, sqrt, axis)
         + if m - 1 == n then 0.0 else From(rule, bs[m - 1], bs[n], k, sqrt, axis)
  }

  // ----- a contact loop that stands at (i, j) -----

  /** What body `q` will still give to body `n`. */
  function Coming(rule: Rule, bs: seq<BodyState>, i: nat, j: nat, n: nat, q: nat, k: real, sqrt: SqrtFn, axis: Axis)
    : real
    requires n < |bs| && q < |bs|
  {
    var d := Gap(bs[q], bs[n], sqrt);
    (if Ahead(rule, i, j, q, n)
     then Recoil(Strength(rule, bs[q], bs[n], k, d), bs[q], bs[n], d, axis) else 0.0)
    + (if Ahead(rule, i, j, n, q)
       then Recoil(Strength(rule, bs[n], bs[q], k, d), bs[q], bs[n], d, axis) else 0.0)
  }

  function Rest(
      rule: Rule, bs: seq<BodyState>, i: nat, j: nat, n: nat, m: nat, k: real, sqrt: SqrtFn, axis: Axis): real
    requires n < |bs| && m <= |bs|
  {
    if m == 0 then 0.0
    else Rest(rule, bs, i, j, n, m - 1, k, sqrt, axis)
         + if m - 1 == n then 0.0 else Coming(rule, bs, i, j, n, m - 1, k, sqrt, axis)
  }

  /** What the contact of bodies `i` and `j` gives to body `n`. */
  function Given(rule: Rule, bs: seq<BodyState>, i: nat, j: nat, n: nat, k: real, sqrt: SqrtFn, axis: Axis): real
    requires i < |bs| && j < |bs| && n < |bs|
  {
    if i == j then 0.0
    else if n == j then Recoil(Strength(rule, bs[i], bs[j], k, Gap(bs[i], bs[j], sqrt)), bs[i], bs[j],
                               Gap(bs[i], bs[j], sqrt), axis)
    else if n == i then Recoil(Strength(rule, bs[i], bs[j], k, Gap(bs[j], bs[i], sqrt)), bs[j], bs[i],
                               Gap(bs[j], bs[i], sqrt), axis)
    else 0.0
  }

  lemma ContactAddsGiven(
      rule: Rule, bs: seq<BodyState>, i: nat, j: nat, n: nat, t: Tuning, sqrt: SqrtFn, axis: Axis)
    requires IsSqrt(sqrt) && i < |bs| && j < |bs| && n < |bs|
    ensures Momentum(Contact(rule, bs, i, j, t, sqrt)[n], axis)
         == Momentum(bs[n], axis) + Given(rule, bs, i, j, n, t.repulsionK, sqrt, axis)
  {
    ContactGives(rule, bs[i], bs[j], t, sqrt, axis);
    GapMeans(bs[i], bs[j], sqrt);
    hide Meet, Recoil, Strength, Gap, IsSqrt, Momentum;
  }

  /** The loop moves on by one pair: what is still to come shrinks by that pair's share. */
  lemma {:induction false} RestStep(
      rule: Rule, bs: seq<BodyState>, i: nat, j: nat, n: nat, m: nat, k: real, sqrt: SqrtFn, axis: Axis)
    requires i < |bs| && j < |bs| && n < |bs| && m <= |bs| && j >= FirstPartner(rule, i)
    ensures Rest(rule, bs, i, j, n, m, k, sqrt, axis)
         == Rest(rule, bs, i, j + 1, n, m, k, sqrt, axis)
            + if (n == j && i < m) || (n == i && j < m) then Given(rule, bs, i, j, n, k, sqrt, axis) else 0.0
  {
    hide Recoil, Strength, Gap;
    if m > 0 {
      RestStep(rule, bs, i, j, n, m - 1, k, sqrt, axis);
    }
  }

  /** The loop moves on to the next row: nothing is lost. */
  lemma {:induction false} RestTurn(
      rule: Rule, bs: seq<BodyState>, i: nat, j: nat, n: nat, m: nat, k: real, sqrt: SqrtFn, axis: Axis)
    requires i < |bs| <= j && n < |bs| && m <= |bs|
    ensures Rest(rule, bs, i, j, n, m, k, sqrt, axis)
         == Rest(rule, bs, i + 1, FirstPartner(rule, i + 1), n, m, k, sqrt, axis)
  {
    hide Recoil, Strength, Gap;
    if m > 0 {
      RestTurn(rule, bs, i, j, n, m - 1, k, sqrt, axis);
    }
  }

  lemma {:induction false} RestOver(
      rule: Rule, bs: seq<BodyState>, i: nat, j: nat, n: nat, m: nat, k: real, sqrt: SqrtFn, axis: Axis)
    requires n < |bs| <= i && m <= |bs|
    ensures Rest(rule, bs, i, j, n, m, k, sqrt, axis) == 0.0
  {
    hide Recoil, Strength, Gap;
    if m > 0 {
      RestOver(rule, bs, i, j, n, m - 1, k, sqrt, axis);
    }
  }

  ghost predicate SamePlaces(bs: seq<BodyState>, after: seq<BodyState>) {
    |after| == |bs| && forall p :: 0 <= p < |bs| ==> after[p].SameButVelocity(bs[p])
  }

  lemma SamePush(
      rule: Rule, a: BodyState, b: BodyState, a': BodyState, b': BodyState, k: real, sqrt: SqrtFn, axis: Axis)
    requires a'.SameButVelocity(a) && b'.SameButVelocity(b)
    ensures Gap(a', b', sqrt) == Gap(a, b, sqrt)
    ensures Strength(rule, a', b', k, Gap(a, b, sqrt)) == Strength(rule, a, b, k, Gap(a, b, sqrt))
    ensures Strength(rule, b', a', k, Gap(a, b, sqrt)) == Strength(rule, b, a, k, Gap(a, b, sqrt))
    ensures forall strength, d :: Recoil(strength, a', b', d, axis) == Recoil(strength, a, b, d, axis)
  {
  }

  /** What is to come depends on where the bodies stand, not on how fast they move. */
  lemma {:induction false} RestSame(
      rule: Rule, bs: seq<BodyState>, after: seq<BodyState>, i: nat, j: nat, n: nat, m: nat, k: real, sqrt: SqrtFn,
      axis: Axis)
    requires SamePlaces(bs, after) && n < |bs| && m <= |bs|
    ensures Rest(rule, after, i, j, n, m, k, sqrt, axis) == Rest(rule, bs, i, j, n, m, k, sqrt, axis)
  {
    if m > 0 {
      RestSame(rule, bs, after, i, j, n, m - 1, k, sqrt, axis);
      SamePush(rule, bs[m - 1], bs[n], after[m - 1], after[n], k, sqrt, axis);
      hide Recoil, Strength, Gap;
    }
  }

  /** The rest of a loop gives every body what is still to come for it. */
  lemma {:induction false} SweepGives(
      rule: Rule, bs: seq<BodyState>, i: nat, j: nat, n: nat, t: Tuning, sqrt: SqrtFn, axis: Axis)
    requires IsSqrt(sqrt) && n < |bs| && (i < |bs| ==> j >= FirstPartner(rule, i))
    ensures Momentum(Sweep(rule, bs, i, j, t, sqrt)[n], axis)
         == Momentum(bs[n], axis) + Rest(rule, bs, i, j, n, |bs|, t.repulsionK, sqrt, axis)
    decreases |bs| - i, |bs| - j
  {
    hide Rest, Contact, Given, Momentum, IsSqrt;
    var k := t.repulsionK;
    if i >= |bs| {
      RestOver(rule, bs, i, j, n, |bs|, k, sqrt, axis);
    } else if j >= |bs| {
      RestTurn(rule, bs, i, j, n, |bs|, k, sqrt, axis);
      SweepGives(rule, bs, i + 1, FirstPartner(rule, i + 1), n, t, sqrt, axis);
    } else {
      var after := Contact(rule, bs, i, j, t, sqrt);
      ContactKeepsShape(rule, bs, i, j, t, sqrt);
      ContactAddsGiven(rule, bs, i, j, n, t, sqrt, axis);
      GivenToOthers(rule, bs, i, j, n, k, sqrt, axis);
      RestSame(rule, bs, after, i, j + 1, n, |bs|, k, sqrt, axis);
      RestStep(rule, bs, i, j, n, |bs|, k, sqrt, axis);
      SweepGives(rule, after, i, j + 1, n, t, sqrt, axis);
    }
  }

  lemma GivenToOthers(rule: Rule, bs: seq<BodyState>, i: nat, j: nat, n: nat, k: real, sqrt: SqrtFn, axis: Axis)
    requires i < |bs| && j < |bs| && n < |bs|
    ensures n != i && n != j ==> Given(rule, bs, i, j, n, k, sqrt, axis) == 0.0
  {
  }

  // ----- a whole loop -----

  lemma {:induction false} RestIsReceived(
      rule: Rule, bs: seq<BodyState>, n: nat, m: nat, k: real, sqrt: SqrtFn, axis: Axis)
    requires IsSqrt(sqrt) && n < |bs| && m <= |bs|
    ensures Rest(rule, bs, 0, FirstPartner(rule, 0), n, m, k, sqrt, axis) == Received(rule, bs, n, m, k, sqrt, axis)
  {
    if m > 0 {
      RestIsReceived(rule, bs, n, m - 1, k, sqrt, axis);
      SameStrength(bs[m - 1], bs[n], k, Gap(bs[m - 1], bs[n], sqrt));
      hide Recoil, Strength, Gap, IsSqrt;
    }
  }

  lemma SameStrength(a: BodyState, b: BodyState, k: real, d: real)
    ensures Strength(Pairwise, a, b, k, d) == Strength(Pairwise, b, a, k, d)
  {
    assert a.radius + b.radius == b.radius + a.radius;
  }

  /** After a whole contact loop every body has gained exactly the sum of what all others push it with
      where they stand. */
  lemma LoopIsSuperposition(rule: Rule, bs: seq<BodyState>, n: nat, t: Tuning, sqrt: SqrtFn, axis: Axis)
    requires IsSqrt(sqrt) && n < |bs|
    ensures Momentum(SweepAll(rule, bs, t, sqrt)[n], axis)
         == Momentum(bs[n], axis) + Received(rule, bs, n, |bs|, t.repulsionK, sqrt, axis)
  {
    hide Sweep, Rest, Received, Momentum, IsSqrt;
    SweepGives(rule, bs, 0, FirstPartner(rule, 0), n, t, sqrt, axis);
    RestIsReceived(rule, bs, n, |bs|, t.repulsionK, sqrt, axis);
  }

  // ----- a whole substep -----

  /** Where the bodies stand while they push each other: the fixed ones are home by then. */
  function Standing(bs: seq<BodyState>): (r: seq<BodyState>)
    ensures |r| == |bs|
  {
    seq(|bs|, i requires 0 <= i < |bs| => if bs[i].Fixed() then bs[i].Home() else bs[i])
  }

  /** All pushes on body `n` in one substep: of discs on discs and of rings on discs. */
  function Push(bs: seq<BodyState>, n: nat, k: real, sqrt: SqrtFn, axis: Axis): real
    requires n < |bs|
  {
    Received(Pairwise, Standing(bs), n, |bs|, k, sqrt, axis) + Received(Orbit, Standing(bs), n, |bs|, k, sqrt, axis)
  }

  lemma {:induction false} ReceivedSame(
      rule: Rule, bs: seq<BodyState>, after: seq<BodyState>, n: nat, m: nat, k: real, sqrt: SqrtFn, axis: Axis)
    requires SamePlaces(bs, after) && n < |bs| && m <= |bs|
    ensures Received(rule, after, n, m, k, sqrt, axis) == Received(rule, bs, n, m, k, sqrt, axis)
  {
    if m > 0 {
      ReceivedSame(rule, bs, after, n, m - 1, k, sqrt, axis);
      SamePush(Pairwise, bs[m - 1], bs[n], after[m - 1], after[n], k, sqrt, axis);
      SamePush(Orbit, bs[m - 1], bs[n], after[m - 1], after[n], k, sqrt, axis);
      hide Recoil, Strength, Gap;
    }
  }

  /** The two loops together, from the velocities the springs left. */
  lemma LoopsAreSuperposition(bs: seq<BodyState>, n: nat, t: Tuning, sqrt: SqrtFn, axis: Axis)
    requires IsSqrt(sqrt) && n < |bs|
    ensures var sprung := SpringAll(bs, t);
      var pushed := SweepAll(Orbit, SweepAll(Pairwise, sprung, t, sqrt), t, sqrt)[n];
      && pushed.SameButVelocity(sprung[n])
      && Momentum(pushed, axis) == Momentum(sprung[n], axis) + Push(bs, n, t.repulsionK, sqrt, axis)
  {
    var sprung := SpringAll(bs, t);
    var paired := SweepAll(Pairwise, sprung, t, sqrt);
    assert SamePlaces(Standing(bs), sprung);
    SweepKeepsShape(Pairwise, sprung, 0, FirstPartner(Pairwise, 0), t, sqrt);
    SweepKeepsShape(Orbit, paired, 0, FirstPartner(Orbit, 0), t, sqrt);
    assert SamePlaces(Standing(bs), paired);
    hide Sweep, Received, Momentum, IsSqrt, SpringBody;
    LoopIsSuperposition(Pairwise, sprung, n, t, sqrt, axis);
    LoopIsSuperposition(Orbit, paired, n, t, sqrt, axis);
    ReceivedSame(Pairwise, Standing(bs), sprung, n, |bs|, t.repulsionK, sqrt, axis);
    ReceivedSame(Orbit, Standing(bs), paired, n, |bs|, t.repulsionK, sqrt, axis);
  }

  /** The impulse of the spring and the pushes, as a velocity. */
  lemma Accelerates(m: Mass, v: real, pull: real, push: real, w: real)
    requires m * w == m * (v + pull / m) + push
    ensures w == v + (pull + push) / m
  {
    QuotientTimes(pull, m);
    QuotientTimes(pull + push, m);
    assert m * (v + pull / m) + push == m * v + pull + push;
    assert m * (v + (pull + push) / m) == m * v + (pull + push);
    SameFactor(m, w, v + (pull + push) / m);
  }

  function Pull(b: BodyState, k: real, axis: Axis): real {
    (Anchor(b, axis) - Place(b, axis)) * k
  }

  /** The speed a free body moves with. */
  function Driven(b: BodyState, t: Tuning, push: real, axis: Axis): real {
    Speed(b, axis) + (Pull(b, t.springK, axis) + push) / b.mass
  }

  function Drawn(place: real, anchor: real, pull: real): real {
    place + (anchor - place) * pull
  }

  /** One axis of one body over a substep: a fixed body is home; a held body stays and takes up what it
      is pushed with; a free body is carried by its speed, which the spring and all pushes change in
      proportion to its mass, then drawn towards its anchor, and its speed is damped. */
  predicate Moves(b: BodyState, after: BodyState, push: real, t: Tuning, axis: Axis) {
    && (b.Fixed() ==> after.AtRest())
    && (!b.Fixed() && b.isDragging ==> Place(after, axis) == Place(b, axis) && Momentum(after, axis) == push)
    && (b.Free() ==>
          && Speed(after, axis) == Driven(b, t, push, axis) * t.damping
          && Place(after, axis) == Drawn(Place(b, axis) + Driven(b, t, push, axis), Anchor(b, axis), t.settlePull))
  }

  lemma SpringGives(b: BodyState, t: Tuning, axis: Axis)
    ensures var s := SpringBody(b, t);
      && s.SameShape(b)
      && (!b.Fixed() ==> Place(s, axis) == Place(b, axis))
      && (!b.Fixed() && b.isDragging ==> Momentum(s, axis) == 0.0)
      && (b.Free() ==> Momentum(s, axis) == b.mass * (Speed(b, axis) + Pull(b, t.springK, axis) / b.mass))
  {
  }

  lemma IntegrationGives(b: BodyState, t: Tuning, axis: Axis)
    requires t.settlePull >= 0.0
    ensures var after := IntegrateBody(b, t);
      && (b.Fixed() ==> after.AtRest())
      && (!b.Fixed() && b.isDragging ==> after == b)
      && (b.Free() ==>
            && Speed(after, axis) == Speed(b, axis) * t.damping
            && Place(after, axis) == Drawn(Place(b, axis) + Speed(b, axis), Anchor(b, axis), t.settlePull))
  {
  }

  lemma BodyMoves(b: BodyState, pushed: BodyState, push: real, t: Tuning, axis: Axis)
    requires t.settlePull >= 0.0 && pushed.SameButVelocity(SpringBody(b, t))
    requires Momentum(pushed, axis) == Momentum(SpringBody(b, t), axis) + push
    ensures Moves(b, IntegrateBody(pushed, t), push, t, axis)
  {
    SpringGives(b, t, axis);
    IntegrationGives(pushed, t, axis);
    var s := SpringBody(b, t);
    assert pushed.Fixed() == b.Fixed() && pushed.isDragging == b.isDragging && pushed.mass == b.mass;
    assert Place(pushed, axis) == Place(s, axis) && Anchor(pushed, axis) == Anchor(b, axis);
    assert Momentum(pushed, axis) == b.mass * Speed(pushed, axis);
    hide SpringBody, IntegrateBody, Place, Anchor, Speed, Momentum, Pull, Drawn;
    if b.Free() {
      Accelerates(b.mass, Speed(b, axis), Pull(b, t.springK, axis), push, Speed(pushed, axis));
    }
  }

  /** One substep, exactly, for every body, however many others push it and in whatever order. */
  lemma SubstepExactly(bs: seq<BodyState>, n: nat, t: Tuning, sqrt: SqrtFn, axis: Axis)
    requires IsSqrt(sqrt) && t.settlePull >= 0.0 && n < |bs|
    ensures Moves(bs[n], Substep(bs, t, sqrt)[n], Push(bs, n, t.repulsionK, sqrt, axis), t, axis)
  {
    LoopsAreSuperposition(bs, n, t, sqrt, axis);
    var sprung := SpringAll(bs, t);
    var pushed := SweepAll(Orbit, SweepAll(Pairwise, sprung, t, sqrt), t, sqrt)[n];
    assert Substep(bs, t, sqrt)[n] == IntegrateBody(pushed, t);
    assert sprung[n] == SpringBody(bs[n], t);
    hide Substep, SweepAll, Push, IsSqrt, SpringBody, SpringAll, IntegrateBody, Moves, Momentum;
    BodyMoves(bs[n], pushed, Push(bs, n, t.repulsionK, sqrt, axis), t, axis);
  }

  // ----- the order of the bodies -----

  function Sum(s: seq<real>): real {
    if s == [] then 0.0 else Sum(s[..|s| - 1]) + s[|s| - 1]
  }

  function Swap<T>(s: seq<T>, p: nat, q: nat): (r: seq<T>)
    requires p < |s| && q < |s|
    ensures |r| == |s|
  {
    s[p := s[q]][q := s[p]]
  }

  /** Where the entry at `m` comes from. */
  function Origin(p: nat, q: nat, m: nat): nat {
    if m == q then p else if m == p then q else m
  }

  lemma SwapAt<T>(s: seq<T>, p: nat, q: nat)
    requires p < |s| && q < |s|
    ensures forall m :: 0 <= m < |s| ==> Swap(s, p, q)[m] == s[Origin(p, q, m)]
  {
  }

  lemma {:induction false} SumUpdate(s: seq<real>, i: nat, x: real)
    requires i < |s|
    ensures Sum(s[i := x]) == Sum(s) - s[i] + x
  {
    if i == |s| - 1 {
      assert s[i := x][..i] == s[..i];
    } else {
      assert s[i := x][..|s| - 1] == s[..|s| - 1][i := x];
      SumUpdate(s[..|s| - 1], i, x);
    }
  }

  lemma SumSwap(s: seq<real>, p: nat, q: nat)
    requires p < |s| && q < |s|
    ensures Sum(Swap(s, p, q)) == Sum(s)
  {
    SumUpdate(s, p, s[q]);
    SumUpdate(s[p := s[q]], q, s[p]);
  }

  /** What each of the first `m` bodies gives to `target`, body `n`. */
  function Shares(rule: Rule, bs: seq<BodyState>, n: nat, m: nat, k: real, sqrt: SqrtFn, axis: Axis): (r: seq<real>)
    requires n < |bs| && m <= |bs|
    ensures |r| == m
  {
    seq(m, i requires 0 <= i < m => if i == n then 0.0 else From(rule, bs[i], bs[n], k, sqrt, axis))
  }

  lemma {:induction false} ReceivedIsSum(
      rule: Rule, bs: seq<BodyState>, n: nat, m: nat, k: real, sqrt: SqrtFn, axis: Axis)
    requires n < |bs| && m <= |bs|
    ensures Received(rule, bs, n, m, k, sqrt, axis) == Sum(Shares(rule, bs, n, m, k, sqrt, axis))
  {
    hide From;
    if m > 0 {
      ReceivedIsSum(rule, bs, n, m - 1, k, sqrt, axis);
      assert Shares(rule, bs, n, m, k, sqrt, axis)[..m - 1] == Shares(rule, bs, n, m - 1, k, sqrt, axis);
    }
  }

  lemma ReceivedSwap(
      rule: Rule, bs: seq<BodyState>, p: nat, q: nat, n: nat, k: real, sqrt: SqrtFn, axis: Axis)
    requires p < |bs| && q < |bs| && n < |bs|
    ensures Received(rule, Swap(bs, p, q), n, |bs|, k, sqrt, axis)
         == Received(rule, bs, Origin(p, q, n), |bs|, k, sqrt, axis)
  {
    var m := Origin(p, q, n);
    ReceivedIsSum(rule, Swap(bs, p, q), n, |bs|, k, sqrt, axis);
    ReceivedIsSum(rule, bs, m, |bs|, k, sqrt, axis);
    SwapAt(bs, p, q);
    var shares := Shares(rule, bs, m, |bs|, k, sqrt, axis);
    SwapAt(shares, p, q);
    SumSwap(shares, p, q);
    hide From, Swap, Sum;
    assert Shares(rule, Swap(bs, p, q), n, |bs|, k, sqrt, axis) == Swap(shares, p, q);
  }

  lemma PushSwap(bs: seq<BodyState>, p: nat, q: nat, n: nat, k: real, sqrt: SqrtFn, axis: Axis)
    requires p < |bs| && q < |bs| && n < |bs|
    ensures Push(Swap(bs, p, q), n, k, sqrt, axis) == Push(bs, Origin(p, q, n), k, sqrt, axis)
  {
    assert Standing(Swap(bs, p, q)) == Swap(Standing(bs), p, q);
    hide Received, Swap, Standing;
    ReceivedSwap(Pairwise, Standing(bs), p, q, n, k, sqrt, axis);
    ReceivedSwap(Orbit, Standing(bs), p, q, n, k, sqrt, axis);
  }

  /** What moves a body on both axes determines it. */
  lemma MovesDetermines(b: BodyState, one: BodyState, other: BodyState, px: real, py: real, t: Tuning)
    requires one.SameShape(b) && other.SameShape(b)
    requires Moves(b, one, px, t, X) && Moves(b, one, py, t, Y)
    requires Moves(b, other, px, t, X) && Moves(b, other, py, t, Y)
    ensures one == other
  {
    hide Driven, Drawn;
    if !b.Fixed() && b.isDragging {
      SameFactor(b.mass, one.vx, other.vx);
      SameFactor(b.mass, one.vy, other.vy);
    }
  }

  lemma SubstepSwap(bs: seq<BodyState>, p: nat, q: nat, t: Tuning, sqrt: SqrtFn)
    requires IsSqrt(sqrt) && t.settlePull >= 0.0 && p < |bs| && q < |bs|
    ensures Substep(Swap(bs, p, q), t, sqrt) == Swap(Substep(bs, t, sqrt), p, q)
  {
    SwapAt(bs, p, q);
    SwapAt(Substep(bs, t, sqrt), p, q);
    SubstepFrame(bs, t, sqrt);
    SubstepFrame(Swap(bs, p, q), t, sqrt);
    hide Substep, Swap, Push, Moves, IsSqrt;
    forall n | 0 <= n < |bs|
      ensures Substep(Swap(bs, p, q), t, sqrt)[n] == Substep(bs, t, sqrt)[Origin(p, q, n)]
    {
      var m := Origin(p, q, n);
      var px, py := Push(bs, m, t.repulsionK, sqrt, X), Push(bs, m, t.repulsionK, sqrt, Y);
      PushSwap(bs, p, q, n, t.repulsionK, sqrt, X);
      PushSwap(bs, p, q, n, t.repulsionK, sqrt, Y);
      SubstepExactly(bs, m, t, sqrt, X);
      SubstepExactly(bs, m, t, sqrt, Y);
      SubstepExactly(Swap(bs, p, q), n, t, sqrt, X);
      SubstepExactly(Swap(bs, p, q), n, t, sqrt, Y);
      MovesDetermines(bs[m], Substep(Swap(bs, p, q), t, sqrt)[n], Substep(bs, t, sqrt)[m], px, py, t);
    }
  }

  ghost predicate SwapsWithin(swaps: seq<(nat, nat)>, size: nat) {
    forall i :: 0 <= i < |swaps| ==> swaps[i].0 < size && swaps[i].1 < size
  }

  /** A list reordered by one swap after the other; every order is reached like this. */
  function Reordered<T>(s: seq<T>, swaps: seq<(nat, nat)>): (r: seq<T>)
    requires SwapsWithin(swaps, |s|)
    ensures |r| == |s|
  {
    if swaps == [] then s
    else
      var last := swaps[|swaps| - 1];
      Swap(Reordered(s, swaps[..|swaps| - 1]), last.0, last.1)
  }

  lemma {:induction false} SubstepReordered(bs: seq<BodyState>, swaps: seq<(nat, nat)>, t: Tuning, sqrt: SqrtFn)
    requires IsSqrt(sqrt) && t.settlePull >= 0.0 && SwapsWithin(swaps, |bs|)
    ensures Substep(Reordered(bs, swaps), t, sqrt) == Reordered(Substep(bs, t, sqrt), swaps)
  {
    hide Substep, Swap, IsSqrt;
    if swaps != [] {
      var last := swaps[|swaps| - 1];
      SubstepReordered(bs, swaps[..|swaps| - 1], t, sqrt);
      SubstepSwap(Reordered(bs, swaps[..|swaps| - 1]), last.0, last.1, t, sqrt);
    }
  }

  /** In whatever order the bodies are listed, and so in whatever order the loops visit the pairs, every
      body moves the same, over any number of substeps and in every mode. */
  lemma {:induction false} OrderOfBodiesIrrelevant(
      bs: seq<BodyState>, swaps: seq<(nat, nat)>, n: nat, focus: Focus, sqrt: SqrtFn)
    requires IsSqrt(sqrt) && SwapsWithin(swaps, |bs|)
    ensures Substeps(Reordered(bs, swaps), n, TuningFor(focus), sqrt)
         == Reordered(Substeps(bs, n, TuningFor(focus), sqrt), swaps)
  {
    hide Substep, Reordered, IsSqrt;
    if n > 0 {
      OrderOfBodiesIrrelevant(bs, swaps, n - 1, focus, sqrt);
      SubstepReordered(Substeps(bs, n - 1, TuningFor(focus), sqrt), swaps, TuningFor(focus), sqrt);
    }
  }
}
