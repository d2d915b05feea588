/** The map's spring solver on values: what one frame does to a list of bodies
    (dashboard/public/mindmap.jsx). The in-place loops are in module Solver. */
module Bodies {
  import opened Prelude

  type Mass = m: real | m > 0.0 witness 1.0

  /** A body of the map. `orbitRadius` is 0 for a body without an orbit ring. */
  datatype BodyState = BodyState(
    x: real, y: real, vx: real, vy: real, anchorX: real, anchorY: real,
    radius: real, mass: Mass, isDragging: bool, draggable: Option<bool>, orbitRadius: real)
  {
    predicate Fixed() {
      draggable == Some(false)
    }

    predicate Free() {
      !Fixed() && !isDragging
    }

    predicate AtRest() {
      x == anchorX && y == anchorY && vx == 0.0 && vy == 0.0
    }

    function Stopped(): BodyState {
      this.(vx := 0.0, vy := 0.0)
    }

    function Home(): BodyState {
      this.(x := anchorX, y := anchorY, vx := 0.0, vy := 0.0)
    }

    /** Everything a contact or a spring may not touch. */
    ghost predicate SameButVelocity(b: BodyState) {
      this == b.(vx := vx, vy := vy)
    }

    /** Everything no step of the solver may touch. */
    ghost predicate SameShape(b: BodyState) {
      this == b.(x := x, y := y, vx := vx, vy := vy)
    }
  }

  /** The zoom level: no selection, a chain selected, a protocol selected. */
  datatype Focus = Root | ChainFocus | ProtocolFocus

  datatype Tuning = Tuning(repulsionK: real, springK: real, damping: real, settlePull: real)

  const REPULSION_K := 0.3
  const SPRING_K := 0.10
  const DAMPING := 0.94
  const SUBSTEPS := 2
  const PAD := 6.0

  function TuningFor(focus: Focus): Tuning {
    match focus
    case Root => Tuning(REPULSION_K, SPRING_K, DAMPING, 0.0)
    case ChainFocus => Tuning(REPULSION_K * 0.34, SPRING_K * 0.42, 0.82, 0.08)
    case ProtocolFocus => Tuning(REPULSION_K * 0.16, SPRING_K * 0.2, 0.7, 0.18)
  }

  /** The square root is a parameter; most laws of the solver hold whatever its values are. */
  type SqrtFn = real -> real

  ghost predicate IsSqrt(sqrt: SqrtFn) {
    forall a :: a >= 0.0 ==> sqrt(a) >= 0.0 && sqrt(a) * sqrt(a) == a
  }

  function Dist(sqrt: SqrtFn, dx: real, dy: real): (d: real)
    ensures d != 0.0
  {
    var root := sqrt(dx * dx + dy * dy);
    if root == 0.0 then 1.0 else root
  }

  // ----- springs -----

  /** The velocity after the spring pulled for one substep across `gap`. */
  function Sprung(v: real, gap: real, t: Tuning, m: Mass): real {
    v + gap * t.springK / m
  }

  function Damped(v: real, t: Tuning): real {
    v * t.damping
  }

  function SpringBody(b: BodyState, t: Tuning): BodyState {
    if b.Fixed() then b.Home()
    else if b.isDragging then b.Stopped()
    else b.(vx := Sprung(b.vx, b.anchorX - b.x, t, b.mass), vy := Sprung(b.vy, b.anchorY - b.y, t, b.mass))
  }

  function SpringAll(bs: seq<BodyState>, t: Tuning): seq<BodyState> {
    seq(|bs|, i requires 0 <= i < |bs| => SpringBody(bs[i], t))
  }

  // ----- contacts -----

  /** The two contact rules: every pair of bodies, and every orbit ring against every other body. */
  datatype Rule = Pairwise | Orbit

  function Reach(rule: Rule, a: BodyState, b: BodyState): real {
    (if rule.Pairwise? then a.radius else a.orbitRadius) + b.radius + PAD
  }

  function Force(rule: Rule, overlap: real, t: Tuning): real {
    if rule.Pairwise? then t.repulsionK * overlap else t.repulsionK * overlap * 1.5
  }

  /** Body `a` is too close to body `b` under `rule`. */
  predicate Overlap(rule: Rule, a: BodyState, b: BodyState, sqrt: SqrtFn) {
    && (rule.Orbit? ==> a.orbitRadius != 0.0)
    && Dist(sqrt, b.x - a.x, b.y - a.y) < Reach(rule, a, b)
  }

  function KickForward(b: BodyState, ix: real, iy: real): BodyState {
    if b.Fixed() then b else b.(vx := b.vx + ix / b.mass, vy := b.vy + iy / b.mass)
  }

  function KickBack(b: BodyState, ix: real, iy: real): BodyState {
    if b.Fixed() then b else b.(vx := b.vx - ix / b.mass, vy := b.vy - iy / b.mass)
  }

  /** Shares the impulse of one contact, with the source's three drag cases. */
  function Share(a: BodyState, b: BodyState, ix: real, iy: real): (BodyState, BodyState) {
    if a.isDragging && !b.isDragging then (KickBack(a, ix, iy), b)
    else if !a.isDragging && b.isDragging then (a, KickForward(b, ix, iy))
    else (if !a.isDragging then KickBack(a, ix, iy) else a,
          if !b.isDragging then KickForward(b, ix, iy) else b)
  }

  /** One axis of a force along the line between two bodies. */
  function Component(force: real, d: real, dist: real): real
    requires dist != 0.0
  {
    force * (d / dist)
  }

  /** Two bodies after `rule` was applied to them. */
  function Meet(rule: Rule, a: BodyState, b: BodyState, t: Tuning, sqrt: SqrtFn): (BodyState, BodyState) {
    if !Overlap(rule, a, b, sqrt) then (a, b)
    else
      var dx, dy := b.x - a.x, b.y - a.y;
      var dist := Dist(sqrt, dx, dy);
      var force := Force(rule, Reach(rule, a, b) - dist, t);
      Share(a, b, Component(force, dx, dist), Component(force, dy, dist))
  }

  /** The list after `rule` was applied to bodies `i` and `j`. */
  function Contact(rule: Rule, bs: seq<BodyState>, i: nat, j: nat, t: Tuning, sqrt: SqrtFn): (r: seq<BodyState>)
    requires i < |bs| && j < |bs|
    ensures |r| == |bs|
  {
    if i == j then bs
    else
      var (a, b) := Meet(rule, bs[i], bs[j], t, sqrt);
      bs[i := a][j := b]
  }

  /** The first partner the inner loop visits for body `i`. */
  function FirstPartner(rule: Rule, i: nat): nat {
    if rule.Pairwise? then i + 1 else 0
  }

  /** What remains of a nested contact loop that stands at (i, j). */
  function Sweep(rule: Rule, bs: seq<BodyState>, i: nat, j: nat, t: Tuning, sqrt: SqrtFn): (r: seq<BodyState>)
    ensures |r| == |bs|
    decreases |bs| - i, |bs| - j
  {
    if i >= |bs| then bs
    else if j >= |bs| then Sweep(rule, bs, i + 1, FirstPartner(rule, i + 1), t, sqrt)
    else Sweep(rule, Contact(rule, bs, i, j, t, sqrt), i, j + 1, t, sqrt)
  }

  function SweepAll(rule: Rule, bs: seq<BodyState>, t: Tuning, sqrt: SqrtFn): seq<BodyState> {
    Sweep(rule, bs, 0, FirstPartner(rule, 0), t, sqrt)
  }

  // ----- integration -----

  function Settle(x: real, anchor: real, pull: real): real {
    if pull > 0.0 then x + (anchor - x) * pull else x
  }

  function IntegrateBody(b: BodyState, t: Tuning): BodyState {
    if b.Fixed() then b.Home()
    else if b.isDragging then b
    else b.(x := Settle(b.x + b.vx, b.anchorX, t.settlePull),
            y := Settle(b.y + b.vy, b.anchorY, t.settlePull),
            vx := Damped(b.vx, t),
            vy := Damped(b.vy, t))
  }

  function IntegrateAll(bs: seq<BodyState>, t: Tuning): seq<BodyState> {
    seq(|bs|, i requires 0 <= i < |bs| => IntegrateBody(bs[i], t))
  }

  // ----- frames -----

  /** Springs, both contact sweeps, then integration. */
  function Substep(bs: seq<BodyState>, t: Tuning, sqrt: SqrtFn): (r: seq<BodyState>)
    ensures |r| == |bs|
  {
    var sprung := SpringAll(bs, t);
    IntegrateAll(SweepAll(Orbit, SweepAll(Pairwise, sprung, t, sqrt), t, sqrt), t)
  }

  function Substeps(bs: seq<BodyState>, n: nat, t: Tuning, sqrt: SqrtFn): (r: seq<BodyState>)
    ensures |r| == |bs|
  {
    if n == 0 then bs else Substep(Substeps(bs, n - 1, t, sqrt), t, sqrt)
  }

  /** One animation frame. */
  function Tick(bs: seq<BodyState>, t: Tuning, sqrt: SqrtFn): (r: seq<BodyState>)
    ensures |r| == |bs|
  {
    Substeps(bs, SUBSTEPS, t, sqrt)
  }

  /** The snap that follows a change of selection: every body not held goes home. */
  function SnapAll(bs: seq<BodyState>): seq<BodyState> {
    seq(|bs|, i requires 0 <= i < |bs| => if bs[i].isDragging then bs[i] else bs[i].Home())
  }
}
