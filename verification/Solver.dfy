/** The solver's loops, in place on body objects (dashboard/public/mindmap.jsx, `tick` and the
    snap on selection). Every pass is proved equal to its value form in module Bodies. */
module Solver {
  import opened Prelude
  import opened Bodies

  class Body {
    var x: real
    var y: real
    var vx: real
    var vy: real
    var anchorX: real
    var anchorY: real
    var radius: real
    var mass: Mass
    var isDragging: bool
    var draggable: Option<bool>
    var orbitRadius: real

    function State(): BodyState
      reads this
    {
      BodyState(x, y, vx, vy, anchorX, anchorY, radius, mass, isDragging, draggable, orbitRadius)
    }

    /** A new body starts on its anchor, at rest. */
    constructor (anchorX: real, anchorY: real, radius: real, mass: Mass, draggable: Option<bool>, orbitRadius: real)
      ensures State() == BodyState(anchorX, anchorY, 0.0, 0.0, anchorX, anchorY, radius, mass, false,
                                   draggable, orbitRadius)
    {
      x, y, vx, vy := anchorX, anchorY, 0.0, 0.0;
      this.anchorX, this.anchorY, this.radius, this.mass := anchorX, anchorY, radius, mass;
      isDragging, this.draggable, this.orbitRadius := false, draggable, orbitRadius;
    }

    method GoHome()
      modifies `x, `y, `vx, `vy
      ensures State() == old(State()).Home()
    {
      x, y := anchorX, anchorY;
      vx, vy := 0.0, 0.0;
    }

    method Spring(t: Tuning)
      modifies `x, `y, `vx, `vy
      ensures State() == SpringBody(old(State()), t)
    {
      if draggable == Some(false) { GoHome(); return; }
      if isDragging { vx, vy := 0.0, 0.0; return; }
      var fx := (anchorX - x) * t.springK;
      var fy := (anchorY - y) * t.springK;
      vx := vx + fx / mass;
      vy := vy + fy / mass;
    }

    method Push(ix: real, iy: real)
      modifies `vx, `vy
      ensures State() == KickForward(old(State()), ix, iy)
    {
      if draggable != Some(false) {
        vx := vx + ix / mass;
        vy := vy + iy / mass;
      }
    }

    method Recoil(ix: real, iy: real)
      modifies `vx, `vy
      ensures State() == KickBack(old(State()), ix, iy)
    {
      if draggable != Some(false) {
        vx := vx - ix / mass;
        vy := vy - iy / mass;
      }
    }

    method Integrate(t: Tuning)
      modifies `x, `y, `vx, `vy
      ensures State() == IntegrateBody(old(State()), t)
    {
      if draggable == Some(false) { GoHome(); return; }
      if isDragging { return; }
      x := x + vx;
      y := y + vy;
      if t.settlePull > 0.0 {
        x := x + (anchorX - x) * t.settlePull;
        y := y + (anchorY - y) * t.settlePull;
      }
      assert x == Settle(old(x + vx), anchorX, t.settlePull) && y == Settle(old(y + vy), anchorY, t.settlePull);
      hide Settle;
      vx := vx * t.damping;
      vy := vy * t.damping;
    }
  }

  function States(list: seq<Body>): (r: seq<BodyState>)
    reads list
    ensures |r| == |list|
    ensures forall i :: 0 <= i < |list| ==> r[i] == list[i].State()
  {
    seq(|list|, i requires 0 <= i < |list| reads list => list[i].State())
  }

  method SpringPass(list: seq<Body>, t: Tuning)
    requires Distinct(list)
    modifies list
    ensures States(list) == SpringAll(old(States(list)), t)
  {
    for n := 0 to |list|
      invariant forall k :: 0 <= k < n ==> list[k].State() == SpringBody(old(list[k].State()), t)
      invariant forall k :: n <= k < |list| ==> list[k].State() == old(list[k].State())
    {
      list[n].Spring(t);
    }
  }

  /** The body of both contact loops for two different bodies. */
  method Collide(rule: Rule, a: Body, b: Body, t: Tuning, sqrt: SqrtFn)
    requires a != b
    modifies a`vx, a`vy, b`vx, b`vy
    ensures (a.State(), b.State()) == Meet(rule, old(a.State()), old(b.State()), t, sqrt)
  {
    if rule.Orbit? && a.orbitRadius == 0.0 { return; }  // the orbit loop skips such a body
    var dx := b.x - a.x;
    var dy := b.y - a.y;
    var dist := Dist(sqrt, dx, dy);
    var minDist := (if rule.Pairwise? then a.radius else a.orbitRadius) + b.radius + PAD;
    if dist < minDist {
      var overlap := minDist - dist;
      assert overlap == Reach(rule, a.State(), b.State()) - dist;
      var force := Force(rule, overlap, t);
      var ix, iy := Component(force, dx, dist), Component(force, dy, dist);
      if a.isDragging && !b.isDragging {
        a.Recoil(ix, iy);
      } else if !a.isDragging && b.isDragging {
        b.Push(ix, iy);
      } else {
        if !a.isDragging { a.Recoil(ix, iy); }
        if !b.isDragging { b.Push(ix, iy); }
      }
    }
  }

  /** One step of a contact loop, seen on the whole list. */
  method CollideAt(rule: Rule, list: seq<Body>, i: nat, j: nat, t: Tuning, sqrt: SqrtFn)
    requires Distinct(list) && i < |list| && j < |list| && i != j
    modifies list
    ensures States(list) == Contact(rule, old(States(list)), i, j, t, sqrt)
  {
    ghost var before := States(list);
    Collide(rule, list[i], list[j], t, sqrt);
    var after := States(list);
    assert forall k :: 0 <= k < |list| && k != i && k != j ==> after[k] == before[k];
    assert after == Contact(rule, before, i, j, t, sqrt);
  }

  method RepulsionRow(list: seq<Body>, i: nat, t: Tuning, sqrt: SqrtFn)
    requires Distinct(list) && i < |list|
    modifies list
    ensures Sweep(Pairwise, States(list), i, |list|, t, sqrt) == Sweep(Pairwise, old(States(list)), i, i + 1, t, sqrt)
  {
    hide Meet, Contact;
    for j := i + 1 to |list|
      invariant Sweep(Pairwise, States(list), i, j, t, sqrt) == Sweep(Pairwise, old(States(list)), i, i + 1, t, sqrt)
    {
      CollideAt(Pairwise, list, i, j, t, sqrt);
    }
  }

  method RepulsionPass(list: seq<Body>, t: Tuning, sqrt: SqrtFn)
    requires Distinct(list)
    modifies list
    ensures States(list) == SweepAll(Pairwise, old(States(list)), t, sqrt)
  {
    hide Meet;
    for i := 0 to |list|
      invariant Sweep(Pairwise, States(list), i, i + 1, t, sqrt) == SweepAll(Pairwise, old(States(list)), t, sqrt)
    {
      RepulsionRow(list, i, t, sqrt);
    }
  }

  /** A body without an orbit ring pushes nobody: its whole inner loop may be skipped. */
  lemma {:induction false} SkipRingless(bs: seq<BodyState>, i: nat, j: nat, t: Tuning, sqrt: SqrtFn)
    requires i < |bs| && j <= |bs| && bs[i].orbitRadius == 0.0
    ensures Sweep(Orbit, bs, i, j, t, sqrt) == Sweep(Orbit, bs, i, |bs|, t, sqrt)
    decreases |bs| - j
  {
    if j < |bs| {
      assert Contact(Orbit, bs, i, j, t, sqrt) == bs;
      SkipRingless(bs, i, j + 1, t, sqrt);
    }
  }

  method OrbitRow(list: seq<Body>, i: nat, t: Tuning, sqrt: SqrtFn)
    requires Distinct(list) && i < |list|
    modifies list
    ensures Sweep(Orbit, States(list), i, |list|, t, sqrt) == Sweep(Orbit, old(States(list)), i, 0, t, sqrt)
  {
    hide Meet;
    if list[i].orbitRadius == 0.0 {
      SkipRingless(States(list), i, 0, t, sqrt);
      return;
    }
    for j := 0 to |list|
      invariant Sweep(Orbit, States(list), i, j, t, sqrt) == Sweep(Orbit, old(States(list)), i, 0, t, sqrt)
    {
      if list[j] == list[i] { continue; }
      CollideAt(Orbit, list, i, j, t, sqrt);
    }
  }

  method OrbitPass(list: seq<Body>, t: Tuning, sqrt: SqrtFn)
    requires Distinct(list)
    modifies list
    ensures States(list) == SweepAll(Orbit, old(States(list)), t, sqrt)
  {
    hide Meet;
    for i := 0 to |list|
      invariant Sweep(Orbit, States(list), i, 0, t, sqrt) == SweepAll(Orbit, old(States(list)), t, sqrt)
    {
      OrbitRow(list, i, t, sqrt);
    }
  }

  method IntegratePass(list: seq<Body>, t: Tuning)
    requires Distinct(list)
    modifies list
    ensures States(list) == IntegrateAll(old(States(list)), t)
  {
    for n := 0 to |list|
      invariant forall k :: 0 <= k < n ==> list[k].State() == IntegrateBody(old(list[k].State()), t)
      invariant forall k :: n <= k < |list| ==> list[k].State() == old(list[k].State())
    {
      list[n].Integrate(t);
    }
  }

  /** One animation frame over the bodies, in place. */
  method TickInPlace(list: seq<Body>, focus: Focus, sqrt: SqrtFn)
    requires Distinct(list)
    modifies list
    ensures States(list) == Tick(old(States(list)), TuningFor(focus), sqrt)
  {
    var t := TuningFor(focus);
    for step := 0 to SUBSTEPS
      invariant States(list) == Substeps(old(States(list)), step, t, sqrt)
    {
      SpringPass(list, t);
      RepulsionPass(list, t, sqrt);
      OrbitPass(list, t, sqrt);
      IntegratePass(list, t);
    }
  }

  method SnapToAnchors(list: seq<Body>)
    requires Distinct(list)
    modifies list
    ensures States(list) == SnapAll(old(States(list)))
  {
    for n := 0 to |list|
      invariant forall k :: 0 <= k < n ==>
        list[k].State() == (if old(list[k].isDragging) then old(list[k].State()) else old(list[k].State()).Home())
      invariant forall k :: n <= k < |list| ==> list[k].State() == old(list[k].State())
    {
      if !list[n].isDragging {
        list[n].GoHome();
      }
    }
  }
}
