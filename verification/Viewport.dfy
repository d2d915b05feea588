/** Fitting the focused part of the map into the safe area of the view box
    (dashboard/public/mindmap.jsx): bounds collected in place, padded, then turned into a zoom
    and a translation. */
module Viewport {
  import opened Prelude

  /** A JavaScript number: finite, infinite or NaN. */
  datatype Number = NaN | NegInf | Finite(r: real) | PosInf

  function NumMin(a: Number, b: Number): Number {
    if a.NaN? || b.NaN? then NaN
    else if a.NegInf? || b.NegInf? then NegInf
    else if a.PosInf? then b
    else if b.PosInf? then a
    else Finite(Min(a.r, b.r))
  }

  function NumMax(a: Number, b: Number): Number {
    if a.NaN? || b.NaN? then NaN
    else if a.PosInf? || b.PosInf? then PosInf
    else if a.NegInf? then b
    else if b.NegInf? then a
    else Finite(Max(a.r, b.r))
  }

  /** What the map feeds into the bounds. Rectangles are given by their centre. */
  datatype Shape =
    | Circle(x: Number, y: Number, radius: Number)
    | Rect(x: Number, y: Number, width: Number, height: Number)
  {
    /** Shapes with a number that is not finite are ignored. */
    predicate Usable() {
      match this
      case Circle(x, y, radius) => x.Finite? && y.Finite? && radius.Finite?
      case Rect(x, y, width, height) => x.Finite? && y.Finite? && width.Finite? && height.Finite?
    }

    /** The point (px, py) belongs to the drawn shape. */
    ghost predicate Covers(px: real, py: real) {
      Usable() &&
      match this
      case Circle(x, y, radius) =>
        && radius.r >= 0.0
        && (px - x.r) * (px - x.r) + (py - y.r) * (py - y.r) <= radius.r * radius.r
      case Rect(x, y, width, height) =>
        && Abs(px - x.r) <= width.r / 2.0
        && Abs(py - y.r) <= height.r / 2.0
    }

    /** How far the shape reaches to each side. */
    ghost function Edges(): Box
      requires Usable()
    {
      match this
      case Circle(x, y, radius) => Box(x.r - radius.r, y.r - radius.r, x.r + radius.r, y.r + radius.r)
      case Rect(x, y, width, height) =>
        Box(x.r - width.r / 2.0, y.r - height.r / 2.0, x.r + width.r / 2.0, y.r + height.r / 2.0)
    }

    /** Half of the shape's extent along each axis. */
    function Reach(): (real, real)
      requires Usable()
    {
      if Circle? then (radius.r, radius.r) else (width.r / 2.0, height.r / 2.0)
    }
  }

  datatype Box = Box(minX: real, minY: real, maxX: real, maxY: real) {
    ghost predicate Contains(px: real, py: real) {
      minX <= px <= maxX && minY <= py <= maxY
    }

    function Include(s: Shape): Box
      requires s.Usable()
    {
      var (rx, ry) := s.Reach();
      Box(Min(minX, s.x.r - rx), Min(minY, s.y.r - ry), Max(maxX, s.x.r + rx), Max(maxY, s.y.r + ry))
    }
  }

  /** The bounds of a list of shapes: none while no usable shape was seen. */
  function BoxOf(shapes: seq<Shape>): Option<Box> {
    if shapes == [] then None
    else
      var s, before := shapes[|shapes| - 1], BoxOf(shapes[..|shapes| - 1]);
      if !s.Usable() then before
      else
        var (rx, ry) := s.Reach();
        match before
        case None => Some(Box(s.x.r - rx, s.y.r - ry, s.x.r + rx, s.y.r + ry))
        case Some(box) => Some(box.Include(s))
  }

  /** The mutable bounds object of the source, which starts inside out. */
  class Bounds {
    var minX: Number
    var minY: Number
    var maxX: Number
    var maxY: Number

    /** The four numbers describe `box`. */
    ghost predicate Shows(box: Option<Box>)
      reads this
    {
      match box
      case None => minX == PosInf && minY == PosInf && maxX == NegInf && maxY == NegInf
      case Some(b) =>
        minX == Finite(b.minX) && minY == Finite(b.minY) && maxX == Finite(b.maxX) && maxY == Finite(b.maxY)
    }

    constructor ()
      ensures Shows(BoxOf([]))
    {
      minX, minY, maxX, maxY := PosInf, PosInf, NegInf, NegInf;
    }

    method IncludeCircle(x: Number, y: Number, radius: Number, ghost seen: seq<Shape>)
      requires Shows(BoxOf(seen))
      modifies this
      ensures Shows(BoxOf(seen + [Circle(x, y, radius)]))
    {
      assert (seen + [Circle(x, y, radius)])[..|seen|] == seen;
      if !x.Finite? || !y.Finite? || !radius.Finite? { return; }
      minX := NumMin(minX, Finite(x.r - radius.r));
      minY := NumMin(minY, Finite(y.r - radius.r));
      maxX := NumMax(maxX, Finite(x.r + radius.r));
      maxY := NumMax(maxY, Finite(y.r + radius.r));
    }

    method IncludeRect(x: Number, y: Number, width: Number, height: Number, ghost seen: seq<Shape>)
      requires Shows(BoxOf(seen))
      modifies this
      ensures Shows(BoxOf(seen + [Rect(x, y, width, height)]))
    {
      assert (seen + [Rect(x, y, width, height)])[..|seen|] == seen;
      if !x.Finite? || !y.Finite? || !width.Finite? || !height.Finite? { return; }
      minX := NumMin(minX, Finite(x.r - width.r / 2.0));
      minY := NumMin(minY, Finite(y.r - height.r / 2.0));
      maxX := NumMax(maxX, Finite(x.r + width.r / 2.0));
      maxY := NumMax(maxY, Finite(y.r + height.r / 2.0));
    }

    /** `null` unless all four numbers are finite. */
    method Finalize(ghost seen: seq<Shape>) returns (box: Option<Box>)
      requires Shows(BoxOf(seen))
      ensures box == BoxOf(seen)
    {
      if !minX.Finite? || !minY.Finite? || !maxX.Finite? || !maxY.Finite? { return None; }
      return Some(Box(minX.r, minY.r, maxX.r, maxY.r));
    }
  }

  /** Collects the bounds of any list of shapes. */
  method CollectBounds(shapes: seq<Shape>) returns (box: Option<Box>)
    ensures box == BoxOf(shapes)
  {
    var bounds := new Bounds();
    for i := 0 to |shapes|
      invariant bounds.Shows(BoxOf(shapes[..i]))
    {
      assert shapes[..i] + [shapes[i]] == shapes[..i + 1];
      match shapes[i]
      case Circle(x, y, radius) => bounds.IncludeCircle(x, y, radius, shapes[..i]);
      case Rect(x, y, width, height) => bounds.IncludeRect(x, y, width, height, shapes[..i]);
    }
    assert shapes[..|shapes|] == shapes;
    box := bounds.Finalize(shapes);
  }

  function PadBounds(box: Box, x: real, y: real): Box {
    Box(box.minX - x, box.minY - y, box.maxX + x, box.maxY + y)
  }

  datatype ViewBox = ViewBox(width: real, height: real)
  datatype SafeArea = SafeArea(top: real, right: real, bottom: real, left: real)
  datatype Transform = Transform(zoom: real, tx: real, ty: real)

  function Nearest(target: real, low: real, high: real): real {
    if low <= high then Clamp(target, low, high) else (low + high) / 2.0
  }

  /** One axis of the translation, for content [low, high] in the screen span [from, to]: the one
      nearest to putting `focus` at `centre`, or the middle when the content is too large. */
  function Translate(low: real, high: real, zoom: real, focus: real, centre: real, from: real, to: real): real {
    Nearest(centre - focus * zoom, from - low * zoom, to - high * zoom)
  }

  /** The largest zoom at which one axis fits. */
  function AxisZoom(extent: real, avail: real): real {
    Max(1.0, avail) / Max(1.0, extent)
  }

  function FitZoom(b: Box, view: ViewBox, safe: SafeArea): real {
    Min(AxisZoom(b.maxX - b.minX, view.width - safe.left - safe.right),
        AxisZoom(b.maxY - b.minY, view.height - safe.top - safe.bottom))
  }

  function FitBounds(b: Box, view: ViewBox, safe: SafeArea, focus: Point, minZoom: real, maxZoom: real): Transform {
    var zoom := Clamp(FitZoom(b, view, safe), minZoom, maxZoom);
    var centreY := safe.top + Max(1.0, view.height - safe.top - safe.bottom) / 2.0;
    Transform(zoom,
      Translate(b.minX, b.maxX, zoom, focus.x, view.width / 2.0, safe.left, view.width - safe.right),
      Translate(b.minY, b.maxY, zoom, focus.y, centreY, safe.top, view.height - safe.bottom))
  }

  // ----- what is collected -----

  lemma CircleExtent(d: real, other: real, r: real)
    requires r >= 0.0 && d * d + other * other <= r * r
    ensures -r <= d <= r
  {
    SquareNonneg(other);
    assert (-d) * (-d) == d * d;
    RootsGrow(d, r);
    RootsGrow(-d, r);
  }

  lemma CoveredWithinReach(s: Shape, px: real, py: real)
    requires s.Covers(px, py)
    ensures s.x.r - s.Reach().0 <= px <= s.x.r + s.Reach().0
    ensures s.y.r - s.Reach().1 <= py <= s.y.r + s.Reach().1
  {
    if s.Circle? {
      CircleExtent(px - s.x.r, py - s.y.r, s.radius.r);
      CircleExtent(py - s.y.r, px - s.x.r, s.radius.r);
    }
  }

  /** Every point of every included shape lies in the collected bounds. */
  lemma {:induction false} CollectedContains(shapes: seq<Shape>, i: nat, px: real, py: real)
    requires i < |shapes| && shapes[i].Covers(px, py)
    ensures BoxOf(shapes).Some? && BoxOf(shapes).value.Contains(px, py)
  {
    var n := |shapes| - 1;
    if i < n {
      CollectedContains(shapes[..n], i, px, py);
    } else {
      CoveredWithinReach(shapes[n], px, py);
    }
  }

  datatype Side = Left | Top | Right | Bottom

  ghost function SideOf(b: Box, side: Side): real {
    match side
    case Left => b.minX
    case Top => b.minY
    case Right => b.maxX
    case Bottom => b.maxY
  }

  /** Some usable shape reaches exactly as far. */
  ghost predicate Touched(shapes: seq<Shape>, side: Side, at: real) {
    exists i :: 0 <= i < |shapes| && shapes[i].Usable() && SideOf(shapes[i].Edges(), side) == at
  }

  /** No usable shape reaches beyond the bounds, and on each side one touches them. */
  ghost predicate Outermost(shapes: seq<Shape>, b: Box) {
    && (forall i :: 0 <= i < |shapes| && shapes[i].Usable() ==>
          var e := shapes[i].Edges(); b.minX <= e.minX && b.minY <= e.minY && b.maxX >= e.maxX && b.maxY >= e.maxY)
    && (forall side :: Touched(shapes, side, SideOf(b, side)))
  }

  lemma TouchedAppend(shapes: seq<Shape>, s: Shape, side: Side, at: real)
    ensures Touched(shapes, side, at) ==> Touched(shapes + [s], side, at)
    ensures s.Usable() && SideOf(s.Edges(), side) == at ==> Touched(shapes + [s], side, at)
  {
    var more := shapes + [s];
    assert more[|shapes|] == s;
    if Touched(shapes, side, at) {
      var i :| 0 <= i < |shapes| && shapes[i].Usable() && SideOf(shapes[i].Edges(), side) == at;
      assert more[i] == shapes[i];
    }
  }

  /** There are bounds exactly when a shape is usable, and they are no wider than needed. */
  lemma {:induction false} BoundsAreTight(shapes: seq<Shape>)
    ensures BoxOf(shapes).Some? <==> exists i :: 0 <= i < |shapes| && shapes[i].Usable()
    ensures BoxOf(shapes).Some? ==> Outermost(shapes, BoxOf(shapes).value)
  {
    if shapes != [] {
      var before, s := shapes[..|shapes| - 1], shapes[|shapes| - 1];
      BoundsAreTight(before);
      assert shapes == before + [s];
      forall side: Side, at: real
        ensures Touched(before, side, at) ==> Touched(shapes, side, at)
        ensures s.Usable() && SideOf(s.Edges(), side) == at ==> Touched(shapes, side, at)
      {
        TouchedAppend(before, s, side, at);
      }
      hide Touched;
      forall side: Side | BoxOf(shapes).Some?
        ensures Touched(shapes, side, SideOf(BoxOf(shapes).value, side))
      {
        var at := SideOf(BoxOf(shapes).value, side);
        assert (BoxOf(before).Some? && SideOf(BoxOf(before).value, side) == at)
          || (s.Usable() && SideOf(s.Edges(), side) == at);
      }
    }
  }

  /** Padding reaches exactly the points within `x` and `y` of the box. */
  lemma PadReaches(b: Box, x: real, y: real, px: real, py: real)
    requires x >= 0.0 && y >= 0.0 && b.minX <= b.maxX && b.minY <= b.maxY
    ensures PadBounds(b, x, y).Contains(px, py)
       <==> exists qx, qy :: b.Contains(qx, qy) && Abs(px - qx) <= x && Abs(py - qy) <= y
  {
    var qx, qy := Clamp(px, b.minX, b.maxX), Clamp(py, b.minY, b.maxY);
    if PadBounds(b, x, y).Contains(px, py) {
      assert b.Contains(qx, qy) && Abs(px - qx) <= x && Abs(py - qy) <= y;
    }
  }

  // ----- what is fitted -----

  function Zoomed(p: real, zoom: real): real {
    p * zoom
  }

  /** One coordinate, zoomed and shifted, is on the screen span [from, to]. */
  ghost predicate Shown(p: real, zoom: real, shift: real, from: real, to: real) {
    from <= Zoomed(p, zoom) + shift <= to
  }

  /** The zoomed, translated point is in the safe area. */
  ghost predicate InSafeArea(px: real, py: real, tr: Transform, view: ViewBox, safe: SafeArea) {
    && Shown(px, tr.zoom, tr.tx, safe.left, view.width - safe.right)
    && Shown(py, tr.zoom, tr.ty, safe.top, view.height - safe.bottom)
  }

  /** One axis, at a given zoom: the span [low, high] of content against the span [from, to] of screen. */
  ghost predicate AxisInside(low: real, high: real, zoom: real, shift: real, from: real, to: real) {
    from <= Zoomed(low, zoom) + shift && Zoomed(high, zoom) + shift <= to
  }

  /** The law of one axis. The content is inside exactly when, zoomed, it is no longer than the
      span. Then no other translation that keeps it inside brings the focus nearer to the centre.
      Otherwise both ends overflow by the same positive amount. */
  ghost predicate AxisLaw(
      low: real, high: real, zoom: real, shift: real, focus: real, centre: real, from: real, to: real)
  {
    && (AxisInside(low, high, zoom, shift, from, to) <==> Zoomed(high, zoom) - Zoomed(low, zoom) <= to - from)
    && (forall other :: AxisInside(low, high, zoom, other, from, to) ==>
          Abs(Zoomed(focus, zoom) + shift - centre) <= Abs(Zoomed(focus, zoom) + other - centre))
    && (!AxisInside(low, high, zoom, shift, from, to) ==>
          from - (Zoomed(low, zoom) + shift) == Zoomed(high, zoom) + shift - to > 0.0)
  }

  lemma TranslateLaw(low: real, high: real, zoom: real, focus: real, centre: real, from: real, to: real)
    ensures AxisLaw(low, high, zoom, Translate(low, high, zoom, focus, centre, from, to), focus, centre, from, to)
  {
    var a, b, f := Zoomed(low, zoom), Zoomed(high, zoom), Zoomed(focus, zoom);
    assert AxisInside(low, high, zoom, Nearest(centre - f, from - a, to - b), from, to) <==> b - a <= to - from;
    forall other | AxisInside(low, high, zoom, other, from, to)
      ensures Abs(f + Nearest(centre - f, from - a, to - b) - centre) <= Abs(f + other - centre)
    {
      NearestInSpan(centre - f, from - a, to - b, other);
    }
  }

  lemma NearestInSpan(target: real, low: real, high: real, other: real)
    requires low <= other <= high
    ensures Abs(Nearest(target, low, high) - target) <= Abs(other - target)
  {
  }

  lemma ScaledSpan(low: real, p: real, high: real, zoom: real)
    requires low <= p <= high && zoom >= 0.0
    ensures Zoomed(low, zoom) <= Zoomed(p, zoom) <= Zoomed(high, zoom)
  {
    MulMonotone(zoom, low, p);
    MulMonotone(zoom, p, high);
  }

  ghost predicate SpanFits(extent: real, avail: real, zoom: real) {
    Zoomed(extent, zoom) <= avail
  }

  /** The content fits at the smallest zoom the caller allows. */
  ghost predicate FitsAtMinZoom(b: Box, view: ViewBox, safe: SafeArea, minZoom: real) {
    && SpanFits(b.maxX - b.minX, view.width - safe.left - safe.right, minZoom)
    && SpanFits(b.maxY - b.minY, view.height - safe.top - safe.bottom, minZoom)
  }

  /** On one axis, exactly the zooms up to the fitting one fit, where content and screen count as at
      least 1 long. */
  lemma AxisZoomLargest(extent: real, avail: real, zoom: real)
    ensures Zoomed(Max(1.0, extent), zoom) <= Max(1.0, avail) <==> zoom <= AxisZoom(extent, avail)
  {
    var w, a := Max(1.0, extent), Max(1.0, avail);
    QuotientTimes(a, w);
    MulOrder(w, zoom, a / w);
  }

  /** The zoom fits on both axes. */
  ghost predicate Fits(b: Box, view: ViewBox, safe: SafeArea, zoom: real) {
    && Zoomed(Max(1.0, b.maxX - b.minX), zoom) <= Max(1.0, view.width - safe.left - safe.right)
    && Zoomed(Max(1.0, b.maxY - b.minY), zoom) <= Max(1.0, view.height - safe.top - safe.bottom)
  }

  /** The zoom chosen respects the caller's bounds and is the largest within them that fits; it exceeds
      what fits only when even the smallest does not. With crossed bounds the lower one wins. */
  lemma ZoomIsLargest(b: Box, view: ViewBox, safe: SafeArea, focus: Point, minZoom: real, maxZoom: real)
    ensures var zoom := FitBounds(b, view, safe, focus, minZoom, maxZoom).zoom;
      && (minZoom <= maxZoom ==> minZoom <= zoom <= maxZoom)
      && (minZoom > maxZoom ==> zoom == minZoom)
      && (forall z :: minZoom <= z <= maxZoom && Fits(b, view, safe, z) ==> z <= zoom)
      && (zoom > minZoom ==> Fits(b, view, safe, zoom))
  {
    forall z
      ensures Fits(b, view, safe, z) <==> z <= FitZoom(b, view, safe)
    {
      AxisZoomLargest(b.maxX - b.minX, view.width - safe.left - safe.right, z);
      AxisZoomLargest(b.maxY - b.minY, view.height - safe.top - safe.bottom, z);
    }
    hide FitZoom, Translate, Fits;
  }

  /** On one axis, every zoom up to the fitting one fits. */
  lemma AxisZoomFits(extent: real, avail: real, zoom: real)
    requires avail >= 1.0 && 0.0 <= zoom <= AxisZoom(extent, avail)
    ensures SpanFits(extent, avail, zoom)
  {
    var w := Max(1.0, extent);
    QuotientTimes(avail, w);
    MulMonotone(w, zoom, avail / w);
    MulMonotone(zoom, extent, w);
  }

  /** The chosen zoom is the smallest one, or no larger than what fits on either axis. */
  lemma ChosenZoomFits(b: Box, view: ViewBox, safe: SafeArea, minZoom: real, maxZoom: real)
    requires minZoom >= 0.0 && FitsAtMinZoom(b, view, safe, minZoom)
    requires view.width - safe.left - safe.right >= 1.0 && view.height - safe.top - safe.bottom >= 1.0
    ensures var zoom := Clamp(FitZoom(b, view, safe), minZoom, maxZoom);
      && zoom >= minZoom
      && SpanFits(b.maxX - b.minX, view.width - safe.left - safe.right, zoom)
      && SpanFits(b.maxY - b.minY, view.height - safe.top - safe.bottom, zoom)
  {
    hide SpanFits, AxisZoom;
    var zoom := Clamp(FitZoom(b, view, safe), minZoom, maxZoom);
    if zoom > minZoom {
      AxisZoomFits(b.maxX - b.minX, view.width - safe.left - safe.right, zoom);
      AxisZoomFits(b.maxY - b.minY, view.height - safe.top - safe.bottom, zoom);
    }
  }

  /** The middle of the screen span, which counts as at least 1 high. */
  ghost function MiddleY(view: ViewBox, safe: SafeArea): real {
    var height := view.height - safe.top - safe.bottom;
    if height >= 1.0 then (safe.top + view.height - safe.bottom) / 2.0 else safe.top + 0.5
  }

  /** Both axes of the fitted translation obey the law, at whatever zoom was chosen; the focus is wanted
      in the middle of the view across, and of the safe area down. */
  lemma FitAxes(b: Box, view: ViewBox, safe: SafeArea, focus: Point, minZoom: real, maxZoom: real)
    ensures var tr := FitBounds(b, view, safe, focus, minZoom, maxZoom);
      && AxisLaw(b.minX, b.maxX, tr.zoom, tr.tx, focus.x, view.width / 2.0, safe.left, view.width - safe.right)
      && AxisLaw(b.minY, b.maxY, tr.zoom, tr.ty, focus.y, MiddleY(view, safe), safe.top, view.height - safe.bottom)
  {
    hide FitZoom, Clamp, Translate, AxisLaw;
    var zoom := Clamp(FitZoom(b, view, safe), minZoom, maxZoom);
    TranslateLaw(b.minX, b.maxX, zoom, focus.x, view.width / 2.0, safe.left, view.width - safe.right);
    TranslateLaw(b.minY, b.maxY, zoom, focus.y, MiddleY(view, safe), safe.top, view.height - safe.bottom);
  }

  lemma SpanScales(low: real, high: real, zoom: real)
    ensures Zoomed(high - low, zoom) == Zoomed(high, zoom) - Zoomed(low, zoom)
  {
  }

  lemma AxisFitsInside(
      low: real, high: real, zoom: real, shift: real, focus: real, centre: real, from: real, to: real)
    requires SpanFits(high - low, to - from, zoom)
    requires AxisLaw(low, high, zoom, shift, focus, centre, from, to)
    ensures AxisInside(low, high, zoom, shift, from, to)
  {
    hide Zoomed;
    SpanScales(low, high, zoom);
  }

  lemma AxisShown(
      low: real, p: real, high: real, zoom: real, shift: real, focus: real, centre: real, from: real, to: real)
    requires low <= p <= high && zoom >= 0.0 && SpanFits(high - low, to - from, zoom)
    requires AxisLaw(low, high, zoom, shift, focus, centre, from, to)
    ensures Shown(p, zoom, shift, from, to)
  {
    hide AxisLaw, SpanFits, Zoomed;
    AxisFitsInside(low, high, zoom, shift, focus, centre, from, to);
    ScaledSpan(low, p, high, zoom);
  }

  /** Content that fits at the smallest zoom ends up inside, all of it. */
  lemma FittedBoxInside(
      b: Box, view: ViewBox, safe: SafeArea, focus: Point, minZoom: real, maxZoom: real, px: real, py: real)
    requires minZoom >= 0.0 && FitsAtMinZoom(b, view, safe, minZoom)
    requires view.width - safe.left - safe.right >= 1.0 && view.height - safe.top - safe.bottom >= 1.0
    requires b.Contains(px, py)
    ensures InSafeArea(px, py, FitBounds(b, view, safe, focus, minZoom, maxZoom), view, safe)
  {
    hide SpanFits, AxisLaw, Shown, Translate, FitZoom, Clamp;
    var tr := FitBounds(b, view, safe, focus, minZoom, maxZoom);
    ChosenZoomFits(b, view, safe, minZoom, maxZoom);
    FitAxes(b, view, safe, focus, minZoom, maxZoom);
    AxisShown(b.minX, px, b.maxX, tr.zoom, tr.tx, focus.x, view.width / 2.0, safe.left, view.width - safe.right);
    AxisShown(b.minY, py, b.maxY, tr.zoom, tr.ty, focus.y, MiddleY(view, safe), safe.top, view.height - safe.bottom);
  }

  ghost predicate BoxShown(b: Box, tr: Transform, view: ViewBox, safe: SafeArea) {
    && AxisInside(b.minX, b.maxX, tr.zoom, tr.tx, safe.left, view.width - safe.right)
    && AxisInside(b.minY, b.maxY, tr.zoom, tr.ty, safe.top, view.height - safe.bottom)
  }

  lemma AxisInsideFits(low: real, high: real, zoom: real, shift: real, from: real, to: real, minZoom: real)
    requires low <= high && minZoom <= zoom
    requires AxisInside(low, high, zoom, shift, from, to)
    ensures SpanFits(high - low, to - from, minZoom)
  {
    MulMonotone(high - low, minZoom, zoom);
    SpanScales(low, high, zoom);
  }

  /** Content of any size is shown whole exactly when it fits at the smallest zoom. */
  lemma ShownExactlyWhenFits(b: Box, view: ViewBox, safe: SafeArea, focus: Point, minZoom: real, maxZoom: real)
    requires minZoom >= 0.0 && b.minX <= b.maxX && b.minY <= b.maxY
    requires view.width - safe.left - safe.right >= 1.0 && view.height - safe.top - safe.bottom >= 1.0
    ensures BoxShown(b, FitBounds(b, view, safe, focus, minZoom, maxZoom), view, safe)
       <==> FitsAtMinZoom(b, view, safe, minZoom)
  {
    hide SpanFits, AxisLaw, AxisInside, Translate, FitZoom;
    var tr := FitBounds(b, view, safe, focus, minZoom, maxZoom);
    FitAxes(b, view, safe, focus, minZoom, maxZoom);
    if FitsAtMinZoom(b, view, safe, minZoom) {
      ChosenZoomFits(b, view, safe, minZoom, maxZoom);
      AxisFitsInside(b.minX, b.maxX, tr.zoom, tr.tx, focus.x, view.width / 2.0, safe.left, view.width - safe.right);
      AxisFitsInside(b.minY, b.maxY, tr.zoom, tr.ty, focus.y, MiddleY(view, safe), safe.top, view.height - safe.bottom);
    }
    if BoxShown(b, tr, view, safe) {
      AxisInsideFits(b.minX, b.maxX, tr.zoom, tr.tx, safe.left, view.width - safe.right, minZoom);
      AxisInsideFits(b.minY, b.maxY, tr.zoom, tr.ty, safe.top, view.height - safe.bottom, minZoom);
    }
  }

  /** The whole pipeline: every point of every shape that was included, then padded and fitted, is
      shown inside the safe area. */
  lemma EveryShapeShown(
      shapes: seq<Shape>, padX: real, padY: real, view: ViewBox, safe: SafeArea, focus: Point,
      minZoom: real, maxZoom: real, i: nat, px: real, py: real)
    requires padX >= 0.0 && padY >= 0.0 && minZoom >= 0.0
    requires view.width - safe.left - safe.right >= 1.0 && view.height - safe.top - safe.bottom >= 1.0
    requires BoxOf(shapes).Some? ==> FitsAtMinZoom(PadBounds(BoxOf(shapes).value, padX, padY), view, safe, minZoom)
    requires i < |shapes| && shapes[i].Covers(px, py)
    ensures BoxOf(shapes).Some?
    ensures InSafeArea(px, py,
        FitBounds(PadBounds(BoxOf(shapes).value, padX, padY), view, safe, focus, minZoom, maxZoom), view, safe)
  {
    CollectedContains(shapes, i, px, py);
    FittedBoxInside(PadBounds(BoxOf(shapes).value, padX, padY), view, safe, focus, minZoom, maxZoom, px, py);
  }
}
