/** Trimming a movement line so that it starts and ends outside its nodes
    (dashboard/public/mindmap.jsx, `trimSegmentEndpoints`). */
module Segments {
  import opened Prelude

  datatype Segment = Segment(from: Point, to: Point)

  type HypotFn = (real, real) -> real

  /** The defining property of the Euclidean length. */
  ghost predicate IsHypot(hypot: HypotFn) {
    forall x, y :: hypot(x, y) >= 0.0 && hypot(x, y) * hypot(x, y) == x * x + y * y
  }

  function CappedStart(length: real, startGap: real): real {
    Min(Max(0.0, startGap), length * 0.42)
  }

  function CappedEnd(length: real, startGap: real, endGap: real): real {
    Min(Max(0.0, endGap), Max(0.0, length - CappedStart(length, startGap) - 8.0))
  }

  function Trim(from: Point, to: Point, startGap: real, endGap: real, hypot: HypotFn): Segment {
    var dx, dy := to.x - from.x, to.y - from.y;
    var length := Max(1.0, hypot(dx, dy));
    var ux, uy := dx / length, dy / length;
    var start, end := CappedStart(length, startGap), CappedEnd(length, startGap, endGap);
    Segment(Point(from.x + ux * start, from.y + uy * start), Point(to.x - ux * end, to.y - uy * end))
  }

  /** The share of a segment that survives trimming. */
  function Kept(length: real, startGap: real, endGap: real): real
    requires length > 0.0
  {
    (length - CappedStart(length, startGap) - CappedEnd(length, startGap, endGap)) / length
  }

  lemma LeftAfterCaps(length: real, startGap: real, endGap: real)
    requires length >= 1.0
    ensures var left := length - CappedStart(length, startGap) - CappedEnd(length, startGap, endGap);
      Min(8.0, 0.58 * length) <= left <= length
  {
  }

  lemma KeptBounds(length: real, startGap: real, endGap: real)
    requires length >= 1.0
    ensures 0.0 < Kept(length, startGap, endGap) <= 1.0
    ensures length * Kept(length, startGap, endGap)
         == length - CappedStart(length, startGap) - CappedEnd(length, startGap, endGap)
  {
    LeftAfterCaps(length, startGap, endGap);
    QuotientInUnit(length - CappedStart(length, startGap) - CappedEnd(length, startGap, endGap), length);
  }

  lemma QuotientInUnit(a: real, length: real)
    requires 0.0 < a <= length
    ensures 0.0 < a / length <= 1.0 && length * (a / length) == a
  {
    QuotientTimes(a, length);
  }

  /** One coordinate of the trimmed vector, for a unit vector `u` and a share `kept` of the length. */
  lemma TrimmedCoordinate(f: real, t: real, length: real, u: real, kept: real, start: real, end: real)
    requires length * u == t - f && length * kept == length - start - end
    ensures (t - u * end) - (f + u * start) == kept * (t - f)
  {
    assert kept * (length * u) == (length * kept) * u;
    assert (length - start - end) * u == length * u - u * start - u * end;
  }

  /** The trimmed vector is a positive multiple, at most 1, of the original, for any gaps: the
      segment is never reversed and never collapses. */
  lemma TrimKeepsDirection(from: Point, to: Point, startGap: real, endGap: real, hypot: HypotFn)
    ensures var length := Max(1.0, hypot(to.x - from.x, to.y - from.y));
      var kept := Kept(length, startGap, endGap);
      var cut := Trim(from, to, startGap, endGap, hypot);
      && 0.0 < kept <= 1.0
      && cut.to.x - cut.from.x == kept * (to.x - from.x)
      && cut.to.y - cut.from.y == kept * (to.y - from.y)
  {
    hide CappedStart, CappedEnd, Kept;
    var dx, dy := to.x - from.x, to.y - from.y;
    var length := Max(1.0, hypot(dx, dy));
    var start, end, kept := CappedStart(length, startGap), CappedEnd(length, startGap, endGap),
      Kept(length, startGap, endGap);
    KeptBounds(length, startGap, endGap);
    QuotientTimes(dx, length);
    QuotientTimes(dy, length);
    TrimmedCoordinate(from.x, to.x, length, dx / length, kept, start, end);
    TrimmedCoordinate(from.y, to.y, length, dy / length, kept, start, end);
  }

  lemma SquaresAgree(a: real, b: real)
    requires a >= 0.0 && b >= 0.0 && a * a == b * b
    ensures a == b
  {
    RootsGrow(a, b);
    RootsGrow(b, a);
  }

  lemma LengthScales(hypot: HypotFn, dx: real, dy: real, k: real, px: real, py: real)
    requires IsHypot(hypot) && k >= 0.0 && px == k * dx && py == k * dy
    ensures hypot(px, py) == k * hypot(dx, dy)
  {
    var h, g := hypot(dx, dy), hypot(px, py);
    assert g * g == px * px + py * py;
    assert (k * dx) * (k * dx) == (k * k) * (dx * dx);
    assert (k * dy) * (k * dy) == (k * k) * (dy * dy);
    assert (k * h) * (k * h) == (k * k) * (h * h);
    NonnegProduct(k, h);
    SquaresAgree(g, k * h);
  }

  /** What is left is at least 8 units or 58 % of the original, whichever is smaller, once the
      original is at least 1 long. */
  lemma TrimLeavesEnough(from: Point, to: Point, startGap: real, endGap: real, hypot: HypotFn)
    requires IsHypot(hypot) && hypot(to.x - from.x, to.y - from.y) >= 1.0
    ensures var length := hypot(to.x - from.x, to.y - from.y);
      var cut := Trim(from, to, startGap, endGap, hypot);
      Min(8.0, 0.58 * length) <= hypot(cut.to.x - cut.from.x, cut.to.y - cut.from.y) <= length
  {
    hide CappedStart, CappedEnd, Kept, Trim, IsHypot;
    var length := hypot(to.x - from.x, to.y - from.y);
    var kept := Kept(length, startGap, endGap);
    var cut := Trim(from, to, startGap, endGap, hypot);
    TrimKeepsDirection(from, to, startGap, endGap, hypot);
    LengthScales(hypot, to.x - from.x, to.y - from.y, kept, cut.to.x - cut.from.x, cut.to.y - cut.from.y);
    KeptBounds(length, startGap, endGap);
    LeftAfterCaps(length, startGap, endGap);
    assert kept * length == length * kept;
  }

  /** The part of `d` that a gap takes of a length. */
  function Portion(gap: real, length: real, d: real): real
    requires length != 0.0
  {
    (gap / length) * d
  }

  lemma PortionAlong(x: real, length: real, d: real, gap: real)
    requires length != 0.0
    ensures (x + (d / length) * gap) - x == Portion(gap, length, d)
    ensures (x - (d / length) * gap) - x == Portion(gap, length, -d)
  {
    assert (d / length) * gap == (gap / length) * d;
  }

  lemma GapLength(hypot: HypotFn, dx: real, dy: real, length: real, gap: real)
    requires IsHypot(hypot) && length == Max(1.0, hypot(dx, dy)) && gap >= 0.0
    ensures hypot(Portion(gap, length, dx), Portion(gap, length, dy)) == Portion(gap, length, hypot(dx, dy))
    ensures hypot(dx, dy) >= 1.0 ==> Portion(gap, length, hypot(dx, dy)) == gap
  {
    QuotientNonneg(gap, length);
    QuotientTimes(gap, length);
    LengthScales(hypot, dx, dy, gap / length, Portion(gap, length, dx), Portion(gap, length, dy));
  }

  lemma HypotEven(hypot: HypotFn, dx: real, dy: real)
    requires IsHypot(hypot)
    ensures hypot(-dx, -dy) == hypot(dx, dy)
  {
    assert (-dx) * (-dx) + (-dy) * (-dy) == dx * dx + dy * dy;
    SquaresAgree(hypot(-dx, -dy), hypot(dx, dy));
  }

  /** Where the two ends move to, as portions of the way. */
  lemma TrimOffsets(from: Point, to: Point, startGap: real, endGap: real, hypot: HypotFn)
    ensures var dx, dy := to.x - from.x, to.y - from.y;
      var length, cut := Max(1.0, hypot(dx, dy)), Trim(from, to, startGap, endGap, hypot);
      var start, end := CappedStart(length, startGap), CappedEnd(length, startGap, endGap);
      && cut.from.x - from.x == Portion(start, length, dx) && cut.from.y - from.y == Portion(start, length, dy)
      && cut.to.x - to.x == Portion(end, length, -dx) && cut.to.y - to.y == Portion(end, length, -dy)
  {
    hide Portion, CappedStart, CappedEnd;
    var dx, dy := to.x - from.x, to.y - from.y;
    var length := Max(1.0, hypot(dx, dy));
    PortionAlong(from.x, length, dx, CappedStart(length, startGap));
    PortionAlong(from.y, length, dy, CappedStart(length, startGap));
    PortionAlong(to.x, length, dx, CappedEnd(length, startGap, endGap));
    PortionAlong(to.y, length, dy, CappedEnd(length, startGap, endGap));
  }

  /** The line starts its start gap away from the first node, but gives up at most 42 % of the way there,
      and ends its end gap away from the second, but leaves 8 units if it can. Nodes less than 1 apart
      count as 1 apart and the gaps shrink in proportion. */
  lemma TrimEnds(from: Point, to: Point, startGap: real, endGap: real, hypot: HypotFn)
    requires IsHypot(hypot)
    ensures var apart := hypot(to.x - from.x, to.y - from.y);
      var length, cut := Max(1.0, apart), Trim(from, to, startGap, endGap, hypot);
      var start := Min(Max(0.0, startGap), 0.42 * length);
      var end := Min(Max(0.0, endGap), Max(0.0, length - start - 8.0));
      && hypot(cut.from.x - from.x, cut.from.y - from.y) == Portion(start, length, apart)
      && hypot(cut.to.x - to.x, cut.to.y - to.y) == Portion(end, length, apart)
      && (apart >= 1.0 ==> Portion(start, length, apart) == start && Portion(end, length, apart) == end)
  {
    var dx, dy := to.x - from.x, to.y - from.y;
    var length := Max(1.0, hypot(dx, dy));
    TrimOffsets(from, to, startGap, endGap, hypot);
    GapLength(hypot, dx, dy, length, CappedStart(length, startGap));
    HypotEven(hypot, dx, dy);
    GapLength(hypot, -dx, -dy, length, CappedEnd(length, startGap, endGap));
    hide Portion, Trim, IsHypot;
  }
}
