/** A brush stroke: a quadratic Bézier centreline whose radius is blended
    along it like the position, a colour and an opacity. Drawing walks the
    curve in twenty equal steps of the parameter and emits, for every step of
    non-zero length, a four-cornered ribbon piece and a round joint; the
    drawing commands are the model's output in place of the canvas calls. */
module Strokes {

  /** A control point: a position and the brush radius there. */
  datatype Point = Point(x: real, y: real, radius: real)

  /** An RGB colour, each channel on the 0..255 scale. */
  datatype Color = Color(r: real, g: real, b: real)

  /** The stroke record: three control points, a colour and an opacity. */
  datatype Stroke = Stroke(p0: Point, p1: Point, p2: Point, color: Color, alpha: real)

  /** A point of the centreline with its radius. */
  datatype Sample = Sample(x: real, y: real, r: real)

  /** A position on the canvas. */
  datatype Vertex = Vertex(x: real, y: real)

  /** A filled shape: a disc (the caps and joints) or a closed quadrilateral
      whose corners are visited in order (the ribbon pieces). */
  datatype Fill = Disc(x: real, y: real, r: real) | Quad(a: Vertex, b: Vertex, c: Vertex, d: Vertex)

  /** The number of steps the centreline is drawn in. */
  const NDivisions: nat := 20

  /** `sqrt` is a square root on the non-negative reals: its result is
      non-negative, squares back to the argument and is zero only at zero. */
  ghost predicate IsSqrt(sqrt: real -> real) {
    forall a :: a >= 0.0 ==> sqrt(a) >= 0.0 && sqrt(a) * sqrt(a) == a && (sqrt(a) > 0.0 <==> a > 0.0)
  }

  /** The quadratic Bernstein blend of `a`, `b`, `c` at parameter `t`. */
  function Blend(t: real, a: real, b: real, c: real): (v: real)
    ensures t == 0.0 ==> v == a
    ensures t == 1.0 ==> v == c
    ensures a == b == c ==> v == a
  {
    var mt := 1.0 - t;
    WeightsSumToOne(t);
    mt * mt * a + 2.0 * mt * t * b + t * t * c
  }

  /** The three blend weights add up to one for every `t`. */
  lemma WeightsSumToOne(t: real)
    ensures (1.0 - t) * (1.0 - t) + 2.0 * (1.0 - t) * t + t * t == 1.0
  {
  }

  /** For `t` in [0, 1] the blend is a convex combination: it stays within any
      interval holding the three inputs. */
  lemma BlendWithin(t: real, a: real, b: real, c: real, lo: real, hi: real)
    requires 0.0 <= t <= 1.0
    requires lo <= a <= hi && lo <= b <= hi && lo <= c <= hi
    ensures lo <= Blend(t, a, b, c) <= hi
  {
    NonNegativeProduct(1.0 - t, 1.0 - t);
    NonNegativeProduct(2.0 * (1.0 - t), t);
    NonNegativeProduct(t, t);
    WeightsSumToOne(t);
    ConvexCombination((1.0 - t) * (1.0 - t), 2.0 * (1.0 - t) * t, t * t, a, b, c, lo, hi);
  }

  /** Non-negative weights adding up to one keep a weighted sum within any
      interval holding the summands. */
  lemma ConvexCombination(w0: real, w1: real, w2: real, a: real, b: real, c: real, lo: real, hi: real)
    requires w0 >= 0.0 && w1 >= 0.0 && w2 >= 0.0 && w0 + w1 + w2 == 1.0
    requires lo <= a <= hi && lo <= b <= hi && lo <= c <= hi
    ensures lo <= w0 * a + w1 * b + w2 * c <= hi
  {
    WeightedAbove(w0, w1, w2, a, b, c, lo);
    WeightedAbove(w0, w1, w2, -a, -b, -c, -hi);
    NegatedSum(w0, w1, w2, a, b, c);
  }

  lemma NegatedSum(w0: real, w1: real, w2: real, a: real, b: real, c: real)
    ensures w0 * -a + w1 * -b + w2 * -c == -(w0 * a + w1 * b + w2 * c)
  {
  }

  /** The lower half of `ConvexCombination`. */
  lemma WeightedAbove(w0: real, w1: real, w2: real, a: real, b: real, c: real, lo: real)
    requires w0 >= 0.0 && w1 >= 0.0 && w2 >= 0.0 && w0 + w1 + w2 == 1.0
    requires lo <= a && lo <= b && lo <= c
    ensures lo <= w0 * a + w1 * b + w2 * c
  {
    NonNegativeProduct(w0, a - lo);
    NonNegativeProduct(w1, b - lo);
    NonNegativeProduct(w2, c - lo);
    WeightedConstant(w0, w1, w2, lo);
    SumAbove(w0 * lo, w0 * a, w1 * lo, w1 * b, w2 * lo, w2 * c, lo);
  }

  lemma SumAbove(l0: real, v0: real, l1: real, v1: real, l2: real, v2: real, lo: real)
    requires l0 <= v0 && l1 <= v1 && l2 <= v2
    requires l0 + l1 + l2 == lo
    ensures lo <= v0 + v1 + v2
  {
  }

  lemma WeightedConstant(w0: real, w1: real, w2: real, x: real)
    requires w0 + w1 + w2 == 1.0
    ensures w0 * x + w1 * x + w2 * x == x
  {
    var w2' := 1.0 - w0 - w1;
    assert w2 == w2';
    assert w2' * x == x - w0 * x - w1 * x;
  }

  lemma NonNegativeProduct(x: real, y: real)
    requires x >= 0.0 && y >= 0.0
    ensures x * y >= 0.0
  {
  }

  /** `sampleQuadBezier`: position and radius blended with the same weights. */
  function SampleQuadBezier(s: Stroke, t: real): (p: Sample)
    ensures t == 0.0 ==> p == Sample(s.p0.x, s.p0.y, s.p0.radius)
    ensures t == 1.0 ==> p == Sample(s.p2.x, s.p2.y, s.p2.radius)
  {
    Sample(Blend(t, s.p0.x, s.p1.x, s.p2.x),
           Blend(t, s.p0.y, s.p1.y, s.p2.y),
           Blend(t, s.p0.radius, s.p1.radius, s.p2.radius))
  }

  /** The centreline sample at step `i`, parameter `i / 20`. */
  function SampleAt(s: Stroke, i: nat): (p: Sample)
    ensures i == 0 ==> p == Sample(s.p0.x, s.p0.y, s.p0.radius)
    ensures i == NDivisions ==> p == Sample(s.p2.x, s.p2.y, s.p2.radius)
  {
    SampleQuadBezier(s, i as real / NDivisions as real)
  }

  /** The normal `(-dy, dx) / len` of a segment of length `len`: it is
      perpendicular to the segment. */
  function UnitNormal(dx: real, dy: real, len: real): (n: Vertex)
    requires len > 0.0
    ensures n.x * dx + n.y * dy == 0.0
  {
    Perpendicular(dx, dy, len);
    Vertex(-dy / len, dx / len)
  }

  lemma Perpendicular(dx: real, dy: real, len: real)
    requires len > 0.0
    ensures (-dy / len) * dx + (dx / len) * dy == 0.0
  {
  }

  /** The square root of `dx^2 + dy^2` is positive exactly when the segment
      has moved. */
  lemma LengthPositive(dx: real, dy: real, sqrt: real -> real)
    requires IsSqrt(sqrt)
    ensures sqrt(dx * dx + dy * dy) >= 0.0
    ensures sqrt(dx * dx + dy * dy) > 0.0 <==> !(dx == 0.0 && dy == 0.0)
  {
    SumOfSquaresSign(dx, dy);
  }

  /** `dx^2 + dy^2` is non-negative, and zero only when both are. */
  lemma SumOfSquaresSign(dx: real, dy: real)
    ensures dx * dx + dy * dy >= 0.0
    ensures dx * dx + dy * dy > 0.0 <==> !(dx == 0.0 && dy == 0.0)
  {
  }

  /** The ribbon piece from `prev` to `curr` offset along `n`: corners
      `prev + n*prev.r`, `curr + n*curr.r`, `curr - n*curr.r`,
      `prev - n*prev.r`, visited in that order. Its first and last corners
      straddle `prev`, its middle corners straddle `curr`, and each pair lies
      `2 * r` apart along `n`. */
  function Ribbon(prev: Sample, curr: Sample, n: Vertex): (q: Fill)
    ensures q.Quad?
    ensures q.a.x + q.d.x == 2.0 * prev.x && q.a.y + q.d.y == 2.0 * prev.y
    ensures q.b.x + q.c.x == 2.0 * curr.x && q.b.y + q.c.y == 2.0 * curr.y
    ensures q.a.x - q.d.x == 2.0 * (n.x * prev.r) && q.a.y - q.d.y == 2.0 * (n.y * prev.r)
    ensures q.b.x - q.c.x == 2.0 * (n.x * curr.r) && q.b.y - q.c.y == 2.0 * (n.y * curr.r)
  {
    Quad(Vertex(prev.x + n.x * prev.r, prev.y + n.y * prev.r),
         Vertex(curr.x + n.x * curr.r, curr.y + n.y * curr.r),
         Vertex(curr.x - n.x * curr.r, curr.y - n.y * curr.r),
         Vertex(prev.x - n.x * prev.r, prev.y - n.y * prev.r))
  }

  /** The length `sqrt(dx^2 + dy^2)` of a displacement, for the square root
      `sqrt` the drawing is given. */
  function Length(dx: real, dy: real, sqrt: real -> real): real
  {
    sqrt(dx * dx + dy * dy)
  }

  /** The length of the step from `prev` to `curr`. */
  function StepLength(prev: Sample, curr: Sample, sqrt: real -> real): real
  {
    Length(curr.x - prev.x, curr.y - prev.y, sqrt)
  }

  /** With a true square root, a step has positive length exactly when its
      end differs in position from its start. */
  lemma StepLengthPositive(prev: Sample, curr: Sample, sqrt: real -> real)
    requires IsSqrt(sqrt)
    ensures StepLength(prev, curr, sqrt) > 0.0 <==> !(curr.x == prev.x && curr.y == prev.y)
  {
    LengthPositive(curr.x - prev.x, curr.y - prev.y, sqrt);
  }

  /** The commands for one step from `prev` to `curr` of length `len`:
      nothing unless the length is positive; otherwise the ribbon piece along
      the segment's normal, followed by a disc at `curr`. */
  function SegmentFills(prev: Sample, curr: Sample, len: real): (fills: seq<Fill>)
    ensures fills == [] <==> len <= 0.0
    ensures fills != [] ==> |fills| == 2 && fills[1] == Disc(curr.x, curr.y, curr.r)
  {
    if len > 0.0 then
      var n := UnitNormal(curr.x - prev.x, curr.y - prev.y, len);
      [Ribbon(prev, curr, n), Disc(curr.x, curr.y, curr.r)]
    else []
  }

  /** A step that emits anything emits a ribbon piece offset along a
      direction perpendicular to the segment, then the joint disc. */
  lemma SegmentIsPerpendicularRibbon(prev: Sample, curr: Sample, len: real)
    requires SegmentFills(prev, curr, len) != []
    ensures exists n: Vertex :: n.x * (curr.x - prev.x) + n.y * (curr.y - prev.y) == 0.0
                                && SegmentFills(prev, curr, len)[0] == Ribbon(prev, curr, n)
  {
    var n := UnitNormal(curr.x - prev.x, curr.y - prev.y, len);
    assert SegmentFills(prev, curr, len)[0] == Ribbon(prev, curr, n);
  }

  /** A step emits nothing exactly when its end coincides with its start. */
  lemma StepEmitsIffMoved(prev: Sample, curr: Sample, sqrt: real -> real)
    requires IsSqrt(sqrt)
    ensures SegmentFills(prev, curr, StepLength(prev, curr, sqrt)) == [] <==> curr.x == prev.x && curr.y == prev.y
  {
    StepLengthPositive(prev, curr, sqrt);
  }

  /** The start cap: a disc at the first sample. */
  function StartCap(s: Stroke): (f: Fill)
    ensures f == Disc(s.p0.x, s.p0.y, s.p0.radius)
  {
    var p := SampleAt(s, 0);
    Disc(p.x, p.y, p.r)
  }

  /** The commands of step `i`, from sample `i - 1` to sample `i`. */
  function Step(s: Stroke, i: nat, sqrt: real -> real): (fills: seq<Fill>)
    requires i >= 1
    ensures |fills| == 0 || |fills| == 2
  {
    var prev, curr := SampleAt(s, i - 1), SampleAt(s, i);
    SegmentFills(prev, curr, StepLength(prev, curr, sqrt))
  }

  /** The commands of the first `n` steps. */
  function SegmentsUpTo(s: Stroke, n: nat, sqrt: real -> real): (fills: seq<Fill>)
    ensures |fills| <= 2 * n && |fills| % 2 == 0
  {
    if n == 0 then [] else SegmentsUpTo(s, n - 1, sqrt) + Step(s, n, sqrt)
  }

  /** Everything `draw` emits: the start cap, then the twenty steps. */
  function StrokeFills(s: Stroke, sqrt: real -> real): (fills: seq<Fill>)
    ensures 1 <= |fills| <= 1 + 2 * NDivisions
    ensures fills[0] == Disc(s.p0.x, s.p0.y, s.p0.radius)
  {
    [StartCap(s)] + SegmentsUpTo(s, NDivisions, sqrt)
  }

  /** `draw` without the canvas: the fill commands it issues, in order, for
      the square root `sqrt` it is given. */
  method Draw(s: Stroke, sqrt: real -> real) returns (fills: seq<Fill>)
    ensures fills == StrokeFills(s, sqrt)
  {
    var prev := SampleQuadBezier(s, 0.0);
    fills := [Disc(prev.x, prev.y, prev.r)];
    for i := 1 to NDivisions + 1
      invariant prev == SampleAt(s, i - 1)
      invariant fills == [StartCap(s)] + SegmentsUpTo(s, i - 1, sqrt)
    {
      var t := i as real / NDivisions as real;
      var curr := SampleQuadBezier(s, t);
      var dx := curr.x - prev.x;
      var dy := curr.y - prev.y;
      var len := Length(dx, dy, sqrt);
      assert curr == SampleAt(s, i);
      ghost var before := fills;
      if len > 0.0 {
        var nx := -dy / len;
        var ny := dx / len;
        fills := fills + [Ribbon(prev, curr, Vertex(nx, ny)), Disc(curr.x, curr.y, curr.r)];
      }
      assert fills == before + Step(s, i, sqrt);
      prev := curr;
    }
  }

  /** A stroke whose three control points share one position draws only its
      start cap: with a true square root every step has length zero. */
  lemma {:induction false} StationaryStrokeDrawsOnlyCap(s: Stroke, sqrt: real -> real, n: nat)
    requires IsSqrt(sqrt)
    requires s.p0.x == s.p1.x == s.p2.x && s.p0.y == s.p1.y == s.p2.y
    ensures SegmentsUpTo(s, n, sqrt) == []
  {
    if n > 0 {
      StationaryStrokeDrawsOnlyCap(s, sqrt, n - 1);
      StepEmitsIffMoved(SampleAt(s, n - 1), SampleAt(s, n), sqrt);
    }
  }

  /** Every disc among the first `n` steps' commands is the sample at some
      step `k` in 1..n, with that sample's radius. */
  lemma {:induction false} DiscsOnCurve(s: Stroke, sqrt: real -> real, n: nat)
    ensures forall j :: 0 <= j < |SegmentsUpTo(s, n, sqrt)| && SegmentsUpTo(s, n, sqrt)[j].Disc? ==>
              exists k :: 1 <= k <= n && SegmentsUpTo(s, n, sqrt)[j] == Disc(SampleAt(s, k).x, SampleAt(s, k).y, SampleAt(s, k).r)
  {
    if n > 0 {
      DiscsOnCurve(s, sqrt, n - 1);
      var before := SegmentsUpTo(s, n - 1, sqrt);
      var all := SegmentsUpTo(s, n, sqrt);
      forall j | 0 <= j < |all| && all[j].Disc?
        ensures exists k :: 1 <= k <= n && all[j] == Disc(SampleAt(s, k).x, SampleAt(s, k).y, SampleAt(s, k).r)
      {
        if j < |before| {
          assert all[j] == before[j];
        } else {
          assert all[j] == Step(s, n, sqrt)[j - |before|];
        }
      }
    }
  }

  /** With every control radius in [lo, hi], every disc drawn has a radius in
      [lo, hi]. */
  lemma DiscRadiiWithin(s: Stroke, sqrt: real -> real, lo: real, hi: real)
    requires lo <= s.p0.radius <= hi && lo <= s.p1.radius <= hi && lo <= s.p2.radius <= hi
    ensures forall j :: 0 <= j < |StrokeFills(s, sqrt)| && StrokeFills(s, sqrt)[j].Disc? ==>
              lo <= StrokeFills(s, sqrt)[j].r <= hi
  {
    var fills := StrokeFills(s, sqrt);
    var segs := SegmentsUpTo(s, NDivisions, sqrt);
    DiscsOnCurve(s, sqrt, NDivisions);
    forall j | 0 <= j < |fills| && fills[j].Disc?
      ensures lo <= fills[j].r <= hi
    {
      if j > 0 {
        assert fills[j] == segs[j - 1];
        var k :| 1 <= k <= NDivisions && segs[j - 1] == Disc(SampleAt(s, k).x, SampleAt(s, k).y, SampleAt(s, k).r);
        BlendWithin(k as real / NDivisions as real, s.p0.radius, s.p1.radius, s.p2.radius, lo, hi);
      }
    }
  }

  /** When the last step has non-zero length, the last command is a disc at
      the end point `p2` with its radius. */
  lemma LastDiscAtEnd(s: Stroke, sqrt: real -> real)
    requires Step(s, NDivisions, sqrt) != []
    ensures var fills := StrokeFills(s, sqrt);
            fills[|fills| - 1] == Disc(s.p2.x, s.p2.y, s.p2.radius)
  {
  }
}
