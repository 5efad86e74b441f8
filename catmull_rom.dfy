/** Catmull-Rom resampling of a curve: each segment between two control
    points is sampled at evenly spaced parameters with the cubic through the
    segment's four neighbouring control points, and the last control point
    closes the curve. */
module CatmullRom {
  import opened MeshLine

  /** The uniform Catmull-Rom cubic at parameter `t` through `x1` (at 0) and
      `x2` (at 1), shaped by the outer points `x0` and `x3`; consecutive
      segments therefore join, and a constant input stays constant. */
  function Basis(t: real, x0: real, x1: real, x2: real, x3: real): (v: real)
    ensures t == 0.0 ==> v == x1
    ensures t == 1.0 ==> v == x2
    ensures x0 == x1 == x2 == x3 ==> v == x1
  {
    0.5 * ((2.0 * x1)
           + t * ((-x0 + x2)
                  + t * ((2.0 * x0 - 5.0 * x1 + 4.0 * x2 - x3)
                         + t * (-x0 + 3.0 * x1 - 3.0 * x2 + x3))))
  }

  /** The four control points of segment `i` (from point `i` to point
      `i + 1`): the outer neighbours are points `i - 1` and `i + 2`, and at
      either end of the curve the missing one is the segment's own end point
      repeated. */
  function Neighbours(ps: seq<CurvePoint>, i: nat): (q: (CurvePoint, CurvePoint, CurvePoint, CurvePoint))
    requires i < |ps| - 1
    ensures q.1 == ps[i] && q.2 == ps[i + 1]
    ensures q.0 == ps[if i == 0 then 0 else i - 1]
    ensures q.3 == ps[if i + 2 < |ps| then i + 2 else |ps| - 1]
  {
    var p0 := if i == 0 then ps[i] else ps[i - 1];
    var p3 := if i == |ps| - 2 then ps[i + 1] else ps[i + 2];
    (p0, ps[i], ps[i + 1], p3)
  }

  /** Division `k` of `d` of segment `i`: every coordinate and the radius
      interpolated at `t = k / d`. */
  function SampleAt(ps: seq<CurvePoint>, i: nat, k: nat, d: nat): CurvePoint
    requires i < |ps| - 1 && k < d
  {
    var (p0, p1, p2, p3) := Neighbours(ps, i);
    var t := k as real / d as real;
    CurvePoint(Basis(t, p0.x, p1.x, p2.x, p3.x), Basis(t, p0.y, p1.y, p2.y, p3.y),
               Basis(t, p0.radius, p1.radius, p2.radius, p3.radius))
  }

  /** The first `k` samples of segment `i`. */
  function Divisions(ps: seq<CurvePoint>, i: nat, k: nat, d: nat): (s: seq<CurvePoint>)
    requires i < |ps| - 1 && k <= d
    ensures |s| == k
  {
    if k == 0 then [] else Divisions(ps, i, k - 1, d) + [SampleAt(ps, i, k - 1, d)]
  }

  /** The samples of the first `m` segments, in order. */
  function Segments(ps: seq<CurvePoint>, m: nat, d: nat): (s: seq<CurvePoint>)
    requires m <= |ps| - 1
  {
    if m == 0 then [] else Segments(ps, m - 1, d) + Divisions(ps, m - 1, d, d)
  }

  /** What `sampleCatmullRom` returns: fewer than two points unchanged;
      otherwise every segment's samples followed by the last control
      point. */
  function Sampled(ps: seq<CurvePoint>, d: nat): seq<CurvePoint> {
    if |ps| < 2 then ps else Segments(ps, |ps| - 1, d) + [ps[|ps| - 1]]
  }

  /** `sampleCatmullRom`: the segment loop and, inside it, the division
      loop push one sample each, and the last control point is pushed
      after them. */
  method SampleCatmullRom(ps: seq<CurvePoint>, d: nat) returns (sampled: seq<CurvePoint>)
    ensures sampled == Sampled(ps, d)
  {
    if |ps| < 2 {
      return ps;
    }
    sampled := [];
    for i := 0 to |ps| - 1
      invariant sampled == Segments(ps, i, d)
    {
      for k := 0 to d
        invariant sampled == Segments(ps, i, d) + Divisions(ps, i, k, d)
      {
        var (p0, p1, p2, p3) := Neighbours(ps, i);
        var t := k as real / d as real;
        var x := Basis(t, p0.x, p1.x, p2.x, p3.x);
        var y := Basis(t, p0.y, p1.y, p2.y, p3.y);
        var radius := Basis(t, p0.radius, p1.radius, p2.radius, p3.radius);
        sampled := sampled + [CurvePoint(x, y, radius)];
      }
    }
    var lastPoint := ps[|ps| - 1];
    sampled := sampled + [CurvePoint(lastPoint.x, lastPoint.y, lastPoint.radius)];
  }

  /** `m` segments hold `m * d` samples. */
  lemma {:induction false} SegmentsLength(ps: seq<CurvePoint>, m: nat, d: nat)
    requires m <= |ps| - 1
    ensures |Segments(ps, m, d)| == m * d
  {
    if m > 0 {
      SegmentsLength(ps, m - 1, d);
      assert (m - 1) * d + d == m * d;
    }
  }

  /** Fewer than two points come back unchanged; otherwise there are `d`
      samples per segment and one more for the closing point, which is the
      last control point. */
  lemma SampledShape(ps: seq<CurvePoint>, d: nat)
    ensures |ps| < 2 ==> Sampled(ps, d) == ps
    ensures |ps| >= 2 ==> |Sampled(ps, d)| == (|ps| - 1) * d + 1
                          && Sampled(ps, d)[(|ps| - 1) * d] == ps[|ps| - 1]
  {
    if |ps| >= 2 {
      SegmentsLength(ps, |ps| - 1, d);
    }
  }

  /** The first sample of every segment is the segment's first control
      point. */
  lemma {:induction false} DivisionsStartAtControlPoint(ps: seq<CurvePoint>, i: nat, k: nat, d: nat)
    requires i < |ps| - 1 && 0 < k <= d
    ensures Divisions(ps, i, k, d)[0] == ps[i]
  {
    if k > 1 {
      DivisionsStartAtControlPoint(ps, i, k - 1, d);
    }
  }

  /** Later segments only append: the samples of the first `m` segments are
      a prefix of those of the first `n`. */
  lemma {:induction false} SegmentsPrefix(ps: seq<CurvePoint>, m: nat, n: nat, d: nat)
    requires m <= n <= |ps| - 1
    ensures Segments(ps, m, d) <= Segments(ps, n, d)
    decreases n
  {
    if m < n {
      SegmentsPrefix(ps, m, n - 1, d);
    }
  }

  /** With at least one division, sample `start = i * d` (the start of
      segment `i`) is control point `i`: the resampled curve passes through every control
      point, the first one first. */
  lemma SampledPassesControlPoints(ps: seq<CurvePoint>, d: nat, i: nat, start: nat)
    requires 0 < d && i < |ps| - 1 && start == i * d
    ensures start < |Sampled(ps, d)| && Sampled(ps, d)[start] == ps[i]
  {
    SegmentsLength(ps, i, d);
    SegmentsPrefix(ps, i + 1, |ps| - 1, d);
    var s := Segments(ps, i + 1, d);
    assert s == Segments(ps, i, d) + Divisions(ps, i, d, d);
    DivisionsStartAtControlPoint(ps, i, d, d);
    assert s[start] == ps[i];
    var all := Segments(ps, |ps| - 1, d);
    assert Sampled(ps, d) == all + [ps[|ps| - 1]];
    assert start < |s| <= |all| && all[start] == s[start];
  }

  /** A curve whose control points are all the same point resamples to
      copies of that point. */
  lemma ConstantCurve(ps: seq<CurvePoint>, d: nat, c: CurvePoint)
    requires forall j :: 0 <= j < |ps| ==> ps[j] == c
    ensures forall q :: q in Sampled(ps, d) ==> q == c
  {
    if |ps| >= 2 {
      ConstantSegments(ps, d, c, |ps| - 1);
    }
  }

  lemma {:induction false} ConstantSegments(ps: seq<CurvePoint>, d: nat, c: CurvePoint, m: nat)
    requires m <= |ps| - 1 && forall j :: 0 <= j < |ps| ==> ps[j] == c
    ensures forall q :: q in Segments(ps, m, d) ==> q == c
  {
    if m > 0 {
      ConstantSegments(ps, d, c, m - 1);
      ConstantDivisions(ps, d, c, m - 1, d);
    }
  }

  lemma {:induction false} ConstantDivisions(ps: seq<CurvePoint>, d: nat, c: CurvePoint, i: nat, k: nat)
    requires i < |ps| - 1 && k <= d && forall j :: 0 <= j < |ps| ==> ps[j] == c
    ensures forall q :: q in Divisions(ps, i, k, d) ==> q == c
  {
    if k > 0 {
      ConstantDivisions(ps, d, c, i, k - 1);
    }
  }
}
