/** The ribbon geometry of a sampled curve: two vertices per curve point,
    one on each side of the curve at the point's radius, along the normal of
    the tangent through the point's neighbours. */
module MeshLine {
  /** A point of a curve with the half-width of the ribbon there. */
  datatype CurvePoint = CurvePoint(x: real, y: real, radius: real)

  /** A 2D vector. */
  datatype Vec = Vec(x: real, y: real)

  /** The neighbour before point `i`: point `i - 1`, or the point itself at
      the start of the curve. */
  function Before(ps: seq<CurvePoint>, i: nat): (p: CurvePoint)
    requires i < |ps|
    ensures exists k :: 0 <= k < |ps| && p == ps[k] && (k == i - 1 || k == 0 == i)
  {
    if i == 0 then ps[i] else ps[i - 1]
  }

  /** The neighbour after point `i`: point `i + 1`, or the point itself at
      the end of the curve. */
  function After(ps: seq<CurvePoint>, i: nat): (p: CurvePoint)
    requires i < |ps|
    ensures exists k :: 0 <= k < |ps| && p == ps[k] && (k == i + 1 || k == i == |ps| - 1)
  {
    if i == |ps| - 1 then ps[i] else ps[i + 1]
  }

  /** The tangent at point `i`: the normalized vector from the neighbour
      before to the neighbour after. `normalize` is the vector library's
      normalization, passed in. */
  function Tangent(ps: seq<CurvePoint>, i: nat, normalize: Vec -> Vec): Vec
    requires i < |ps|
  {
    normalize(Vec(After(ps, i).x - Before(ps, i).x, After(ps, i).y - Before(ps, i).y))
  }

  /** The tangent turned a quarter turn anticlockwise. */
  function Normal(t: Vec): (n: Vec)
    ensures n.x * t.x + n.y * t.y == 0.0
  {
    Vec(-t.y, t.x)
  }

  /** The point plus `scale` times the vector. */
  function Offset(p: CurvePoint, v: Vec, scale: real): Vec {
    Vec(p.x + v.x * scale, p.y + v.y * scale)
  }

  /** The two vertices of point `i`: the point moved by minus and by plus its
      radius along the normal. */
  function Left(ps: seq<CurvePoint>, i: nat, normalize: Vec -> Vec): Vec
    requires i < |ps|
  {
    Offset(ps[i], Normal(Tangent(ps, i, normalize)), -ps[i].radius)
  }

  function Right(ps: seq<CurvePoint>, i: nat, normalize: Vec -> Vec): Vec
    requires i < |ps|
  {
    Offset(ps[i], Normal(Tangent(ps, i, normalize)), ps[i].radius)
  }

  /** The four coordinates written for point `i`: left vertex, then right. */
  predicate QuadAt(coords: seq<real>, ps: seq<CurvePoint>, i: nat, normalize: Vec -> Vec)
    requires i < |ps| && 4 * i + 4 <= |coords|
  {
    var l := Left(ps, i, normalize);
    var r := Right(ps, i, normalize);
    coords[4 * i] == l.x && coords[4 * i + 1] == l.y && coords[4 * i + 2] == r.x && coords[4 * i + 3] == r.y
  }

  /** Writes outside point `i`'s four slots leave its quad in place. */
  lemma QuadUnchanged(a: seq<real>, b: seq<real>, ps: seq<CurvePoint>, i: nat, normalize: Vec -> Vec)
    requires i < |ps| && 4 * i + 4 <= |a| == |b|
    requires a[4 * i] == b[4 * i] && a[4 * i + 1] == b[4 * i + 1]
    requires a[4 * i + 2] == b[4 * i + 2] && a[4 * i + 3] == b[4 * i + 3]
    requires QuadAt(a, ps, i, normalize)
    ensures QuadAt(b, ps, i, normalize)
  {
  }

  /** `buildMeshLineBuffer`: nothing for no points; for one point the
      horizontal pair `[x - r, y, x + r, y]`; otherwise four coordinates per
      point, each point's two vertices at offset `4 i`. */
  method BuildMeshLineBuffer(ps: seq<CurvePoint>, normalize: Vec -> Vec) returns (coords: array<real>)
    ensures coords.Length == 4 * |ps|
    ensures |ps| == 1 ==> coords[..] == [ps[0].x - ps[0].radius, ps[0].y, ps[0].x + ps[0].radius, ps[0].y]
    ensures |ps| >= 2 ==> forall i :: 0 <= i < |ps| ==> QuadAt(coords[..], ps, i, normalize)
  {
    if |ps| == 0 {
      return new real[0];
    }
    if |ps| == 1 {
      var p := ps[0];
      coords := new real[] [p.x - p.radius, p.y, p.x + p.radius, p.y];
      return;
    }
    coords := new real[|ps| * 4];
    var coordOffset := 0;
    for i := 0 to |ps|
      invariant coordOffset == 4 * i
      invariant forall j :: 0 <= j < i ==> QuadAt(coords[..], ps, j, normalize)
    {
      var lastPoint := if i == 0 then ps[i] else ps[i - 1];
      var nextPoint := if i == |ps| - 1 then ps[i] else ps[i + 1];
      var tangent := normalize(Vec(nextPoint.x - lastPoint.x, nextPoint.y - lastPoint.y));
      var normal := Vec(-tangent.y, tangent.x);
      var curPoint := ps[i];
      ghost var before := coords[..];
      coords[coordOffset] := curPoint.x + normal.x * -curPoint.radius;
      coords[coordOffset + 1] := curPoint.y + normal.y * -curPoint.radius;
      coords[coordOffset + 2] := curPoint.x + normal.x * curPoint.radius;
      coords[coordOffset + 3] := curPoint.y + normal.y * curPoint.radius;
      forall j | 0 <= j < i
        ensures QuadAt(coords[..], ps, j, normalize)
      {
        QuadUnchanged(before, coords[..], ps, j, normalize);
      }
      assert QuadAt(coords[..], ps, i, normalize);
      coordOffset := coordOffset + 4;
    }
  }

  /** The two vertices of a point are mirror images about it: their
      coordinates sum to twice the point's. */
  lemma VerticesSymmetric(ps: seq<CurvePoint>, i: nat, normalize: Vec -> Vec)
    requires i < |ps|
    ensures Left(ps, i, normalize).x + Right(ps, i, normalize).x == 2.0 * ps[i].x
    ensures Left(ps, i, normalize).y + Right(ps, i, normalize).y == 2.0 * ps[i].y
  {
    var n := Normal(Tangent(ps, i, normalize));
    var r := ps[i].radius;
    assert n.x * -r + n.x * r == 0.0;
    assert n.y * -r + n.y * r == 0.0;
  }

  /** Each vertex lies off the point along the normal, at right angles to
      the tangent. */
  lemma VerticesAcrossTangent(ps: seq<CurvePoint>, i: nat, normalize: Vec -> Vec)
    requires i < |ps|
    ensures var t := Tangent(ps, i, normalize);
            var l := Left(ps, i, normalize);
            var r := Right(ps, i, normalize);
            && (l.x - ps[i].x) * t.x + (l.y - ps[i].y) * t.y == 0.0
            && (r.x - ps[i].x) * t.x + (r.y - ps[i].y) * t.y == 0.0
  {
    var t := Tangent(ps, i, normalize);
    var n := Normal(t);
    var r := ps[i].radius;
    calc {
      (n.x * r) * t.x + (n.y * r) * t.y;
      r * (n.x * t.x + n.y * t.y);
      0.0;
    }
    calc {
      (n.x * -r) * t.x + (n.y * -r) * t.y;
      -r * (n.x * t.x + n.y * t.y);
      0.0;
    }
  }
}
