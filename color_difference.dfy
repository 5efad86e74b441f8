/** Colour difference between a reference image and the canvas: the squared
    RGB distance of one pixel, the per-pixel difference map of a whole image
    with its total, and the cost of a rectangular patch. Pixel buffers are
    row-major RGBA byte sequences, four bytes per pixel. */
module ColorDifference {

  /** One byte of an RGBA pixel buffer. */
  type Byte = b: int | 0 <= b < 256

  /** A colour distance computed from the red, green and blue differences. */
  type Distance = (int, int, int) -> int

  /** `srgbCartesianSq`: the squared Euclidean distance in RGB. */
  function SrgbCartesianSq(dr: int, dg: int, db: int): (r: int)
    ensures r >= 0
    ensures r == 0 <==> dr == 0 && dg == 0 && db == 0
    ensures r >= dr * dr && r >= dg * dg && r >= db * db
  {
    dr * dr + dg * dg + db * db
  }

  /** The squared distance of two byte colours is at most 3 * 255 * 255. */
  lemma SrgbCartesianSqBound(dr: int, dg: int, db: int)
    requires -255 <= dr <= 255 && -255 <= dg <= 255 && -255 <= db <= 255
    ensures SrgbCartesianSq(dr, dg, db) <= 3 * 255 * 255
  {
    SquareBound(dr);
    SquareBound(dg);
    SquareBound(db);
  }

  lemma SquareBound(d: int)
    requires -255 <= d <= 255
    ensures d * d <= 255 * 255
  {
    if d < 0 {
      assert d * d == (-d) * (-d);
      SquareBoundNat(-d);
    } else {
      SquareBoundNat(d);
    }
  }

  lemma SquareBoundNat(d: nat)
    requires d <= 255
    ensures d * d <= 255 * 255
  {
    assert d * d <= d * 255;
    assert d * 255 <= 255 * 255;
  }

  /** `cheapLightness`: a weighted sum of the channels whose weights sum to 1. */
  function CheapLightness(r: real, g: real, b: real): (l: real)
    ensures r == g == b ==> l == r
    ensures 0.0 <= r <= 255.0 && 0.0 <= g <= 255.0 && 0.0 <= b <= 255.0 ==> 0.0 <= l <= 255.0
  {
    0.299 * r + 0.587 * g + 0.114 * b
  }

  // ---------------------------------------------------------------------------
  // Difference map

  /** `buf` holds the red, green and blue bytes of its first `n` pixels; the
      alpha byte of the last of them is never read, so it may be missing. */
  predicate HoldsRgb(buf: seq<Byte>, n: nat) {
    4 * n <= |buf| + 1
  }

  /** The distance between the pixel whose red byte is at `ri` in `reference`
      and the pixel whose red byte is at `ci` in `current`, reference minus
      current, over the three colour bytes only. */
  function PixelDistance(reference: seq<Byte>, ri: nat, current: seq<Byte>, ci: nat, distance: Distance): int
    requires ri + 2 < |reference| && ci + 2 < |current|
  {
    distance(reference[ri] as int - current[ci] as int,
             reference[ri + 1] as int - current[ci + 1] as int,
             reference[ri + 2] as int - current[ci + 2] as int)
  }

  /** The difference map of the first `n` pixels: entry `i` is the distance
      between pixel `i` of the reference and pixel `i` of the current image. */
  function DifferenceMap(reference: seq<Byte>, current: seq<Byte>, n: nat, distance: Distance): (m: seq<int>)
    requires HoldsRgb(reference, n) && HoldsRgb(current, n)
    ensures |m| == n
  {
    if n == 0 then []
    else DifferenceMap(reference, current, n - 1, distance)
         + [PixelDistance(reference, 4 * (n - 1), current, 4 * (n - 1), distance)]
  }

  /** The sum of a sequence, accumulated from the left. */
  function Sum(s: seq<int>): int {
    if s == [] then 0 else Sum(s[..|s| - 1]) + s[|s| - 1]
  }

  lemma SumAppend(s: seq<int>, v: int)
    ensures Sum(s + [v]) == Sum(s) + v
  {
    assert (s + [v])[..|s|] == s;
  }

  /** A sum of non-negative entries is non-negative. */
  lemma {:induction false} SumNonNegative(s: seq<int>)
    requires forall i :: 0 <= i < |s| ==> s[i] >= 0
    ensures Sum(s) >= 0
  {
    if s != [] {
      SumNonNegative(s[..|s| - 1]);
    }
  }

  /** Entry `i` of the map is the distance of channels 4i, 4i+1 and 4i+2. */
  lemma {:induction false} DifferenceMapAt(reference: seq<Byte>, current: seq<Byte>, n: nat, distance: Distance, i: nat)
    requires HoldsRgb(reference, n) && HoldsRgb(current, n) && i < n
    ensures DifferenceMap(reference, current, n, distance)[i]
            == PixelDistance(reference, 4 * i, current, 4 * i, distance)
  {
    if i < n - 1 {
      DifferenceMapAt(reference, current, n - 1, distance, i);
    }
  }

  lemma DifferenceMapEntries(reference: seq<Byte>, current: seq<Byte>, n: nat, distance: Distance)
    requires HoldsRgb(reference, n) && HoldsRgb(current, n)
    ensures forall i :: 0 <= i < n ==> DifferenceMap(reference, current, n, distance)[i]
                                       == PixelDistance(reference, 4 * i, current, 4 * i, distance)
  {
    forall i | 0 <= i < n
      ensures DifferenceMap(reference, current, n, distance)[i]
              == PixelDistance(reference, 4 * i, current, 4 * i, distance)
    {
      DifferenceMapAt(reference, current, n, distance, i);
    }
  }

  /** The colour bytes of the pixel starting at `b` agree in `a` and `a'`. */
  predicate SameRgb(a: seq<Byte>, a': seq<Byte>, b: nat)
    requires b + 2 < |a| && b + 2 < |a'|
  {
    a[b] == a'[b] && a[b + 1] == a'[b + 1] && a[b + 2] == a'[b + 2]
  }

  /** The map reads nothing but the colour bytes of the first `n` pixels: the
      alpha bytes and every later byte may differ without changing it. */
  lemma DifferenceMapReadsOnlyRgb(
    reference: seq<Byte>, current: seq<Byte>, reference': seq<Byte>, current': seq<Byte>, n: nat, distance: Distance)
    requires HoldsRgb(reference, n) && HoldsRgb(current, n) && HoldsRgb(reference', n) && HoldsRgb(current', n)
    requires forall k :: 0 <= k < 4 * n && k % 4 != 3 ==> reference[k] == reference'[k] && current[k] == current'[k]
    ensures DifferenceMap(reference, current, n, distance) == DifferenceMap(reference', current', n, distance)
  {
    forall p | 0 <= p < n
      ensures SameRgb(reference, reference', 4 * p) && SameRgb(current, current', 4 * p)
    {
      ColourOffsets(p);
    }
    MapReadsOnlyRgb(reference, current, reference', current', n, distance);
  }

  /** The three colour bytes of pixel `p` are not alpha bytes. */
  lemma ColourOffsets(p: nat)
    ensures (4 * p) % 4 == 0 && (4 * p + 1) % 4 == 1 && (4 * p + 2) % 4 == 2
  {
  }

  lemma {:induction false} MapReadsOnlyRgb(
    reference: seq<Byte>, current: seq<Byte>, reference': seq<Byte>, current': seq<Byte>, n: nat, distance: Distance)
    requires HoldsRgb(reference, n) && HoldsRgb(current, n) && HoldsRgb(reference', n) && HoldsRgb(current', n)
    requires forall p :: 0 <= p < n ==> SameRgb(reference, reference', 4 * p) && SameRgb(current, current', 4 * p)
    ensures DifferenceMap(reference, current, n, distance) == DifferenceMap(reference', current', n, distance)
  {
    if n > 0 {
      MapReadsOnlyRgb(reference, current, reference', current', n - 1, distance);
      assert SameRgb(reference, reference', 4 * (n - 1)) && SameRgb(current, current', 4 * (n - 1));
    }
  }

  /** Comparing an image with itself gives an all-zero map whose total is zero,
      for any distance that is zero on equal colours. */
  lemma {:induction false} IdenticalImagesHaveZeroDifference(image: seq<Byte>, n: nat, distance: Distance)
    requires HoldsRgb(image, n)
    requires distance(0, 0, 0) == 0
    ensures forall i :: 0 <= i < n ==> DifferenceMap(image, image, n, distance)[i] == 0
    ensures Sum(DifferenceMap(image, image, n, distance)) == 0
  {
    if n > 0 {
      IdenticalImagesHaveZeroDifference(image, n - 1, distance);
      SumAppend(DifferenceMap(image, image, n - 1, distance), 0);
    }
  }

  /** With the squared distance every entry of the map, and so the total, is
      non-negative. */
  lemma {:induction false} SquaredDifferenceMapNonNegative(reference: seq<Byte>, current: seq<Byte>, n: nat)
    requires HoldsRgb(reference, n) && HoldsRgb(current, n)
    ensures forall i :: 0 <= i < n ==> DifferenceMap(reference, current, n, SrgbCartesianSq)[i] >= 0
    ensures Sum(DifferenceMap(reference, current, n, SrgbCartesianSq)) >= 0
  {
    if n > 0 {
      SquaredDifferenceMapNonNegative(reference, current, n - 1);
    }
    SumNonNegative(DifferenceMap(reference, current, n, SrgbCartesianSq));
  }

  /** `computeDifferenceMap`: writes the map of the first `out.Length` pixels
      into `out` and returns its total. */
  method ComputeDifferenceMap(reference: seq<Byte>, current: seq<Byte>, out: array<int>, distance: Distance)
    returns (total: int)
    requires HoldsRgb(reference, out.Length) && HoldsRgb(current, out.Length)
    modifies out
    ensures out[..] == DifferenceMap(reference, current, out.Length, distance)
    ensures forall i :: 0 <= i < out.Length ==> out[i] == PixelDistance(reference, 4 * i, current, 4 * i, distance)
    ensures total == Sum(out[..])
  {
    total := 0;
    for i := 0 to out.Length
      invariant out[..i] == DifferenceMap(reference, current, i, distance)
      invariant total == Sum(out[..i])
    {
      var base := i * 4;
      var dr := reference[base] as int - current[base] as int;
      var dg := reference[base + 1] as int - current[base + 1] as int;
      var db := reference[base + 2] as int - current[base + 2] as int;
      var diff := distance(dr, dg, db);
      ghost var done := out[..i];
      DifferenceMapStep(reference, current, i, distance, done, dr, dg, db);
      out[i] := diff;
      total := total + diff;
      assert out[..i + 1] == done + [diff];
    }
    assert out[..] == out[..out.Length];
    DifferenceMapEntries(reference, current, out.Length, distance);
  }

  /** One step of `computeDifferenceMap`: the map of one more pixel extends
      the map by that pixel's distance, and its sum by the same amount. */
  lemma DifferenceMapStep(reference: seq<Byte>, current: seq<Byte>, i: nat, distance: Distance,
                          done: seq<int>, dr: int, dg: int, db: int)
    requires HoldsRgb(reference, i + 1) && HoldsRgb(current, i + 1)
    requires done == DifferenceMap(reference, current, i, distance)
    requires dr == reference[4 * i] as int - current[4 * i] as int
    requires dg == reference[4 * i + 1] as int - current[4 * i + 1] as int
    requires db == reference[4 * i + 2] as int - current[4 * i + 2] as int
    ensures DifferenceMap(reference, current, i + 1, distance) == done + [distance(dr, dg, db)]
    ensures Sum(done + [distance(dr, dg, db)]) == Sum(done) + distance(dr, dg, db)
  {
    SumAppend(done, distance(dr, dg, db));
  }

  // ---------------------------------------------------------------------------
  // Patch cost

  /** A rectangle of pixels: its top-left corner and its size. */
  datatype Box = Box(x: nat, y: nat, w: nat, h: nat)

  /** The box lies inside an image `totalWidth` pixels wide held in `image`. */
  predicate BoxInside(image: seq<Byte>, box: Box, totalWidth: nat) {
    box.x + box.w <= totalWidth && (box.y + box.h) * totalWidth * 4 <= |image|
  }

  /** `patch` is the pixel data of `box` read back row by row, as
      `getImageData` returns it. */
  predicate PatchOf(patch: seq<Byte>, box: Box) {
    |patch| == box.w * box.h * 4
  }

  /** Byte offset in the whole image of local pixel (x, y) of the box. */
  function GlobalIndex(box: Box, totalWidth: nat, x: nat, y: nat): nat {
    ((box.y + y) * totalWidth + box.x + x) * 4
  }

  /** Byte offset in the patch of local pixel (x, y). */
  function LocalIndex(box: Box, x: nat, y: nat): nat {
    (y * box.w + x) * 4
  }

  lemma RowMajorBound(row: nat, rows: nat, col: nat, cols: nat)
    requires row < rows && col < cols
    ensures row * cols + col < rows * cols
  {
    MulSucc(row, cols);
    MulMono(row + 1, rows, cols);
  }

  lemma IndicesInBounds(reference: seq<Byte>, patch: seq<Byte>, box: Box, totalWidth: nat, x: nat, y: nat)
    requires BoxInside(reference, box, totalWidth) && PatchOf(patch, box)
    requires x < box.w && y < box.h
    ensures GlobalIndex(box, totalWidth, x, y) + 3 < |reference|
    ensures LocalIndex(box, x, y) + 3 < |patch|
  {
    RowMajorBound(box.y + y, box.y + box.h, box.x + x, totalWidth);
    RowMajorBound(y, box.h, x, box.w);
    assert box.w * box.h == box.h * box.w;
  }

  /** The cost of the first `n` pixels of row `y` of the box. */
  function PatchRowCost(reference: seq<Byte>, patch: seq<Byte>, box: Box, totalWidth: nat, distance: Distance, y: nat, n: nat): int
    requires BoxInside(reference, box, totalWidth) && PatchOf(patch, box)
    requires y < box.h && n <= box.w
  {
    if n == 0 then 0
    else
      IndicesInBounds(reference, patch, box, totalWidth, n - 1, y);
      PatchRowCost(reference, patch, box, totalWidth, distance, y, n - 1)
      + PixelDistance(reference, GlobalIndex(box, totalWidth, n - 1, y), patch, LocalIndex(box, n - 1, y), distance)
  }

  /** The cost of the first `rows` rows of the box. */
  function PatchCost(reference: seq<Byte>, patch: seq<Byte>, box: Box, totalWidth: nat, distance: Distance, rows: nat): int
    requires BoxInside(reference, box, totalWidth) && PatchOf(patch, box)
    requires rows <= box.h
  {
    if rows == 0 then 0
    else PatchCost(reference, patch, box, totalWidth, distance, rows - 1)
         + PatchRowCost(reference, patch, box, totalWidth, distance, rows - 1, box.w)
  }

  /** `computeCostOfPatch`: the distance summed over every pixel of the box,
      the patch pixel at local (x, y) compared with the reference pixel at
      (box.x + x, box.y + y). */
  method ComputeCostOfPatch(reference: seq<Byte>, patch: seq<Byte>, box: Box, totalWidth: nat, distance: Distance)
    returns (cost: int)
    requires BoxInside(reference, box, totalWidth) && PatchOf(patch, box)
    ensures cost == PatchCost(reference, patch, box, totalWidth, distance, box.h)
  {
    cost := 0;
    for y := 0 to box.h
      invariant cost == PatchCost(reference, patch, box, totalWidth, distance, y)
    {
      var row := ComputeRowCost(reference, patch, box, totalWidth, distance, y);
      cost := cost + row;
    }
  }

  /** The inner loop of `computeCostOfPatch`: the distances of row `y` of
      the box, summed from left to right. */
  method ComputeRowCost(reference: seq<Byte>, patch: seq<Byte>, box: Box, totalWidth: nat, distance: Distance, y: nat)
    returns (cost: int)
    requires BoxInside(reference, box, totalWidth) && PatchOf(patch, box) && y < box.h
    ensures cost == PatchRowCost(reference, patch, box, totalWidth, distance, y, box.w)
  {
    cost := 0;
    for x := 0 to box.w
      invariant cost == PatchRowCost(reference, patch, box, totalWidth, distance, y, x)
    {
      var globalIdx := GlobalIndex(box, totalWidth, x, y);
      var localIdx := LocalIndex(box, x, y);
      IndicesInBounds(reference, patch, box, totalWidth, x, y);
      var dr := reference[globalIdx] as int - patch[localIdx] as int;
      var dg := reference[globalIdx + 1] as int - patch[localIdx + 1] as int;
      var db := reference[globalIdx + 2] as int - patch[localIdx + 2] as int;
      PatchRowStep(reference, patch, box, totalWidth, distance, x, y, dr, dg, db);
      cost := cost + distance(dr, dg, db);
    }
  }

  /** One step of the inner loop of the patch cost: pixel (x, y), whose
      channel differences are `dr`, `dg` and `db`, extends the row's cost by
      its distance. */
  lemma PatchRowStep(reference: seq<Byte>, patch: seq<Byte>, box: Box, totalWidth: nat, distance: Distance,
                      x: nat, y: nat, dr: int, dg: int, db: int)
    requires BoxInside(reference, box, totalWidth) && PatchOf(patch, box)
    requires x < box.w && y < box.h
    requires GlobalIndex(box, totalWidth, x, y) + 2 < |reference| && LocalIndex(box, x, y) + 2 < |patch|
    requires var g, l := GlobalIndex(box, totalWidth, x, y), LocalIndex(box, x, y);
             dr == reference[g] as int - patch[l] as int
             && dg == reference[g + 1] as int - patch[l + 1] as int
             && db == reference[g + 2] as int - patch[l + 2] as int
    ensures PatchRowCost(reference, patch, box, totalWidth, distance, y, x + 1)
            == PatchRowCost(reference, patch, box, totalWidth, distance, y, x) + distance(dr, dg, db)
  {
  }

  /** A box without columns or without rows costs nothing. */
  lemma EmptyBoxCostsNothing(reference: seq<Byte>, patch: seq<Byte>, box: Box, totalWidth: nat, distance: Distance)
    requires BoxInside(reference, box, totalWidth) && PatchOf(patch, box)
    ensures box.w == 0 || box.h == 0 ==> PatchCost(reference, patch, box, totalWidth, distance, box.h) == 0
  {
    if box.w == 0 {
      EmptyRowsCostNothing(reference, patch, box, totalWidth, distance, box.h);
    }
  }

  lemma {:induction false} EmptyRowsCostNothing(reference: seq<Byte>, patch: seq<Byte>, box: Box, totalWidth: nat, distance: Distance, rows: nat)
    requires BoxInside(reference, box, totalWidth) && PatchOf(patch, box)
    requires rows <= box.h && box.w == 0
    ensures PatchCost(reference, patch, box, totalWidth, distance, rows) == 0
  {
    if rows > 0 {
      EmptyRowsCostNothing(reference, patch, box, totalWidth, distance, rows - 1);
    }
  }

  /** Every pixel of the box is counted exactly once: with a distance that is
      the constant `k`, the cost of `rows` full rows is `rows * w * k`. */
  lemma {:induction false} PatchCostCountsEveryPixel(
    reference: seq<Byte>, patch: seq<Byte>, box: Box, totalWidth: nat, distance: Distance, k: int, rows: nat)
    requires BoxInside(reference, box, totalWidth) && PatchOf(patch, box)
    requires rows <= box.h
    requires forall dr, dg, db :: distance(dr, dg, db) == k
    ensures PatchCost(reference, patch, box, totalWidth, distance, rows) == rows * box.w * k
  {
    if rows > 0 {
      PatchCostCountsEveryPixel(reference, patch, box, totalWidth, distance, k, rows - 1);
      RowCountsEveryPixel(reference, patch, box, totalWidth, distance, k, rows - 1, box.w);
      assert (rows - 1) * box.w * k + box.w * k == rows * box.w * k by {
        MulSucc(rows - 1, box.w * k);
        MulAssoc(rows, box.w, k);
        MulAssoc(rows - 1, box.w, k);
      }
    }
  }

  lemma {:induction false} RowCountsEveryPixel(
    reference: seq<Byte>, patch: seq<Byte>, box: Box, totalWidth: nat, distance: Distance, k: int, y: nat, n: nat)
    requires BoxInside(reference, box, totalWidth) && PatchOf(patch, box)
    requires y < box.h && n <= box.w
    requires forall dr, dg, db :: distance(dr, dg, db) == k
    ensures PatchRowCost(reference, patch, box, totalWidth, distance, y, n) == n * k
  {
    if n > 0 {
      RowCountsEveryPixel(reference, patch, box, totalWidth, distance, k, y, n - 1);
      MulSucc(n - 1, k);
    }
  }

  /** `box` sits at the origin of an image exactly as wide as itself, and
      `patch` holds its pixels. */
  predicate OriginBox(reference: seq<Byte>, patch: seq<Byte>, box: Box) {
    box.x == 0 && box.y == 0 && BoxInside(reference, box, box.w) && PatchOf(patch, box)
  }

  /** Entry `k` of `m` is the distance of pixel `k` of `current` from
      pixel `k` of `reference`, for every pixel of `m`. */
  predicate EntriesOf(m: seq<int>, reference: seq<Byte>, current: seq<Byte>, distance: Distance) {
    HoldsRgb(reference, |m|) && HoldsRgb(current, |m|)
    && forall k :: 0 <= k < |m| ==> m[k] == PixelDistance(reference, 4 * k, current, 4 * k, distance)
  }

  /** A box at the origin as wide as the image visits the pixels in the
      order of the difference map, so its patch cost is the sum of the map. */
  lemma OriginBoxCostIsMapSum(reference: seq<Byte>, patch: seq<Byte>, box: Box, distance: Distance)
    requires OriginBox(reference, patch, box)
    ensures HoldsRgb(reference, box.w * box.h) && HoldsRgb(patch, box.w * box.h)
    ensures PatchCost(reference, patch, box, box.w, distance, box.h)
            == Sum(DifferenceMap(reference, patch, box.w * box.h, distance))
  {
    var m := DifferenceMap(reference, patch, box.w * box.h, distance);
    DifferenceMapEntries(reference, patch, box.w * box.h, distance);
    OriginPatchCostIsMapSum(reference, patch, box, distance, m, box.h);
    assert box.h * box.w == |m|;
    assert m[..|m|] == m;
  }

  /** The cost of the first `rows` rows of such a box is the sum of the
      map's entries for their pixels, the first `rows * box.w`. */
  lemma {:induction false} OriginPatchCostIsMapSum(
    reference: seq<Byte>, patch: seq<Byte>, box: Box, distance: Distance, m: seq<int>, rows: nat)
    requires OriginBox(reference, patch, box) && |m| == box.w * box.h && EntriesOf(m, reference, patch, distance)
    requires rows <= box.h
    ensures rows * box.w <= |m|
    ensures PatchCost(reference, patch, box, box.w, distance, rows) == Sum(m[..rows * box.w])
  {
    MulMono(rows, box.h, box.w);
    if rows > 0 {
      OriginPatchCostIsMapSum(reference, patch, box, distance, m, rows - 1);
      MulSucc(rows - 1, box.w);
      OriginRowIsMapSum(reference, patch, box, distance, m, rows - 1, (rows - 1) * box.w, box.w, rows * box.w);
    }
  }

  /** The first `n` pixels of row `y`, which starts at pixel `start` and
      ends them at pixel `end`, add their map entries to the sum of the map
      over the rows above. */
  lemma {:induction false} OriginRowIsMapSum(
    reference: seq<Byte>, patch: seq<Byte>, box: Box, distance: Distance, m: seq<int>,
    y: nat, start: nat, n: nat, end: nat)
    requires OriginBox(reference, patch, box) && |m| == box.w * box.h && EntriesOf(m, reference, patch, distance)
    requires y < box.h && n <= box.w && start == y * box.w && end == start + n
    ensures end <= |m|
    ensures Sum(m[..start]) + PatchRowCost(reference, patch, box, box.w, distance, y, n) == Sum(m[..end])
  {
    MulSucc(y, box.w);
    MulMono(y + 1, box.h, box.w);
    if n > 0 {
      OriginRowIsMapSum(reference, patch, box, distance, m, y, start, n - 1, end - 1);
      OriginPixelStep(reference, patch, box, distance, m, y, start, n, end);
    }
  }

  /** The last of the first `n` pixels of row `y`, pixel `end - 1`, adds
      the same to the row's cost as its entry adds to the map sum. */
  lemma OriginPixelStep(
    reference: seq<Byte>, patch: seq<Byte>, box: Box, distance: Distance, m: seq<int>,
    y: nat, start: nat, n: nat, end: nat)
    requires OriginBox(reference, patch, box) && |m| == box.w * box.h && EntriesOf(m, reference, patch, distance)
    requires y < box.h && 0 < n <= box.w && start == y * box.w && end == start + n && end <= |m|
    ensures Sum(m[..end - 1])
            + PatchRowCost(reference, patch, box, box.w, distance, y, n)
            - PatchRowCost(reference, patch, box, box.w, distance, y, n - 1)
            == Sum(m[..end])
  {
    var k := end - 1;
    assert GlobalIndex(box, box.w, n - 1, y) == 4 * k && LocalIndex(box, n - 1, y) == 4 * k;
    assert m[..end] == m[..k] + [m[k]];
    SumAppend(m[..k], m[k]);
  }

  /** The first `rows` rows of a box at the origin as wide as the image
      hold whole pixels of both the image and the patch. */
  lemma OriginHoldsRgb(reference: seq<Byte>, patch: seq<Byte>, box: Box, rows: nat)
    requires OriginBox(reference, patch, box) && rows <= box.h
    ensures HoldsRgb(reference, rows * box.w) && HoldsRgb(patch, rows * box.w)
  {
    MulMono(rows, box.h, box.w);
    assert box.w * box.h == box.h * box.w;
  }

  lemma MulSucc(a: int, b: int)
    ensures (a + 1) * b == a * b + b
  {
  }

  lemma MulAssoc(a: int, b: int, c: int)
    ensures a * b * c == a * (b * c)
  {
  }

  lemma MulMono(a: nat, b: nat, c: nat)
    requires a <= b
    ensures a * c <= b * c
  {
    assert b * c - a * c == (b - a) * c;
  }
}
