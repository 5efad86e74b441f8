/** The stroke optimiser: the pure pieces of `BrushOptimizer` (candidate
    generators, refinement box, descent step, convergence test, sampling by
    the difference map) and the session object that strings them together.
    Every `Math.random()` draw, the trigonometric values of a random angle and
    the results of `randBetweenExponential` arrive as parameters. */
module Optimizer {
  import opened Util
  import opened JsMath
  import opened ColorDifference
  import opened Strokes

  datatype Option<T> = None | Some(value: T)

  /** A closed interval of reals, as the `[min, max]` option pairs. */
  datatype Range = Range(lo: real, hi: real)

  predicate InRange(v: real, r: Range) {
    r.lo <= v <= r.hi
  }

  /** The optimiser's options after defaulting, with the canvas size. */
  datatype Config = Config(
    width: nat,
    height: nat,
    iterationsPerFrame: nat,
    brushRadiusRange: Range,
    strokeLengthRange: Range,
    colorJitter: real,
    alphaRange: Range)

  /** The options as passed to the constructor; a missing one is `None`. */
  datatype Options = Options(
    iterationsPerFrame: Option<nat>,
    brushRadiusRange: Option<Range>,
    strokeLengthRange: Option<Range>,
    colorJitter: Option<real>,
    alphaRange: Option<Range>)

  function OrDefault<T>(o: Option<T>, fallback: T): (v: T)
    ensures o.Some? ==> v == o.value
    ensures o.None? ==> v == fallback
  {
    if o.Some? then o.value else fallback
  }

  /** The constructor's `??` defaults: one iteration per frame, radii in
      [1, 400], stroke lengths in [2, 16], a colour jitter of 9 and opacities
      in [0.8, 1]. */
  function Resolve(options: Options, width: nat, height: nat): (cfg: Config)
    ensures cfg.width == width && cfg.height == height
    ensures options.iterationsPerFrame.None? ==> cfg.iterationsPerFrame == 1
    ensures options.brushRadiusRange.None? ==> cfg.brushRadiusRange == Range(1.0, 400.0)
    ensures options.strokeLengthRange.None? ==> cfg.strokeLengthRange == Range(2.0, 16.0)
    ensures options.colorJitter.None? ==> cfg.colorJitter == 9.0
    ensures options.alphaRange.None? ==> cfg.alphaRange == Range(0.8, 1.0)
    ensures options.alphaRange.Some? ==> cfg.alphaRange == options.alphaRange.value
    ensures options.brushRadiusRange.Some? ==> cfg.brushRadiusRange == options.brushRadiusRange.value
  {
    Config(width, height,
           OrDefault(options.iterationsPerFrame, 1),
           OrDefault(options.brushRadiusRange, Range(1.0, 400.0)),
           OrDefault(options.strokeLengthRange, Range(2.0, 16.0)),
           OrDefault(options.colorJitter, 9.0),
           OrDefault(options.alphaRange, Range(0.8, 1.0)))
  }

  /** The configurations the model covers: non-empty radius and opacity
      ranges of positive values, so that the finite-difference steps (which
      divide by a radius) and the position learning rate (which divides by
      the opacity) are defined. */
  predicate ValidConfig(cfg: Config) {
    0.0 < cfg.brushRadiusRange.lo <= cfg.brushRadiusRange.hi
    && 0.0 < cfg.alphaRange.lo <= cfg.alphaRange.hi
  }

  /** The default options give a valid configuration. */
  lemma DefaultsAreValid(width: nat, height: nat)
    ensures ValidConfig(Resolve(Options(None, None, None, None, None), width, height))
  {
  }

  // ---------------------------------------------------------------------------
  // Range invariants of a stroke

  /** Every radius in the brush range, every channel in [0, 255], the opacity
      in the opacity range. Positions are not constrained. */
  predicate InRanges(s: Stroke, cfg: Config) {
    InRange(s.p0.radius, cfg.brushRadiusRange)
    && InRange(s.p1.radius, cfg.brushRadiusRange)
    && InRange(s.p2.radius, cfg.brushRadiusRange)
    && 0.0 <= s.color.r <= 255.0 && 0.0 <= s.color.g <= 255.0 && 0.0 <= s.color.b <= 255.0
    && InRange(s.alpha, cfg.alphaRange)
  }

  /** The point lies on the canvas, edges included. */
  predicate OnCanvas(p: Point, cfg: Config) {
    0.0 <= p.x <= cfg.width as real && 0.0 <= p.y <= cfg.height as real
  }

  predicate AllOnCanvas(s: Stroke, cfg: Config) {
    OnCanvas(s.p0, cfg) && OnCanvas(s.p1, cfg) && OnCanvas(s.p2, cfg)
  }

  /** A value jittered by `randBetween(-j, j)` and clamped into a range that
      already held it moves by at most `j`. */
  lemma JitterStaysNear(v: real, j: real, u: real, lo: real, hi: real)
    requires lo <= v <= hi && 0.0 <= j && UnitDraw(u)
    ensures Abs(Clamp(v + RandBetween(-j, j, u), lo, hi) - v) <= j
  {
    ClampNonExpansive(v + RandBetween(-j, j, u), v, lo, hi);
  }

  // ---------------------------------------------------------------------------
  // Candidate generators

  /** Three uniform draws for a point: x, y and radius jitter. */
  datatype PointDraws = PointDraws(x: real, y: real, radius: real)

  /** Three uniform draws for the colour jitter. */
  datatype ColorDraws = ColorDraws(r: real, g: real, b: real)

  /** The random direction and length of a new stroke: the cosine and sine of
      the drawn angle and the `randBetweenExponential` stroke length. */
  datatype Heading = Heading(cos: real, sin: real, length: real)

  predicate PointDrawsValid(d: PointDraws) {
    UnitDraw(d.x) && UnitDraw(d.y) && UnitDraw(d.radius)
  }

  predicate ColorDrawsValid(d: ColorDraws) {
    UnitDraw(d.r) && UnitDraw(d.g) && UnitDraw(d.b)
  }

  /** The draws of `perturbStroke`. */
  datatype PerturbDraws = PerturbDraws(p0: PointDraws, p1: PointDraws, p2: PointDraws, color: ColorDraws, alpha: real)

  predicate PerturbDrawsValid(d: PerturbDraws) {
    PointDrawsValid(d.p0) && PointDrawsValid(d.p1) && PointDrawsValid(d.p2)
    && ColorDrawsValid(d.color) && UnitDraw(d.alpha)
  }

  const PerturbPositionJitter: real := 10.0
  const RadiusJitter: real := 2.0
  const InheritedColorJitter: real := 10.0
  const AlphaJitter: real := 0.1
  const ConnectedPositionJitter: real := 5.0

  /** `perturbPoint`: each coordinate jittered by up to 10 and clamped onto the
      canvas, the radius jittered by up to 2 and clamped into the brush range. */
  function PerturbPoint(p: Point, cfg: Config, d: PointDraws): (q: Point)
    ensures cfg.brushRadiusRange.lo <= cfg.brushRadiusRange.hi ==> OnCanvas(q, cfg) && InRange(q.radius, cfg.brushRadiusRange)
  {
    Point(Clamp(p.x + RandBetween(-PerturbPositionJitter, PerturbPositionJitter, d.x), 0.0, cfg.width as real),
          Clamp(p.y + RandBetween(-PerturbPositionJitter, PerturbPositionJitter, d.y), 0.0, cfg.height as real),
          Clamp(p.radius + RandBetween(-RadiusJitter, RadiusJitter, d.radius), cfg.brushRadiusRange.lo, cfg.brushRadiusRange.hi))
  }

  /** A channel jittered by up to `j` and clamped into [0, 255]. */
  function JitterChannel(c: real, j: real, u: real): (v: real)
    ensures 0.0 <= v <= 255.0
  {
    Clamp(c + RandBetween(-j, j, u), 0.0, 255.0)
  }

  /** `perturbStroke`: a variation of `s` with every field jittered and
      clamped into its range. */
  function PerturbStroke(s: Stroke, cfg: Config, d: PerturbDraws): (r: Stroke)
    ensures ValidConfig(cfg) ==> InRanges(r, cfg) && AllOnCanvas(r, cfg)
  {
    Stroke(PerturbPoint(s.p0, cfg, d.p0),
           PerturbPoint(s.p1, cfg, d.p1),
           PerturbPoint(s.p2, cfg, d.p2),
           Color(JitterChannel(s.color.r, InheritedColorJitter, d.color.r),
                 JitterChannel(s.color.g, InheritedColorJitter, d.color.g),
                 JitterChannel(s.color.b, InheritedColorJitter, d.color.b)),
           Clamp(s.alpha + RandBetween(-AlphaJitter, AlphaJitter, d.alpha), cfg.alphaRange.lo, cfg.alphaRange.hi))
  }

  /** A point moved by at most `dp` in each coordinate and `dr` in radius. */
  predicate PointNear(q: Point, p: Point, dp: real, dr: real) {
    Abs(q.x - p.x) <= dp && Abs(q.y - p.y) <= dp && Abs(q.radius - p.radius) <= dr
  }

  /** A colour moved by at most `dc` in each channel. */
  predicate ColorNear(c: Color, c0: Color, dc: real) {
    Abs(c.r - c0.r) <= dc && Abs(c.g - c0.g) <= dc && Abs(c.b - c0.b) <= dc
  }

  /** A perturbed stroke stays close to a stroke that was already on the canvas
      and in range: points within 10 (radius within 2), channels within 10,
      opacity within 0.1. */
  lemma PerturbStaysNear(s: Stroke, cfg: Config, d: PerturbDraws)
    requires ValidConfig(cfg) && InRanges(s, cfg) && AllOnCanvas(s, cfg) && PerturbDrawsValid(d)
    ensures var r := PerturbStroke(s, cfg, d);
            && PointNear(r.p0, s.p0, PerturbPositionJitter, RadiusJitter)
            && PointNear(r.p1, s.p1, PerturbPositionJitter, RadiusJitter)
            && PointNear(r.p2, s.p2, PerturbPositionJitter, RadiusJitter)
            && ColorNear(r.color, s.color, InheritedColorJitter)
            && Abs(r.alpha - s.alpha) <= AlphaJitter
  {
    PerturbPointNear(s.p0, cfg, d.p0);
    PerturbPointNear(s.p1, cfg, d.p1);
    PerturbPointNear(s.p2, cfg, d.p2);
    JitterStaysNear(s.color.r, InheritedColorJitter, d.color.r, 0.0, 255.0);
    JitterStaysNear(s.color.g, InheritedColorJitter, d.color.g, 0.0, 255.0);
    JitterStaysNear(s.color.b, InheritedColorJitter, d.color.b, 0.0, 255.0);
    JitterStaysNear(s.alpha, AlphaJitter, d.alpha, cfg.alphaRange.lo, cfg.alphaRange.hi);
  }

  lemma PerturbPointNear(p: Point, cfg: Config, d: PointDraws)
    requires ValidConfig(cfg) && OnCanvas(p, cfg) && InRange(p.radius, cfg.brushRadiusRange) && PointDrawsValid(d)
    ensures PointNear(PerturbPoint(p, cfg, d), p, PerturbPositionJitter, RadiusJitter)
  {
    JitterStaysNear(p.x, PerturbPositionJitter, d.x, 0.0, cfg.width as real);
    JitterStaysNear(p.y, PerturbPositionJitter, d.y, 0.0, cfg.height as real);
    JitterStaysNear(p.radius, RadiusJitter, d.radius, cfg.brushRadiusRange.lo, cfg.brushRadiusRange.hi);
  }

  /** The draws of `generateConnectedStroke`: which end to attach to, the
      start jitter, the heading, the control-point jitters, colour and
      opacity. */
  datatype ConnectDraws = ConnectDraws(
    pickStart: real, start: PointDraws, heading: Heading,
    p1: PointDraws, p2: PointDraws, color: ColorDraws, alpha: real)

  predicate ConnectDrawsValid(d: ConnectDraws) {
    UnitDraw(d.pickStart) && PointDrawsValid(d.start) && PointDrawsValid(d.p1) && PointDrawsValid(d.p2)
    && ColorDrawsValid(d.color) && UnitDraw(d.alpha)
  }

  /** The end of `s` a connected stroke attaches to: the start when the draw
      is below one half, the end otherwise. */
  function AttachPoint(s: Stroke, pickStart: real): (p: Point)
    ensures p == s.p0 || p == s.p2
  {
    if pickStart < 0.5 then s.p0 else s.p2
  }

  /** `generateConnectedStroke`: a stroke starting near one end of `s`, with
      its radius and colour inherited with jitter and the other two points
      laid out along a random heading. Every position is clamped onto the
      canvas and every other field into its range. */
  function GenerateConnectedStroke(s: Stroke, cfg: Config, d: ConnectDraws): (r: Stroke)
    ensures ValidConfig(cfg) ==> InRanges(r, cfg) && AllOnCanvas(r, cfg)
  {
    var base := AttachPoint(s, d.pickStart);
    var w, h := cfg.width as real, cfg.height as real;
    var rlo, rhi := cfg.brushRadiusRange.lo, cfg.brushRadiusRange.hi;
    var startX := Clamp(base.x + RandBetween(-ConnectedPositionJitter, ConnectedPositionJitter, d.start.x), 0.0, w);
    var startY := Clamp(base.y + RandBetween(-ConnectedPositionJitter, ConnectedPositionJitter, d.start.y), 0.0, h);
    var newRadius := Clamp(base.radius + RandBetween(-RadiusJitter, RadiusJitter, d.start.radius), rlo, rhi);
    var controlJitter := rlo * 0.75;
    var a := d.heading;
    var p0 := Point(startX, startY, newRadius);
    var p1 := Point(Clamp(startX + a.cos * a.length * newRadius + RandBetween(-controlJitter, controlJitter, d.p1.x), 0.0, w),
                    Clamp(startY + a.sin * a.length * newRadius + RandBetween(-controlJitter, controlJitter, d.p1.y), 0.0, h),
                    Clamp(newRadius + RandBetween(-RadiusJitter, RadiusJitter, d.p1.radius), rlo, rhi));
    var p2 := Point(Clamp(startX + a.cos * a.length * p1.radius + RandBetween(-controlJitter, controlJitter, d.p2.x), 0.0, w),
                    Clamp(startY + a.sin * a.length * p1.radius + RandBetween(-controlJitter, controlJitter, d.p2.y), 0.0, h),
                    Clamp(newRadius + RandBetween(-RadiusJitter, RadiusJitter, d.p2.radius), rlo, rhi));
    Stroke(p0, p1, p2,
           Color(JitterChannel(s.color.r, InheritedColorJitter, d.color.r),
                 JitterChannel(s.color.g, InheritedColorJitter, d.color.g),
                 JitterChannel(s.color.b, InheritedColorJitter, d.color.b)),
           Clamp(s.alpha + RandBetween(-AlphaJitter, AlphaJitter, d.alpha), cfg.alphaRange.lo, cfg.alphaRange.hi))
  }

  /** A connected stroke starts within 5 of the end it attaches to (its
      radius within 2), and inherits the colour within 10 per channel and the
      opacity within 0.1. */
  lemma ConnectedStrokeStartsAtEnd(s: Stroke, cfg: Config, d: ConnectDraws)
    requires ValidConfig(cfg) && InRanges(s, cfg) && AllOnCanvas(s, cfg) && ConnectDrawsValid(d)
    ensures var r := GenerateConnectedStroke(s, cfg, d);
            && PointNear(r.p0, AttachPoint(s, d.pickStart), ConnectedPositionJitter, RadiusJitter)
            && ColorNear(r.color, s.color, InheritedColorJitter)
            && Abs(r.alpha - s.alpha) <= AlphaJitter
  {
    var base := AttachPoint(s, d.pickStart);
    JitterStaysNear(base.x, ConnectedPositionJitter, d.start.x, 0.0, cfg.width as real);
    JitterStaysNear(base.y, ConnectedPositionJitter, d.start.y, 0.0, cfg.height as real);
    JitterStaysNear(base.radius, RadiusJitter, d.start.radius, cfg.brushRadiusRange.lo, cfg.brushRadiusRange.hi);
    JitterStaysNear(s.color.r, InheritedColorJitter, d.color.r, 0.0, 255.0);
    JitterStaysNear(s.color.g, InheritedColorJitter, d.color.g, 0.0, 255.0);
    JitterStaysNear(s.color.b, InheritedColorJitter, d.color.b, 0.0, 255.0);
    JitterStaysNear(s.alpha, AlphaJitter, d.alpha, cfg.alphaRange.lo, cfg.alphaRange.hi);
  }

  /** `randomizeColor`: each channel jittered by up to `jitter`, clamped into
      [0, 255] and rounded to a whole number. */
  function RandomizeColor(c: Color, jitter: real, d: ColorDraws): (r: Color)
    ensures 0.0 <= r.r <= 255.0 && 0.0 <= r.g <= 255.0 && 0.0 <= r.b <= 255.0
    ensures r.r == r.r.Floor as real && r.g == r.g.Floor as real && r.b == r.b.Floor as real
  {
    Color(RoundedChannel(c.r, jitter, d.r), RoundedChannel(c.g, jitter, d.g), RoundedChannel(c.b, jitter, d.b))
  }

  function RoundedChannel(c: real, jitter: real, u: real): (v: real)
    ensures 0.0 <= v <= 255.0 && v == v.Floor as real
  {
    Round(Clamp(c + RandBetween(-jitter, jitter, u), 0.0, 255.0)) as real
  }

  /** A randomized channel of an in-range colour lies within `jitter + 1/2` of
      it: the jitter, then at most half a unit of rounding. */
  lemma RandomizedChannelNear(c: real, jitter: real, u: real)
    requires 0.0 <= c <= 255.0 && 0.0 <= jitter && UnitDraw(u)
    ensures Abs(RoundedChannel(c, jitter, u) - c) <= jitter + 0.5
  {
    JitterStaysNear(c, jitter, u, 0.0, 255.0);
  }

  /** The draws of a fresh stroke: colour jitter, heading, the three
      `randBetweenExponential` radii, the control-point jitters and the
      opacity. */
  datatype FreshDraws = FreshDraws(
    color: ColorDraws, heading: Heading, r0: real, r1: real, r2: real,
    p1x: real, p1y: real, p2x: real, p2y: real, alpha: real)

  /** Uniform draws in [0, 1), and radii inside the brush range as
      `randBetweenExponential(lo, hi)` returns them. */
  predicate FreshDrawsValid(d: FreshDraws, cfg: Config) {
    ColorDrawsValid(d.color)
    && InRange(d.r0, cfg.brushRadiusRange) && InRange(d.r1, cfg.brushRadiusRange) && InRange(d.r2, cfg.brushRadiusRange)
    && UnitDraw(d.p1x) && UnitDraw(d.p1y) && UnitDraw(d.p2x) && UnitDraw(d.p2y) && UnitDraw(d.alpha)
  }

  /** `buildStrokePoints`: the first point at the origin pixel, the other two
      along the heading scaled by the previous radius, jittered and clamped
      onto the canvas. The first point is not clamped. */
  function BuildStrokePoints(originX: real, originY: real, cfg: Config, d: FreshDraws): (ps: (Point, Point, Point))
    ensures ps.0 == Point(originX, originY, d.r0)
    ensures OnCanvas(ps.1, cfg) && OnCanvas(ps.2, cfg)
    ensures ps.1.radius == d.r1 && ps.2.radius == d.r2
  {
    var jitter := cfg.brushRadiusRange.lo * 0.75;
    var a := d.heading;
    var w, h := cfg.width as real, cfg.height as real;
    var p0 := Point(originX, originY, d.r0);
    var p1 := Point(Clamp(originX + a.cos * a.length * p0.radius + RandBetween(-jitter, jitter, d.p1x), 0.0, w),
                    Clamp(originY + a.sin * a.length * p0.radius + RandBetween(-jitter, jitter, d.p1y), 0.0, h),
                    d.r1);
    var p2 := Point(Clamp(originX + a.cos * a.length * p1.radius + RandBetween(-jitter, jitter, d.p2x), 0.0, w),
                    Clamp(originY + a.sin * a.length * p1.radius + RandBetween(-jitter, jitter, d.p2y), 0.0, h),
                    d.r2);
    (p0, p1, p2)
  }

  /** The target pixel chosen by sampling: its column, row and linear index. */
  datatype Target = Target(x: nat, y: nat, index: nat)

  /** The fresh-stroke branch of `startNewStroke`: the reference colour at the
      target, randomized; points built from the target pixel; an opacity drawn
      uniformly from the opacity range. */
  function FreshStroke(t: Target, reference: Color, cfg: Config, d: FreshDraws): (r: Stroke)
    ensures r.p0.x == t.x as real && r.p0.y == t.y as real
    ensures AllOnCanvas(r, cfg) <== t.x <= cfg.width && t.y <= cfg.height
    ensures ValidConfig(cfg) && FreshDrawsValid(d, cfg) ==> InRanges(r, cfg)
  {
    var ps := BuildStrokePoints(t.x as real, t.y as real, cfg, d);
    Stroke(ps.0, ps.1, ps.2, RandomizeColor(reference, cfg.colorJitter, d.color),
           RandBetween(cfg.alphaRange.lo, cfg.alphaRange.hi, d.alpha))
  }

  /** The draws of one candidate of `startNewStroke`: whether to vary the
      last successful stroke (below 0.7), and if so whether to perturb it
      (below 0.5) or connect to it; and the draws each generator needs. */
  datatype CandidateDraws = CandidateDraws(
    variation: real, kind: real, perturb: PerturbDraws, connect: ConnectDraws, initial: FreshDraws)

  predicate CandidateDrawsValid(d: CandidateDraws, cfg: Config) {
    PerturbDrawsValid(d.perturb) && ConnectDrawsValid(d.connect) && FreshDrawsValid(d.initial, cfg)
  }

  /** One candidate of `startNewStroke`. With a last successful stroke and a
      draw below 0.7 it is a variation of that stroke; otherwise a fresh
      stroke at the target. */
  function Candidate(last: Option<Stroke>, t: Target, reference: Color, cfg: Config, d: CandidateDraws): (r: Stroke)
    ensures last.None? ==> r == FreshStroke(t, reference, cfg, d.initial)
    ensures ValidConfig(cfg) && CandidateDrawsValid(d, cfg) ==> InRanges(r, cfg)
  {
    if last.Some? && d.variation < 0.7 then
      if d.kind < 0.5 then PerturbStroke(last.value, cfg, d.perturb)
      else GenerateConnectedStroke(last.value, cfg, d.connect)
    else FreshStroke(t, reference, cfg, d.initial)
  }

  // ---------------------------------------------------------------------------
  // Best-of-N selection

  /** `j` indexes the first minimum of `costs`: no cost is smaller, and every
      earlier cost is strictly larger (a later tie does not replace it). */
  predicate IsFirstMinimum(costs: seq<int>, j: nat) {
    j < |costs|
    && (forall i :: 0 <= i < |costs| ==> costs[j] <= costs[i])
    && (forall i :: 0 <= i < j ==> costs[j] < costs[i])
  }

  /** One step of the best-of-N loop, which keeps the incumbent unless the
      new cost is strictly smaller: the first cost starts the search, and
      afterwards the first minimum of one more cost is the new index exactly
      when its cost beats the incumbent. */
  lemma FirstMinimumStep(costs: seq<int>, c: int, best: nat)
    requires costs != [] ==> IsFirstMinimum(costs, best)
    ensures costs == [] ==> IsFirstMinimum([c], 0)
    ensures costs != [] && c < costs[best] ==> IsFirstMinimum(costs + [c], |costs|)
    ensures costs != [] && c >= costs[best] ==> IsFirstMinimum(costs + [c], best)
  {
  }

  /** The index the best-of-N loop keeps: the first minimum of `costs`. */
  function FirstMinimum(costs: seq<int>): (j: nat)
    requires costs != []
    ensures IsFirstMinimum(costs, j)
  {
    if |costs| == 1 then 0
    else
      var init := costs[..|costs| - 1];
      var best := FirstMinimum(init);
      FirstMinimumStep(init, costs[|costs| - 1], best);
      assert init + [costs[|costs| - 1]] == costs;
      if costs[|costs| - 1] < init[best] then |costs| - 1 else best
  }

  /** A sequence has one first minimum, so `FirstMinimum` is the only index
      satisfying `IsFirstMinimum`. */
  lemma FirstMinimumUnique(costs: seq<int>, j: nat, k: nat)
    requires IsFirstMinimum(costs, j) && IsFirstMinimum(costs, k)
    ensures j == k
  {
    assert costs[j] == costs[k];
  }

  // ---------------------------------------------------------------------------
  // Target sampling

  /** The running total of the first `k` entries. */
  function Prefix(m: seq<int>, k: nat): int
    requires k <= |m|
  {
    Sum(m[..k])
  }

  /** Pixel `i`'s running total (its own entry included) reaches `target`. */
  predicate Reaches(m: seq<int>, target: real, i: nat) {
    i < |m| && Prefix(m, i + 1) as real >= target
  }

  /** `i` is the first pixel whose running total reaches `target`: the pixel
      inverse-CDF sampling picks. */
  predicate FirstReaching(m: seq<int>, target: real, i: nat) {
    Reaches(m, target, i) && forall j :: 0 <= j < i ==> !Reaches(m, target, j)
  }

  lemma PrefixStep(m: seq<int>, k: nat)
    requires k < |m|
    ensures Prefix(m, k + 1) == Prefix(m, k) + m[k]
  {
    assert m[..k + 1] == m[..k] + [m[k]];
    SumAppend(m[..k], m[k]);
  }

  /** A target no larger than the total is reached by some first pixel. */
  lemma {:induction false} FirstReachingExists(m: seq<int>, target: real, k: nat)
    requires Reaches(m, target, k)
    ensures exists i :: FirstReaching(m, target, i)
    decreases k
  {
    if j :| 0 <= j < k && Reaches(m, target, j) {
      FirstReachingExists(m, target, j);
    } else {
      assert FirstReaching(m, target, k);
    }
  }

  /** With a positive target the sampled pixel has a positive difference: a
      pixel that already matches the reference is never picked. */
  lemma SampledPixelDiffers(m: seq<int>, target: real, i: nat)
    requires FirstReaching(m, target, i) && target > 0.0
    ensures m[i] > 0
  {
    PrefixStep(m, i);
    if i > 0 {
      assert !Reaches(m, target, i - 1);
    } else {
      assert m[..0] == [];
    }
  }

  /** A target no larger than a positive total is reached, so sampling finds
      a pixel. */
  lemma SamplingFindsPixel(m: seq<int>, target: real)
    requires Sum(m) > 0 && target <= Sum(m) as real
    ensures exists i :: FirstReaching(m, target, i)
  {
    assert m[..|m|] == m;
    assert |m| > 0;
    FirstReachingExists(m, target, |m| - 1);
  }

  // ---------------------------------------------------------------------------
  // Refinement step

  /** The finite-difference gradients of the cost with respect to every
      parameter of the stroke. */
  datatype Gradients = Gradients(
    p0x: real, p0y: real, p1x: real, p1y: real, p2x: real, p2y: real,
    r0: real, r1: real, r2: real, r: real, g: real, b: real, alpha: real)

  const LearningRate: real := 0.00000005
  const RadiusLearningRate: real := 0.0000005
  const ColorLearningRate: real := 0.000002
  const AlphaLearningRate: real := 0.000005
  const Epsilon: real := 1.0
  const MaxOptimizationSteps: nat := 1000
  const ConvergenceThresholdFactor: real := 30.0

  /** The mean of the three radii. */
  function AverageRadius(s: Stroke): real {
    (s.p0.radius + s.p1.radius + s.p2.radius) / 3.0
  }

  /** The padding around the control points: the largest radius, the
      finite-difference step and two more pixels. */
  function Margin(s: Stroke): real {
    Max3(s.p0.radius, s.p1.radius, s.p2.radius) + Epsilon + 2.0
  }

  function MinX(s: Stroke): real { Min3(s.p0.x, s.p1.x, s.p2.x) - Margin(s) }
  function MinY(s: Stroke): real { Min3(s.p0.y, s.p1.y, s.p2.y) - Margin(s) }
  function MaxX(s: Stroke): real { Max3(s.p0.x, s.p1.x, s.p2.x) + Margin(s) }
  function MaxY(s: Stroke): real { Max3(s.p0.y, s.p1.y, s.p2.y) + Margin(s) }

  /** The bounding box of a refinement step: the padded extent of the control
      points, floored and ceiled to pixels and clipped to the canvas. It lies
      inside the canvas and reaches the padded extent except where the canvas
      edge cuts it. */
  function RefinementBox(s: Stroke, width: nat, height: nat): (b: Box)
    ensures b.x + b.w <= width && b.y + b.h <= height
    ensures b.x == 0 || b.x as real <= MinX(s)
    ensures b.y == 0 || b.y as real <= MinY(s)
    ensures b.x + b.w == width || (b.x + b.w) as real >= MaxX(s)
    ensures b.y + b.h == height || (b.y + b.h) as real >= MaxY(s)
  {
    var x := ClipStart(MinX(s), width);
    var y := ClipStart(MinY(s), height);
    Box(x, y, ClipLength(MaxX(s) - x as real, width - x), ClipLength(MaxY(s) - y as real, height - y))
  }

  /** `Math.floor(clamp(v, 0, limit))`. */
  function ClipStart(v: real, limit: nat): (r: nat)
    ensures r <= limit
    ensures r == 0 || r as real <= v
  {
    Floor(Clamp(v, 0.0, limit as real))
  }

  /** `Math.ceil(clamp(v, 0, limit))` for a whole `limit`. */
  function ClipLength(v: real, limit: nat): (r: nat)
    ensures r <= limit
    ensures r == limit || r as real >= v
  {
    Ceil(Clamp(v, 0.0, limit as real))
  }

  /** One gradient step on every parameter, the learning rate for positions
      scaled by the average radius over the opacity, followed by clamping the
      radii, channels and opacity (positions are not clamped). */
  function DescentStep(s: Stroke, g: Gradients, cfg: Config): (r: Stroke)
    requires s.alpha != 0.0
    ensures ValidConfig(cfg) ==> InRanges(r, cfg)
  {
    var posRate := LearningRate * AverageRadius(s) / s.alpha;
    var rlo, rhi := cfg.brushRadiusRange.lo, cfg.brushRadiusRange.hi;
    Stroke(Point(s.p0.x - g.p0x * posRate, s.p0.y - g.p0y * posRate,
                 Clamp(s.p0.radius - g.r0 * RadiusLearningRate, rlo, rhi)),
           Point(s.p1.x - g.p1x * posRate, s.p1.y - g.p1y * posRate,
                 Clamp(s.p1.radius - g.r1 * RadiusLearningRate, rlo, rhi)),
           Point(s.p2.x - g.p2x * posRate, s.p2.y - g.p2y * posRate,
                 Clamp(s.p2.radius - g.r2 * RadiusLearningRate, rlo, rhi)),
           Color(Clamp(s.color.r - g.r * ColorLearningRate, 0.0, 255.0),
                 Clamp(s.color.g - g.g * ColorLearningRate, 0.0, 255.0),
                 Clamp(s.color.b - g.b * ColorLearningRate, 0.0, 255.0)),
           Clamp(s.alpha - g.alpha * AlphaLearningRate, cfg.alphaRange.lo, cfg.alphaRange.hi))
  }

  /** With zero gradients a stroke already in range is a fixed point of the
      step. */
  lemma ZeroGradientIsFixedPoint(s: Stroke, cfg: Config)
    requires ValidConfig(cfg) && InRanges(s, cfg)
    ensures DescentStep(s, Gradients(0.0, 0.0, 0.0, 0.0, 0.0, 0.0, 0.0, 0.0, 0.0, 0.0, 0.0, 0.0, 0.0), cfg) == s
  {
  }

  /** The step moves every parameter against its gradient: a positive
      gradient never raises it and a negative one never lowers it. Positions
      move by the gradient times a positive rate; radii, channels and the
      opacity are clamped back into range after their step. */
  lemma StepFollowsGradient(s: Stroke, g: Gradients, cfg: Config, k: nat)
    requires ValidConfig(cfg) && InRanges(s, cfg) && k < 13
    ensures Component(g, k) >= 0.0 ==> Parameter(DescentStep(s, g, cfg), k) <= Parameter(s, k)
    ensures Component(g, k) <= 0.0 ==> Parameter(DescentStep(s, g, cfg), k) >= Parameter(s, k)
  {
    if k < 6 {
      PositionFollowsGradient(s, g, cfg, k);
    } else {
      ClampedFollowsGradient(s, g, cfg, k);
    }
  }

  /** `StepFollowsGradient` for the six position coordinates. */
  lemma PositionFollowsGradient(s: Stroke, g: Gradients, cfg: Config, k: nat)
    requires ValidConfig(cfg) && InRanges(s, cfg) && k < 6
    ensures Component(g, k) >= 0.0 ==> Parameter(DescentStep(s, g, cfg), k) <= Parameter(s, k)
    ensures Component(g, k) <= 0.0 ==> Parameter(DescentStep(s, g, cfg), k) >= Parameter(s, k)
  {
    var posRate := LearningRate * AverageRadius(s) / s.alpha;
    PositionRatePositive(s, cfg);
    if k == 0 {
      MoveAgainst(s.p0.x, g.p0x, posRate);
    } else if k == 1 {
      MoveAgainst(s.p0.y, g.p0y, posRate);
    } else if k == 2 {
      MoveAgainst(s.p1.x, g.p1x, posRate);
    } else if k == 3 {
      MoveAgainst(s.p1.y, g.p1y, posRate);
    } else if k == 4 {
      MoveAgainst(s.p2.x, g.p2x, posRate);
    } else {
      MoveAgainst(s.p2.y, g.p2y, posRate);
    }
  }

  /** `StepFollowsGradient` for the radii, the channels and the opacity. */
  lemma ClampedFollowsGradient(s: Stroke, g: Gradients, cfg: Config, k: nat)
    requires ValidConfig(cfg) && InRanges(s, cfg) && 6 <= k < 13
    ensures Component(g, k) >= 0.0 ==> Parameter(DescentStep(s, g, cfg), k) <= Parameter(s, k)
    ensures Component(g, k) <= 0.0 ==> Parameter(DescentStep(s, g, cfg), k) >= Parameter(s, k)
  {
    var rlo, rhi := cfg.brushRadiusRange.lo, cfg.brushRadiusRange.hi;
    if k == 6 {
      ClampAgainst(s.p0.radius, g.r0, RadiusLearningRate, rlo, rhi);
    } else if k == 7 {
      ClampAgainst(s.p1.radius, g.r1, RadiusLearningRate, rlo, rhi);
    } else if k == 8 {
      ClampAgainst(s.p2.radius, g.r2, RadiusLearningRate, rlo, rhi);
    } else if k == 9 {
      ClampAgainst(s.color.r, g.r, ColorLearningRate, 0.0, 255.0);
    } else if k == 10 {
      ClampAgainst(s.color.g, g.g, ColorLearningRate, 0.0, 255.0);
    } else if k == 11 {
      ClampAgainst(s.color.b, g.b, ColorLearningRate, 0.0, 255.0);
    } else {
      ClampAgainst(s.alpha, g.alpha, AlphaLearningRate, cfg.alphaRange.lo, cfg.alphaRange.hi);
    }
  }

  /** The position learning rate of an in-range stroke is positive. */
  lemma PositionRatePositive(s: Stroke, cfg: Config)
    requires ValidConfig(cfg) && InRanges(s, cfg)
    ensures LearningRate * AverageRadius(s) / s.alpha > 0.0
  {
    assert AverageRadius(s) > 0.0;
    assert LearningRate * AverageRadius(s) > 0.0;
  }

  /** An unclamped step against a gradient with a positive rate. */
  lemma MoveAgainst(v: real, g: real, rate: real)
    requires rate > 0.0
    ensures g >= 0.0 ==> v - g * rate <= v
    ensures g <= 0.0 ==> v - g * rate >= v
  {
    if g >= 0.0 {
      assert g * rate >= 0.0;
    }
    if g <= 0.0 {
      assert g * rate <= 0.0;
    }
  }

  /** Stepping an in-range value against a gradient with a positive rate and
      clamping back moves it the opposite way to the gradient. */
  lemma ClampAgainst(v: real, g: real, rate: real, lo: real, hi: real)
    requires lo <= v <= hi && rate > 0.0
    ensures g >= 0.0 ==> Clamp(v - g * rate, lo, hi) <= v
    ensures g <= 0.0 ==> Clamp(v - g * rate, lo, hi) >= v
  {
    if g >= 0.0 {
      assert g * rate >= 0.0;
      ClampMonotone(v - g * rate, v, lo, hi);
    }
    if g <= 0.0 {
      assert g * rate <= 0.0;
      ClampMonotone(v, v - g * rate, lo, hi);
    }
  }

  /** The convergence test: the step budget is spent, or the cost change is
      below 30 per unit of average radius after more than two steps. */
  function ShouldFinalize(steps: nat, costChange: real, avgRadius: real): (done: bool)
    ensures steps >= MaxOptimizationSteps ==> done
    ensures steps <= 2 && steps < MaxOptimizationSteps ==> !done
  {
    steps >= MaxOptimizationSteps || (Abs(costChange) < avgRadius * ConvergenceThresholdFactor && steps > 2)
  }

  /** A large cost change keeps the refinement going until the budget is
      spent, and a negligible one ends it as soon as three steps are done. */
  lemma ConvergenceThreshold(steps: nat, costChange: real, avgRadius: real)
    ensures Abs(costChange) >= avgRadius * ConvergenceThresholdFactor && steps < MaxOptimizationSteps
            ==> !ShouldFinalize(steps, costChange, avgRadius)
    ensures costChange == 0.0 && avgRadius > 0.0 && steps > 2 ==> ShouldFinalize(steps, costChange, avgRadius)
  {
  }

  // ---------------------------------------------------------------------------
  // Finite differences

  const AlphaEpsilon: real := 0.01

  /** Parameter `k` of a stroke, in the order p0.x, p0.y, p1.x, p1.y, p2.x,
      p2.y, r0, r1, r2, r, g, b, alpha. */
  function Parameter(s: Stroke, k: nat): real
    requires k < 13
  {
    match k
    case 0 => s.p0.x
    case 1 => s.p0.y
    case 2 => s.p1.x
    case 3 => s.p1.y
    case 4 => s.p2.x
    case 5 => s.p2.y
    case 6 => s.p0.radius
    case 7 => s.p1.radius
    case 8 => s.p2.radius
    case 9 => s.color.r
    case 10 => s.color.g
    case 11 => s.color.b
    case _ => s.alpha
  }

  /** Component `k` of the gradients, in the order of `Parameter`. */
  function Component(g: Gradients, k: nat): real
    requires k < 13
  {
    match k
    case 0 => g.p0x
    case 1 => g.p0y
    case 2 => g.p1x
    case 3 => g.p1y
    case 4 => g.p2x
    case 5 => g.p2y
    case 6 => g.r0
    case 7 => g.r1
    case 8 => g.r2
    case 9 => g.r
    case 10 => g.g
    case 11 => g.b
    case _ => g.alpha
  }

  /** The finite-difference step of parameter `k`: a quarter of the point's
      radius for a position, 1 for a radius or a channel, 0.01 for the
      opacity. */
  function ProbeStep(s: Stroke, k: nat): (h: real)
    requires k < 13
    ensures s.p0.radius > 0.0 && s.p1.radius > 0.0 && s.p2.radius > 0.0 ==> h > 0.0
    ensures 6 <= k < 12 ==> h == Epsilon
  {
    if k < 2 then Epsilon * s.p0.radius * 0.25
    else if k < 4 then Epsilon * s.p1.radius * 0.25
    else if k < 6 then Epsilon * s.p2.radius * 0.25
    else if k < 12 then Epsilon
    else AlphaEpsilon
  }

  /** The stroke `evaluate` costs for parameter `k`: that parameter raised by
      its step, every other parameter as it was. */
  function Probe(s: Stroke, k: nat): (t: Stroke)
    requires k < 13
    ensures Parameter(t, k) == Parameter(s, k) + ProbeStep(s, k)
    ensures forall j :: 0 <= j < 13 && j != k ==> Parameter(t, j) == Parameter(s, j)
  {
    var h := ProbeStep(s, k);
    match k
    case 0 => s.(p0 := s.p0.(x := s.p0.x + h))
    case 1 => s.(p0 := s.p0.(y := s.p0.y + h))
    case 2 => s.(p1 := s.p1.(x := s.p1.x + h))
    case 3 => s.(p1 := s.p1.(y := s.p1.y + h))
    case 4 => s.(p2 := s.p2.(x := s.p2.x + h))
    case 5 => s.(p2 := s.p2.(y := s.p2.y + h))
    case 6 => s.(p0 := s.p0.(radius := s.p0.radius + h))
    case 7 => s.(p1 := s.p1.(radius := s.p1.radius + h))
    case 8 => s.(p2 := s.p2.(radius := s.p2.radius + h))
    case 9 => s.(color := s.color.(r := s.color.r + h))
    case 10 => s.(color := s.color.(g := s.color.g + h))
    case 11 => s.(color := s.color.(b := s.color.b + h))
    case _ => s.(alpha := s.alpha + h)
  }

  /** `evaluate`'s clamp of the three radii into the brush range; positions,
      colour and opacity are left alone, and a stroke already in range is
      unchanged. */
  function ClampRadii(s: Stroke, cfg: Config): (r: Stroke)
    ensures forall k :: 0 <= k < 13 && !(6 <= k < 9) ==> Parameter(r, k) == Parameter(s, k)
    ensures ValidConfig(cfg) ==> InRange(r.p0.radius, cfg.brushRadiusRange)
                                 && InRange(r.p1.radius, cfg.brushRadiusRange)
                                 && InRange(r.p2.radius, cfg.brushRadiusRange)
    ensures InRanges(s, cfg) ==> r == s
  {
    var lo, hi := cfg.brushRadiusRange.lo, cfg.brushRadiusRange.hi;
    s.(p0 := s.p0.(radius := Clamp(s.p0.radius, lo, hi)),
       p1 := s.p1.(radius := Clamp(s.p1.radius, lo, hi)),
       p2 := s.p2.(radius := Clamp(s.p2.radius, lo, hi)))
  }

  /** The gradients `optimizeStroke` estimates from the thirteen probe costs:
      each probe's cost above the base cost, over the probe's step. */
  function EstimatedGradients(s: Stroke, base: int, costs: seq<int>): (g: Gradients)
    requires |costs| == 13
    requires s.p0.radius > 0.0 && s.p1.radius > 0.0 && s.p2.radius > 0.0
    ensures forall k :: 0 <= k < 13 ==> Component(g, k) == (costs[k] - base) as real / ProbeStep(s, k)
  {
    Gradients(
      (costs[0] - base) as real / ProbeStep(s, 0), (costs[1] - base) as real / ProbeStep(s, 1),
      (costs[2] - base) as real / ProbeStep(s, 2), (costs[3] - base) as real / ProbeStep(s, 3),
      (costs[4] - base) as real / ProbeStep(s, 4), (costs[5] - base) as real / ProbeStep(s, 5),
      (costs[6] - base) as real / ProbeStep(s, 6), (costs[7] - base) as real / ProbeStep(s, 7),
      (costs[8] - base) as real / ProbeStep(s, 8), (costs[9] - base) as real / ProbeStep(s, 9),
      (costs[10] - base) as real / ProbeStep(s, 10), (costs[11] - base) as real / ProbeStep(s, 11),
      (costs[12] - base) as real / ProbeStep(s, 12))
  }

  /** A probe that costs no more than the base gives a gradient component
      that is not positive, so the step does not move that parameter down. */
  lemma CheaperProbePointsUphill(s: Stroke, base: int, costs: seq<int>, k: nat)
    requires |costs| == 13 && k < 13
    requires s.p0.radius > 0.0 && s.p1.radius > 0.0 && s.p2.radius > 0.0
    ensures costs[k] <= base ==> Component(EstimatedGradients(s, base, costs), k) <= 0.0
    ensures costs[k] >= base ==> Component(EstimatedGradients(s, base, costs), k) >= 0.0
  {
    var h := ProbeStep(s, k);
    assert h > 0.0;
    if costs[k] <= base {
      NonPositiveQuotient((costs[k] - base) as real, h);
    }
    if costs[k] >= base {
      NonNegativeQuotient((costs[k] - base) as real, h);
    }
  }

  lemma NonPositiveQuotient(a: real, h: real)
    requires a <= 0.0 && h > 0.0
    ensures a / h <= 0.0
  {
  }

  lemma NonNegativeQuotient(a: real, h: real)
    requires a >= 0.0 && h > 0.0
    ensures a / h >= 0.0
  {
  }

  // ---------------------------------------------------------------------------
  // Canvas pixels

  /** Canvas and image pixels: RGBA bytes, row by row. */
  type Image = seq<Byte>

  /** What `stroke.draw` hands the canvas: the fill colour, the opacity and
      the fill commands in order. */
  datatype Paint = Paint(color: Color, alpha: real, fills: seq<Fill>)

  /** The canvas rasteriser: composites a paint onto an image of the same
      size. */
  type Raster = f: (Image, Paint) -> Image | forall c, p :: |f(c, p)| == |c| witness (c: Image, p: Paint) => c

  /** The number of pixels of the canvas. */
  function Pixels(cfg: Config): nat {
    cfg.width * cfg.height
  }

  /** The number of bytes of the canvas. */
  function ImageSize(cfg: Config): nat {
    4 * Pixels(cfg)
  }

  /** The box lies inside the canvas. */
  predicate BoxOnCanvas(b: Box, cfg: Config) {
    b.x + b.w <= cfg.width && b.y + b.h <= cfg.height
  }

  /** The whole canvas as a box. */
  function FullBox(cfg: Config): (b: Box)
    ensures BoxOnCanvas(b, cfg)
  {
    Box(0, 0, cfg.width, cfg.height)
  }

  /** A box on the canvas lies inside any canvas-sized image. */
  lemma BoxFits(image: Image, b: Box, cfg: Config)
    requires BoxOnCanvas(b, cfg) && |image| == ImageSize(cfg)
    ensures BoxInside(image, b, cfg.width)
  {
    MulMono(b.y + b.h, cfg.height, cfg.width);
    assert cfg.height * cfg.width == cfg.width * cfg.height;
  }

  /** Row `row` of the box, as bytes of the image, lies inside the image. */
  lemma RowInside(image: Image, width: nat, box: Box, row: nat)
    requires BoxInside(image, box, width) && row < box.h && box.w > 0
    ensures GlobalIndex(box, width, 0, row) + box.w * 4 <= |image|
  {
    RowMajorBound(box.y + row, box.y + box.h, box.x + box.w - 1, width);
  }

  /** `getImageData(box)`: the first `rows` rows of the box, each row the
      `4 * box.w` bytes starting at the row's first pixel. */
  function Crop(image: Image, width: nat, box: Box, rows: nat): (patch: Image)
    requires BoxInside(image, box, width) && rows <= box.h
    ensures |patch| == box.w * rows * 4
  {
    if rows == 0 then []
    else if box.w == 0 then
      MulZero(rows);
      []
    else
      var start := GlobalIndex(box, width, 0, rows - 1);
      RowInside(image, width, box, rows - 1);
      MulPred(box.w, rows);
      Crop(image, width, box, rows - 1) + image[start .. start + box.w * 4]
  }

  lemma MulZero(rows: nat)
    ensures 0 * rows * 4 == 0
  {
  }

  lemma MulPred(w: nat, rows: nat)
    requires rows > 0
    ensures w * (rows - 1) * 4 + w * 4 == w * rows * 4
  {
  }

  /** Pixel (x, y) of a cropped box holds the image's pixel (box.x + x,
      box.y + y), channel by channel. */
  lemma {:induction false} CropPixel(image: Image, width: nat, box: Box, rows: nat, x: nat, y: nat, c: nat)
    requires BoxInside(image, box, width) && rows <= box.h
    requires x < box.w && y < rows && c < 4
    ensures LocalIndex(box, x, y) + c < |Crop(image, width, box, rows)|
    ensures GlobalIndex(box, width, x, y) + c < |image|
    ensures Crop(image, width, box, rows)[LocalIndex(box, x, y) + c] == image[GlobalIndex(box, width, x, y) + c]
  {
    LocalBelow(x, y, box.w, rows);
    GlobalBelow(image, width, box, x, y);
    RowInside(image, width, box, rows - 1);
    MulPred(box.w, rows);
    if y == rows - 1 {
      LastRowOffset(x, y, box.w);
    } else {
      LocalBelow(x, y, box.w, rows - 1);
      CropPixel(image, width, box, rows - 1, x, y, c);
    }
  }

  /** Pixel (x, y) of a box `w` wide lies in its first `rows` rows. */
  lemma LocalBelow(x: nat, y: nat, w: nat, rows: nat)
    requires x < w && y < rows
    ensures (y * w + x) * 4 + 3 < w * rows * 4
  {
    RowMajorBound(y, rows, x, w);
    assert rows * w == w * rows;
  }

  /** Pixel (x, y) of a box inside the image lies inside the image. */
  lemma GlobalBelow(image: Image, width: nat, box: Box, x: nat, y: nat)
    requires BoxInside(image, box, width) && x < box.w && y < box.h
    ensures GlobalIndex(box, width, x, y) + 3 < |image|
  {
    RowMajorBound(box.y + y, box.y + box.h, box.x + x, width);
  }

  /** Within row `y`, pixel x sits 4x bytes after the row's start. */
  lemma LastRowOffset(x: nat, y: nat, w: nat)
    ensures (y * w + x) * 4 == w * y * 4 + 4 * x
  {
  }

  /** The patch cost of the box on `image` against the reference: the cost
      `calculateCostWithStroke` measures once the stroke is on the canvas. */
  function BoxCost(reference: Image, image: Image, box: Box, cfg: Config): int
    requires |reference| == ImageSize(cfg) && |image| == ImageSize(cfg) && BoxOnCanvas(box, cfg)
  {
    BoxFits(reference, box, cfg);
    BoxFits(image, box, cfg);
    var patch := Crop(image, cfg.width, box, box.h);
    assert box.w * box.h * 4 == |patch|;
    PatchCost(reference, patch, box, cfg.width, SrgbCartesianSq, box.h)
  }

  /** Cropping the first `rows` rows of the whole canvas reads the image's
      first `rows` rows unchanged. */
  lemma {:induction false} CropFullBox(image: Image, cfg: Config, rows: nat)
    requires |image| == ImageSize(cfg) && rows <= cfg.height
    ensures BoxInside(image, FullBox(cfg), cfg.width)
    ensures cfg.width * rows * 4 <= |image|
    ensures Crop(image, cfg.width, FullBox(cfg), rows) == image[..cfg.width * rows * 4]
  {
    BoxFits(image, FullBox(cfg), cfg);
    MulMono(rows, cfg.height, cfg.width);
    if rows > 0 && cfg.width > 0 {
      CropFullBox(image, cfg, rows - 1);
      var start := GlobalIndex(FullBox(cfg), cfg.width, 0, rows - 1);
      assert start == cfg.width * (rows - 1) * 4;
      MulPred(cfg.width, rows);
      assert image[..start] + image[start .. start + cfg.width * 4] == image[..start + cfg.width * 4];
    }
  }

  /** The cost of the whole canvas is the total of its difference map: the
      full box visits every pixel once, in the map's order. */
  lemma FullBoxCostIsTotalDifference(reference: Image, image: Image, cfg: Config)
    requires |reference| == ImageSize(cfg) && |image| == ImageSize(cfg)
    ensures BoxCost(reference, image, FullBox(cfg), cfg)
            == Sum(DifferenceMap(reference, image, Pixels(cfg), SrgbCartesianSq))
  {
    var box := FullBox(cfg);
    BoxFits(reference, box, cfg);
    CropFullBox(image, cfg, cfg.height);
    assert Crop(image, cfg.width, box, box.h) == image;
    OriginBoxCostIsMapSum(reference, image, box, SrgbCartesianSq);
  }

  /** A prefix one element longer is the prefix and that element. */
  lemma TakeOneMore<T>(s: seq<T>, i: nat)
    requires i < |s|
    ensures s[..i + 1] == s[..i] + [s[i]]
  {
  }

  /** The target of linear index `i` on a canvas `width` pixels wide. */
  function TargetOf(i: nat, width: nat): (t: Target)
    requires width > 0
    ensures t.index == i && t.x < width && t.y * width + t.x == i
  {
    Target(i % width, i / width, i)
  }

  /** The inverse-CDF search from index `i` on: the first index whose
      running total reaches `target`, if any. */
  function Search(m: seq<int>, target: real, i: nat): (r: Option<nat>)
    requires i <= |m|
    ensures r.Some? ==> i <= r.value < |m|
    decreases |m| - i
  {
    if i == |m| then None
    else if Prefix(m, i + 1) as real >= target then Some(i)
    else Search(m, target, i + 1)
  }

  /** When no earlier index reaches the target, the search finds exactly the
      first reaching index, or reports that none reaches it. */
  lemma {:induction false} SearchFindsFirst(m: seq<int>, target: real, i: nat)
    requires i <= |m|
    requires forall j :: 0 <= j < i ==> !Reaches(m, target, j)
    ensures Search(m, target, i).Some? ==> FirstReaching(m, target, Search(m, target, i).value)
    ensures Search(m, target, i).None? ==> forall j :: 0 <= j < |m| ==> !Reaches(m, target, j)
    decreases |m| - i
  {
    if i < |m| && Prefix(m, i + 1) as real < target {
      SearchFindsFirst(m, target, i + 1);
    }
  }

  /** `pickTargetPixel` as a function of the difference map, its total and
      the draw `u`: nothing when the total is not positive, otherwise the
      first pixel whose running total reaches `u * total`. */
  function PickTarget(m: seq<int>, total: int, u: real, width: nat): (t: Option<Target>)
    requires width > 0 || |m| == 0
  {
    if total <= 0 then None
    else
      var i := Search(m, u * total as real, 0);
      if i.None? then None else Some(TargetOf(i.value, width))
  }

  /** `pickTargetPixel` on a non-negative map: with a positive total it
      finds a pixel of the canvas, the first whose running total reaches
      `u * total`, and with `u > 0` that pixel differs from the reference;
      with no difference left it finds nothing. */
  lemma PickTargetFindsDifferingPixel(m: seq<int>, u: real, width: nat, target: real)
    requires (width > 0 || |m| == 0) && UnitDraw(u)
    requires forall i :: 0 <= i < |m| ==> m[i] >= 0
    requires target == u * Sum(m) as real
    ensures Sum(m) <= 0 ==> PickTarget(m, Sum(m), u, width).None?
    ensures Sum(m) > 0 ==> var t := PickTarget(m, Sum(m), u, width);
                          && t.Some? && t.value.index < |m| && t.value.x < width
                          && FirstReaching(m, target, t.value.index)
                          && (u > 0.0 ==> m[t.value.index] > 0)
  {
    var total := Sum(m);
    if total > 0 {
      assert target <= total as real && (u > 0.0 ==> target > 0.0) by {
        ScaleByDraw(u, total as real);
      }
      PickTargetReaches(m, total, u, width, target);
    }
  }

  /** `PickTarget` with a positive total and a target within it: the first
      pixel reaching the target, which differs from the reference when the
      target is positive. */
  lemma PickTargetReaches(m: seq<int>, total: int, u: real, width: nat, target: real)
    requires (width > 0 || |m| == 0) && forall i :: 0 <= i < |m| ==> m[i] >= 0
    requires total == Sum(m) && total > 0 && target == u * total as real && target <= total as real
    ensures var t := PickTarget(m, total, u, width);
            && t.Some? && t.value.index < |m| && t.value.x < width
            && FirstReaching(m, target, t.value.index)
            && (target > 0.0 ==> m[t.value.index] > 0)
  {
    SearchReachesTarget(m, target);
    var i := Search(m, target, 0).value;
    PickTargetAt(m, total, u, width, target, i);
    if target > 0.0 {
      SampledPixelDiffers(m, target, i);
    }
  }

  /** The search finds the first pixel reaching a target no larger than a
      positive total. */
  lemma SearchReachesTarget(m: seq<int>, target: real)
    requires Sum(m) > 0 && target <= Sum(m) as real
    ensures Search(m, target, 0).Some? && FirstReaching(m, target, Search(m, target, 0).value)
  {
    SamplingFindsPixel(m, target);
    SearchFindsFirst(m, target, 0);
  }

  lemma PickTargetAt(m: seq<int>, total: int, u: real, width: nat, target: real, i: nat)
    requires target == u * total as real
    requires total > 0 && width > 0 && Search(m, target, 0) == Some(i)
    ensures PickTarget(m, total, u, width) == Some(TargetOf(i, width))
  {
  }

  lemma PickTargetNone(m: seq<int>, total: int, u: real, width: nat, target: real)
    requires width > 0 || |m| == 0
    requires target == u * total as real
    requires total > 0 && Search(m, target, 0) == None
    ensures PickTarget(m, total, u, width) == None
  {
  }

  lemma PositiveWidth(width: nat, height: nat)
    requires width * height > 0
    ensures width > 0
  {
  }

  /** The reference colour of pixel `index`: its red, green and blue bytes. */
  function ReferenceColor(reference: Image, index: nat): (c: Color)
    requires 4 * index + 2 < |reference|
    ensures 0.0 <= c.r <= 255.0 && 0.0 <= c.g <= 255.0 && 0.0 <= c.b <= 255.0
  {
    Color(reference[4 * index] as real, reference[4 * index + 1] as real, reference[4 * index + 2] as real)
  }

  /** The background with the stroke's fills composited onto it in the
      stroke's colour and opacity. */
  function Painted(raster: Raster, sqrt: real -> real, background: Image, s: Stroke): (image: Image)
    ensures |image| == |background|
  {
    raster(background, Paint(s.color, s.alpha, StrokeFills(s, sqrt)))
  }

  /** A blank canvas of `n` bytes: opaque white. */
  function White(n: nat): (image: Image)
    ensures |image| == n && forall i :: 0 <= i < n ==> image[i] == 255
  {
    seq(n, _ => 255)
  }

  const NCandidates: nat := 100

  /** The fields of an optimiser session other than the canvas. */
  datatype Session = Session(
    currentData: Image, totalDifference: int, nIteration: nat, running: bool,
    currentStroke: Option<Stroke>, lastSuccessfulStroke: Option<Stroke>,
    backgroundData: Option<Image>, lastCost: int, optimizationSteps: nat)

  /** The next stroke of a refinement step and the change of the box cost it
      brings (base cost minus new cost). */
  datatype Refinement = Refinement(next: Stroke, costChange: int)

  /** The 2D context the optimizer paints on, reduced to its RGBA pixels. */
  class Canvas {
    var pixels: Image

    constructor(pixels: Image)
      ensures this.pixels == pixels
    {
      this.pixels := pixels;
    }
  }

  /** `BrushOptimizer`: the context it paints on, the current image and its
      difference map, and the stroke under refinement with the image it is
      painted on. */
  class BrushOptimizer {
    const cfg: Config
    const ctx: Canvas
    const reference: Image
    const raster: Raster
    const sqrt: real -> real
    const differenceMap: array<int>

    var currentData: Image
    var totalDifference: int
    var nIteration: nat
    var running: bool
    var currentStroke: Option<Stroke>
    var lastSuccessfulStroke: Option<Stroke>
    var backgroundData: Option<Image>
    var lastCost: int
    var optimizationSteps: nat

    /** The configuration is valid and the reference and the difference map
        have its sizes; none of these ever changes. */
    ghost predicate Configured() {
      ValidConfig(cfg) && |reference| == ImageSize(cfg) && differenceMap.Length == Pixels(cfg)
    }

    /** Sizes agree with the configuration, and a stroke under refinement has
        a background and parameters in range. */
    ghost predicate Shaped()
      reads this`currentData, this`backgroundData, this`currentStroke
    {
      Configured() && |currentData| == ImageSize(cfg)
      && (backgroundData.Some? ==> |backgroundData.value| == ImageSize(cfg))
      && (currentStroke.Some? ==> backgroundData.Some? && InRanges(currentStroke.value, cfg))
    }

    /** The difference map and its total describe the current image. */
    ghost predicate Mapped()
      reads this`currentData, this`totalDifference, differenceMap
    {
      |reference| == ImageSize(cfg) && |currentData| == ImageSize(cfg) && differenceMap.Length == Pixels(cfg)
      && differenceMap[..] == DifferenceMap(reference, currentData, Pixels(cfg), SrgbCartesianSq)
      && totalDifference == Sum(differenceMap[..])
    }

    /** The session invariant: sizes agree, the difference map is current,
        and a stroke under refinement has taken fewer than
        `MaxOptimizationSteps` steps. */
    ghost predicate Valid()
      reads this, differenceMap
    {
      Shaped() && Mapped() && (currentStroke.Some? ==> optimizationSteps < MaxOptimizationSteps)
    }

    /** The canvas holds a whole image. */
    ghost predicate Sized()
      reads ctx
    {
      |ctx.pixels| == ImageSize(cfg)
    }

    ghost function State(): Session
      reads this
    {
      Session(currentData, totalDifference, nIteration, running, currentStroke,
              lastSuccessfulStroke, backgroundData, lastCost, optimizationSteps)
    }

    /** The full-canvas cost of painting `s` on `background`. */
    function CandidateCost(background: Image, s: Stroke): int
      requires |background| == ImageSize(cfg) && |reference| == ImageSize(cfg)
    {
      BoxCost(reference, Painted(raster, sqrt, background, s), FullBox(cfg), cfg)
    }

    /** A candidate's cost is the total difference the canvas would have
        with the candidate committed, so `lastCost` and `totalDifference`
        measure the same thing. */
    lemma CandidateCostIsTotalDifference(background: Image, s: Stroke)
      requires |background| == ImageSize(cfg) && |reference| == ImageSize(cfg)
      ensures CandidateCost(background, s)
              == Sum(DifferenceMap(reference, Painted(raster, sqrt, background, s), Pixels(cfg), SrgbCartesianSq))
    {
      FullBoxCostIsTotalDifference(reference, Painted(raster, sqrt, background, s), cfg);
    }

    /** On the commit path of `finalizeStroke` the new total difference is
        the full-canvas cost of the committed stroke; so the total does not
        grow whenever `lastCost` is that cost exactly. */
    lemma CommitImprovesWhenEstimateExact(st: Session, image: Image)
      requires |reference| == ImageSize(cfg)
      requires st.backgroundData.Some? && |st.backgroundData.value| == ImageSize(cfg) && st.currentStroke.Some?
      requires st.lastCost <= st.totalDifference
      ensures Finalized(st, image).0.totalDifference
              == CandidateCost(st.backgroundData.value, st.currentStroke.value)
      ensures st.lastCost == CandidateCost(st.backgroundData.value, st.currentStroke.value)
              ==> Finalized(st, image).0.totalDifference <= st.totalDifference
    {
      CandidateCostIsTotalDifference(st.backgroundData.value, st.currentStroke.value);
    }

    /** The cost `evaluate` measures for probe `k` of `s` in `box`. */
    function ProbeCost(background: Image, box: Box, s: Stroke, k: nat): int
      requires |background| == ImageSize(cfg) && |reference| == ImageSize(cfg)
      requires BoxOnCanvas(box, cfg) && k < 13
    {
      BoxCost(reference, Painted(raster, sqrt, background, ClampRadii(Probe(s, k), cfg)), box, cfg)
    }

    /** The costs of the first `k` probes of `s` in `box`, in order; all
        thirteen are the costs `optimizeStroke` divides into gradients. */
    function ProbeCosts(background: Image, box: Box, s: Stroke, k: nat): (costs: seq<int>)
      requires |background| == ImageSize(cfg) && |reference| == ImageSize(cfg) && BoxOnCanvas(box, cfg)
      requires k <= 13
      ensures |costs| == k
    {
      if k == 0 then [] else ProbeCosts(background, box, s, k - 1) + [ProbeCost(background, box, s, k - 1)]
    }

    /** One refinement step of `s` painted on `background` within `box`: the
        descent step along the estimated gradients, and the cost change. */
    function Refine(background: Image, box: Box, s: Stroke): Refinement
      requires |background| == ImageSize(cfg) && |reference| == ImageSize(cfg)
      requires BoxOnCanvas(box, cfg) && ValidConfig(cfg) && InRanges(s, cfg)
    {
      var base := BoxCost(reference, Painted(raster, sqrt, background, s), box, cfg);
      var next := DescentStep(s, EstimatedGradients(s, base, ProbeCosts(background, box, s, 13)), cfg);
      Refinement(next, base - BoxCost(reference, Painted(raster, sqrt, background, next), box, cfg))
    }

    /** A refinement step keeps the stroke's parameters in range. */
    lemma RefineInRanges(background: Image, box: Box, s: Stroke)
      requires |background| == ImageSize(cfg) && |reference| == ImageSize(cfg)
      requires BoxOnCanvas(box, cfg) && ValidConfig(cfg) && InRanges(s, cfg)
      ensures InRanges(Refine(background, box, s).next, cfg)
    {
    }

    /** The session and canvas after `finalizeStroke`: nothing to do without a
        stroke; a stroke whose estimated cost exceeds the total difference is
        discarded and the background restored; otherwise it is committed,
        becomes the last successful stroke and the difference map is
        recomputed from the painted canvas. */
    function Finalized(st: Session, image: Image): (Session, Image)
      requires |reference| == ImageSize(cfg)
      requires st.backgroundData.Some? ==> |st.backgroundData.value| == ImageSize(cfg)
    {
      if st.currentStroke.None? || st.backgroundData.None? then (st, image)
      else
        var background := st.backgroundData.value;
        if st.lastCost > st.totalDifference then
          (st.(currentStroke := None, backgroundData := None), background)
        else
          var painted := Painted(raster, sqrt, background, st.currentStroke.value);
          (st.(currentData := painted,
               totalDifference := Sum(DifferenceMap(reference, painted, Pixels(cfg), SrgbCartesianSq)),
               lastSuccessfulStroke := st.currentStroke,
               nIteration := st.nIteration + 1,
               currentStroke := None, backgroundData := None),
           painted)
    }

    /** `Finalized` of a stroke whose estimated cost exceeds the total
        difference: the stroke and background dropped, the background shown. */
    lemma DiscardedOf(st: Session, image: Image)
      requires |reference| == ImageSize(cfg)
      requires st.currentStroke.Some? && st.backgroundData.Some? && |st.backgroundData.value| == ImageSize(cfg)
      requires st.lastCost > st.totalDifference
      ensures Finalized(st, image) == (st.(currentStroke := None, backgroundData := None), st.backgroundData.value)
    {
    }

    /** `Finalized` of a stroke that is kept, for its painted image. */
    lemma CommittedOf(st: Session, image: Image, painted: Image)
      requires |reference| == ImageSize(cfg)
      requires st.currentStroke.Some? && st.backgroundData.Some? && |st.backgroundData.value| == ImageSize(cfg)
      requires st.lastCost <= st.totalDifference
      requires painted == Painted(raster, sqrt, st.backgroundData.value, st.currentStroke.value)
      ensures Finalized(st, image)
              == (st.(currentData := painted,
                      totalDifference := Sum(DifferenceMap(reference, painted, Pixels(cfg), SrgbCartesianSq)),
                      lastSuccessfulStroke := st.currentStroke,
                      nIteration := st.nIteration + 1,
                      currentStroke := None, backgroundData := None),
                  painted)
    {
    }

    /** The session and canvas after one refinement step of the stroke `s`
        under refinement within `box`: the step as `Refine` describes, the
        session cost moved by the box's cost change, the step counted and the
        stepped stroke painted on the background; then `finalizeStroke` once
        the convergence test passes. */
    function StepOutcome(st: Session, s: Stroke, box: Box): (Session, Image)
      requires |reference| == ImageSize(cfg) && ValidConfig(cfg)
      requires st.backgroundData.Some? && |st.backgroundData.value| == ImageSize(cfg)
      requires BoxOnCanvas(box, cfg) && InRanges(s, cfg)
    {
      var background := st.backgroundData.value;
      var step := Refine(background, box, s);
      var stepped := st.(currentStroke := Some(step.next), lastCost := st.lastCost - step.costChange,
                         optimizationSteps := st.optimizationSteps + 1);
      var painted := Painted(raster, sqrt, background, step.next);
      if ShouldFinalize(stepped.optimizationSteps, step.costChange as real, AverageRadius(s))
      then Finalized(stepped, painted) else (stepped, painted)
    }

    /** The session and canvas after `optimizeStroke`: without a stroke, or
        with an empty refinement box, nothing changes; otherwise one step as
        `StepOutcome` describes. */
    function Optimized(st: Session, image: Image): (Session, Image)
      requires |reference| == ImageSize(cfg) && ValidConfig(cfg)
      requires st.backgroundData.Some? ==> |st.backgroundData.value| == ImageSize(cfg)
      requires st.currentStroke.Some? ==> st.backgroundData.Some? && InRanges(st.currentStroke.value, cfg)
    {
      if st.currentStroke.None? || st.backgroundData.None? then (st, image)
      else
        var s := st.currentStroke.value;
        var box := RefinementBox(s, cfg.width, cfg.height);
        if box.w == 0 || box.h == 0 then (st, image) else StepOutcome(st, s, box)
    }

    /** `StepOutcome` spelled out for a given step and its bookkeeping. */
    lemma StepOutcomeOf(st: Session, s: Stroke, box: Box, step: Refinement, stepped: Session, painted: Image)
      requires |reference| == ImageSize(cfg) && ValidConfig(cfg)
      requires st.backgroundData.Some? && |st.backgroundData.value| == ImageSize(cfg)
      requires BoxOnCanvas(box, cfg) && InRanges(s, cfg)
      requires step == Refine(st.backgroundData.value, box, s)
      requires stepped == st.(currentStroke := Some(step.next), lastCost := st.lastCost - step.costChange,
                              optimizationSteps := st.optimizationSteps + 1)
      requires painted == Painted(raster, sqrt, st.backgroundData.value, step.next)
      ensures StepOutcome(st, s, box)
              == if ShouldFinalize(stepped.optimizationSteps, step.costChange as real, AverageRadius(s))
                 then Finalized(stepped, painted) else (stepped, painted)
    {
    }

    /** The best-of-100 selection of `startNewStroke` for target `t` on the
        canvas `image`: the first cheapest candidate, its full-canvas cost,
        and the canvas as the last candidate leaves it. */
    function Selection(last: Option<Stroke>, image: Image, t: Target, draws: seq<CandidateDraws>): (Stroke, int, Image)
      requires |reference| == ImageSize(cfg) && |image| == ImageSize(cfg)
      requires 4 * t.index + 2 < |reference| && |draws| == NCandidates
    {
      var cs := Candidates(last, t, draws);
      var best := cs[FirstMinimum(CandidateCosts(image, cs))];
      (best, CandidateCost(image, best), Painted(raster, sqrt, image, cs[NCandidates - 1]))
    }

    /** The selected stroke is one of the candidates, its cost is its own
        full-canvas cost, and no candidate is cheaper. (Among equally cheap
        candidates the first is kept: `FirstMinimum`.) */
    lemma SelectionIsCheapest(last: Option<Stroke>, image: Image, t: Target, draws: seq<CandidateDraws>)
      requires |reference| == ImageSize(cfg) && |image| == ImageSize(cfg)
      requires 4 * t.index + 2 < |reference| && |draws| == NCandidates
      ensures var cs := Candidates(last, t, draws);
              var sel := Selection(last, image, t, draws);
              && sel.0 in cs && sel.1 == CandidateCost(image, sel.0)
              && forall i :: 0 <= i < |cs| ==> sel.1 <= CandidateCost(image, cs[i])
    {
      var cs := Candidates(last, t, draws);
      var costs := CandidateCosts(image, cs);
      var j := FirstMinimum(costs);
      forall i | 0 <= i < |cs|
        ensures costs[i] == CandidateCost(image, cs[i])
      {
        CandidateCostAt(image, cs, i);
      }
    }

    /** The session and canvas after `startNewStroke` picks target `t` on
        the canvas `image`: the image becomes the background, the selected
        candidate the stroke under refinement with its cost as the session
        cost and no steps taken; the context is left showing the last
        candidate. */
    function Started(st: Session, image: Image, t: Target, draws: seq<CandidateDraws>): (Session, Image)
      requires |reference| == ImageSize(cfg) && |image| == ImageSize(cfg)
      requires 4 * t.index + 2 < |reference| && |draws| == NCandidates
    {
      var (best, cost, shown) := Selection(st.lastSuccessfulStroke, image, t, draws);
      (st.(backgroundData := Some(image), currentStroke := Some(best),
           lastCost := cost, optimizationSteps := 0),
       shown)
    }

    /** `Started` spelled out for the selected candidate and its cost. */
    lemma StartedOf(st: Session, image: Image, t: Target, draws: seq<CandidateDraws>,
                    best: Stroke, bestCost: int, shown: Image)
      requires |reference| == ImageSize(cfg) && |image| == ImageSize(cfg)
      requires 4 * t.index + 2 < |reference| && |draws| == NCandidates
      requires (best, bestCost, shown) == Selection(st.lastSuccessfulStroke, image, t, draws)
      ensures Started(st, image, t, draws)
              == (st.(backgroundData := Some(image), currentStroke := Some(best),
                      lastCost := bestCost, optimizationSteps := 0), shown)
    {
    }

    /** The constructor: the options defaulted, the context filled white,
        the current image read back from it and the difference map
        computed. */
    constructor(options: Options, width: nat, height: nat, ctx: Canvas, reference: Image,
                raster: Raster, sqrt: real -> real)
      requires ValidConfig(Resolve(options, width, height))
      requires |reference| == 4 * (width * height)
      modifies ctx
      ensures Valid() && Sized() && fresh(differenceMap)
      ensures cfg == Resolve(options, width, height) && this.ctx == ctx && this.reference == reference
      ensures this.raster == raster && this.sqrt == sqrt
      ensures ctx.pixels == White(ImageSize(cfg)) && currentData == ctx.pixels
      ensures !running && nIteration == 0 && lastCost == 0 && optimizationSteps == 0
      ensures currentStroke.None? && lastSuccessfulStroke.None? && backgroundData.None?
    {
      cfg := Resolve(options, width, height);
      this.ctx := ctx;
      this.reference := reference;
      this.raster := raster;
      this.sqrt := sqrt;
      differenceMap := new int[width * height];
      currentData := White(4 * (width * height));
      totalDifference := 0;
      nIteration := 0;
      running := false;
      currentStroke := None;
      lastSuccessfulStroke := None;
      backgroundData := None;
      lastCost := 0;
      optimizationSteps := 0;
      new;
      ctx.pixels := White(4 * (width * height));
      currentData := ctx.pixels;
      RecomputeDifferenceMap();
    }

    /** `recomputeDifferenceMap`: the map and its total recomputed from the
        current image with the squared distance. */
    method RecomputeDifferenceMap()
      requires Shaped()
      modifies this`totalDifference, differenceMap
      ensures Shaped() && Mapped()
      ensures State() == old(State()).(totalDifference := Sum(DifferenceMap(reference, currentData, Pixels(cfg), SrgbCartesianSq)))
    {
      totalDifference := ComputeDifferenceMap(reference, currentData, differenceMap, SrgbCartesianSq);
    }

    /** `drawStrokeToCanvas`: with a background the context shows the
        background with the stroke painted on it (`Stroke.draw`); without one
        nothing happens. */
    method DrawStrokeToCanvas(stroke: Stroke)
      requires Shaped() && Sized()
      modifies ctx
      ensures Sized()
      ensures backgroundData.Some? ==> ctx.pixels == Painted(raster, sqrt, backgroundData.value, stroke)
      ensures backgroundData.None? ==> ctx.pixels == old(ctx.pixels)
    {
      if backgroundData.None? {
        return;
      }
      var fills := Draw(stroke, sqrt);
      ctx.pixels := raster(backgroundData.value, Paint(stroke.color, stroke.alpha, fills));
    }

    /** `calculateCostWithStroke`: paints the stroke and returns the cost of
        the box (the whole canvas when none is given) against the
        reference. */
    method CalculateCostWithStroke(stroke: Stroke, bbox: Option<Box>) returns (cost: int)
      requires Shaped() && Sized() && (bbox.Some? ==> BoxOnCanvas(bbox.value, cfg))
      modifies ctx
      ensures Sized()
      ensures backgroundData.Some? ==> ctx.pixels == Painted(raster, sqrt, backgroundData.value, stroke)
      ensures backgroundData.None? ==> ctx.pixels == old(ctx.pixels)
      ensures cost == BoxCost(reference, ctx.pixels, OrDefault(bbox, FullBox(cfg)), cfg)
    {
      DrawStrokeToCanvas(stroke);
      var box := OrDefault(bbox, FullBox(cfg));
      BoxFits(ctx.pixels, box, cfg);
      BoxFits(reference, box, cfg);
      var patch := Crop(ctx.pixels, cfg.width, box, box.h);
      cost := ComputeCostOfPatch(reference, patch, box, cfg.width, SrgbCartesianSq);
    }

    /** `evaluate`: the cost in the box of a probe with its radii clamped. */
    method Evaluate(probe: Stroke, box: Box) returns (cost: int)
      requires Shaped() && Sized() && backgroundData.Some? && BoxOnCanvas(box, cfg)
      modifies ctx
      ensures Sized()
      ensures ctx.pixels == Painted(raster, sqrt, backgroundData.value, ClampRadii(probe, cfg))
      ensures cost == BoxCost(reference, ctx.pixels, box, cfg)
    {
      cost := CalculateCostWithStroke(ClampRadii(probe, cfg), Some(box));
    }
    /** `pickTargetPixel`: inverse-CDF sampling of the difference map with the
        draw `u`. */
    method PickTargetPixel(u: real) returns (target: Option<Target>)
      requires Shaped()
      ensures target == PickTarget(differenceMap[..], totalDifference, u, cfg.width)
    {
      if totalDifference <= 0 {
        return None;
      }
      var targetValue := u * totalDifference as real;
      var accumulator := 0;
      ghost var m := differenceMap[..];
      if differenceMap.Length > 0 {
        PositiveWidth(cfg.width, cfg.height);
      }
      for i := 0 to differenceMap.Length
        invariant accumulator == Prefix(m, i)
        invariant Search(m, targetValue, 0) == Search(m, targetValue, i)
      {
        PrefixStep(m, i);
        accumulator := accumulator + differenceMap[i];
        if accumulator as real >= targetValue {
          assert Search(m, targetValue, i) == Some(i);
          PickTargetAt(m, totalDifference, u, cfg.width, targetValue, i);
          return Some(TargetOf(i, cfg.width));
        }
      }
      PickTargetNone(m, totalDifference, u, cfg.width, targetValue);
      return None;
    }

    /** The candidates of `startNewStroke` for target `t`, one per draw. */
    function Candidates(last: Option<Stroke>, t: Target, draws: seq<CandidateDraws>): (cs: seq<Stroke>)
      requires 4 * t.index + 2 < |reference|
      ensures |cs| == |draws|
    {
      if draws == [] then []
      else Candidates(last, t, draws[..|draws| - 1])
           + [Candidate(last, t, ReferenceColor(reference, t.index), cfg, draws[|draws| - 1])]
    }

    /** Candidate `i` is the one drawn with `draws[i]`. */
    lemma {:induction false} CandidateAt(last: Option<Stroke>, t: Target, draws: seq<CandidateDraws>, i: nat)
      requires 4 * t.index + 2 < |reference| && i < |draws|
      ensures Candidates(last, t, draws)[i] == Candidate(last, t, ReferenceColor(reference, t.index), cfg, draws[i])
    {
      if i < |draws| - 1 {
        CandidateAt(last, t, draws[..|draws| - 1], i);
      }
    }

    /** The full-canvas costs of the candidates painted on `background`, in
        order. */
    function CandidateCosts(background: Image, cs: seq<Stroke>): (costs: seq<int>)
      requires |background| == ImageSize(cfg) && |reference| == ImageSize(cfg)
      ensures |costs| == |cs|
    {
      if cs == [] then []
      else CandidateCosts(background, cs[..|cs| - 1]) + [CandidateCost(background, cs[|cs| - 1])]
    }

    /** Entry `j` of the candidate costs is the cost of candidate `j`. */
    lemma {:induction false} CandidateCostAt(background: Image, cs: seq<Stroke>, j: nat)
      requires |background| == ImageSize(cfg) && |reference| == ImageSize(cfg) && j < |cs|
      ensures CandidateCosts(background, cs)[j] == CandidateCost(background, cs[j])
    {
      if j < |cs| - 1 {
        CandidateCostAt(background, cs[..|cs| - 1], j);
      }
    }

    /** The costs of one more candidate extend the costs of those before
        it by its own cost. */
    lemma CandidateCostsStep(background: Image, cs: seq<Stroke>, i: nat)
      requires |background| == ImageSize(cfg) && |reference| == ImageSize(cfg) && i < |cs|
      ensures CandidateCosts(background, cs[..i + 1])
              == CandidateCosts(background, cs[..i]) + [CandidateCost(background, cs[i])]
    {
      TakeOneMore(cs, i);
      CandidateCostsSnoc(background, cs[..i], cs[i]);
    }

    /** The costs of candidates with one more at the end are their costs
        and its cost. */
    lemma CandidateCostsSnoc(background: Image, front: seq<Stroke>, s: Stroke)
      requires |background| == ImageSize(cfg) && |reference| == ImageSize(cfg)
      ensures CandidateCosts(background, front + [s]) == CandidateCosts(background, front) + [CandidateCost(background, s)]
    {
      assert (front + [s])[..|front|] == front;
    }

    /** What the best-of-100 loop ends with is the `Selection`: costs of
        all candidates, the first minimum among them, and the canvas showing
        the last candidate. */
    lemma SelectionOf(last: Option<Stroke>, image: Image, t: Target, draws: seq<CandidateDraws>,
                      costs: seq<int>, j: nat, best: Stroke, bestCost: int, shown: Image)
      requires |reference| == ImageSize(cfg) && |image| == ImageSize(cfg) && ValidConfig(cfg)
      requires 4 * t.index + 2 < |reference|
      requires |draws| == NCandidates && forall i :: 0 <= i < |draws| ==> CandidateDrawsValid(draws[i], cfg)
      requires var cs := Candidates(last, t, draws);
               && costs == CandidateCosts(image, cs[..NCandidates])
               && IsFirstMinimum(costs, j) && best == cs[j] && bestCost == costs[j]
      requires shown == Painted(raster, sqrt, image, Candidates(last, t, draws)[NCandidates - 1])
      ensures InRanges(best, cfg)
      ensures (best, bestCost, shown) == Selection(last, image, t, draws)
    {
      var cs := Candidates(last, t, draws);
      assert cs[..NCandidates] == cs;
      CandidateCostAt(image, cs, j);
      FirstMinimumUnique(costs, j, FirstMinimum(costs));
      CandidateAt(last, t, draws, j);
    }

    /** The best-of-100 loop of `startNewStroke` for target `t`: each
        candidate is painted on the background and costed over the whole
        canvas, and the first cheapest is kept; `j` is its index. */
    method SelectCandidate(t: Target, draws: seq<CandidateDraws>) returns (best: Stroke, bestCost: int)
      requires Shaped() && Sized() && backgroundData.Some? && 4 * t.index + 2 < |reference|
      requires |draws| == NCandidates && forall i :: 0 <= i < |draws| ==> CandidateDrawsValid(draws[i], cfg)
      modifies ctx
      ensures Sized() && InRanges(best, cfg)
      ensures (best, bestCost, ctx.pixels) == Selection(lastSuccessfulStroke, backgroundData.value, t, draws)
    {
      ghost var background := backgroundData.value;
      var last := lastSuccessfulStroke;
      var color := ReferenceColor(reference, t.index);
      ghost var cs := Candidates(last, t, draws);
      var bestStroke: Option<Stroke> := None;
      bestCost := 0;
      ghost var j: nat := 0;
      ghost var costs: seq<int> := [];
      for i := 0 to NCandidates
        modifies ctx
        invariant Sized() && backgroundData == Some(background)
        invariant i > 0 ==> ctx.pixels == Painted(raster, sqrt, background, cs[i - 1])
        invariant costs == CandidateCosts(background, cs[..i])
        invariant bestStroke.None? <==> i == 0
        invariant i > 0 ==> IsFirstMinimum(costs, j) && bestStroke == Some(cs[j]) && bestCost == costs[j]
      {
        var candidate := Candidate(last, t, color, cfg, draws[i]);
        CandidateAt(last, t, draws, i);
        assert candidate == cs[i];
        var cost := CalculateCostWithStroke(candidate, None);
        CandidateCostsStep(background, cs, i);
        FirstMinimumStep(costs, cost, j);
        if bestStroke.None? || cost < bestCost {
          bestCost := cost;
          bestStroke := Some(candidate);
          j := i;
        }
        costs := costs + [cost];
      }
      best := bestStroke.value;
      SelectionOf(last, background, t, draws, costs, j, best, bestCost, ctx.pixels);
    }

    /** `startNewStroke` once a target is found: the current canvas becomes
        the background and the first cheapest of the 100 candidates the stroke
        under refinement, its cost the session cost. */
    method BeginStroke(t: Target, draws: seq<CandidateDraws>)
      requires Valid() && Sized() && 4 * t.index + 2 < |reference|
      requires |draws| == NCandidates && forall i :: 0 <= i < |draws| ==> CandidateDrawsValid(draws[i], cfg)
      modifies this, ctx
      ensures Valid() && Sized()
      ensures (State(), ctx.pixels) == Started(old(State()), old(ctx.pixels), t, draws)
    {
      ghost var st := State();
      ghost var image := ctx.pixels;
      backgroundData := Some(ctx.pixels);
      var bestStroke, bestCost := SelectCandidate(t, draws);
      StartedOf(st, image, t, draws, bestStroke, bestCost, ctx.pixels);
      AdoptStroke(bestStroke, bestCost);
    }

    /** The end of `startNewStroke`: the chosen candidate becomes the stroke
        under refinement, with no steps taken and its cost as the session
        cost. */
    method AdoptStroke(best: Stroke, bestCost: int)
      requires Shaped() && Mapped() && backgroundData.Some? && InRanges(best, cfg)
      modifies this`currentStroke, this`optimizationSteps, this`lastCost
      ensures Valid()
      ensures State() == old(State()).(currentStroke := Some(best), lastCost := bestCost, optimizationSteps := 0)
    {
      currentStroke := Some(best);
      optimizationSteps := 0;
      lastCost := bestCost;
    }

    /** `startNewStroke`: with difference left and a target found, the
        session starts a stroke as `Started` describes; otherwise nothing
        changes. */
    method StartNewStroke(u: real, draws: seq<CandidateDraws>) returns (success: bool)
      requires Valid() && Sized() && |draws| == NCandidates
      requires forall i :: 0 <= i < |draws| ==> CandidateDrawsValid(draws[i], cfg)
      modifies this, ctx
      ensures Valid() && Sized()
      ensures success <==> old(totalDifference) as real > 0.001
                           && PickTarget(differenceMap[..], old(totalDifference), u, cfg.width).Some?
      ensures !success ==> State() == old(State()) && ctx.pixels == old(ctx.pixels)
      ensures success ==>
        (State(), ctx.pixels)
        == Started(old(State()), old(ctx.pixels), PickTarget(differenceMap[..], old(totalDifference), u, cfg.width).value, draws)
    {
      if totalDifference as real <= 0.001 {
        return false;
      }
      var target := PickTargetPixel(u);
      if target.None? {
        return false;
      }
      BeginStroke(target.value, draws);
      return true;
    }

    /** The thirteen `evaluate` calls of `optimizeStroke`, in the order of
        its gradient record. */
    method EvaluateProbes(s: Stroke, box: Box) returns (costs: seq<int>)
      requires Shaped() && Sized() && backgroundData.Some? && BoxOnCanvas(box, cfg)
      modifies ctx
      ensures Sized()
      ensures costs == ProbeCosts(backgroundData.value, box, s, 13)
    {
      ghost var background := backgroundData.value;
      costs := [];
      for k := 0 to 13
        modifies ctx
        invariant Sized()
        invariant costs == ProbeCosts(background, box, s, k)
      {
        var cost := Evaluate(Probe(s, k), box);
        costs := costs + [cost];
      }
    }

    /** One refinement step of `optimizeStroke` on `s` within `box`: the base
        cost, the thirteen probes, the descent step and the cost after it, as
        `Refine` describes; the context is left showing the stepped stroke. */
    method RefineStroke(s: Stroke, box: Box) returns (step: Refinement)
      requires Shaped() && Sized() && backgroundData.Some? && InRanges(s, cfg) && BoxOnCanvas(box, cfg)
      modifies ctx
      ensures Sized()
      ensures step == Refine(backgroundData.value, box, s) && InRanges(step.next, cfg)
      ensures ctx.pixels == Painted(raster, sqrt, backgroundData.value, step.next)
    {
      var localBaseCost := CalculateCostWithStroke(s, Some(box));
      var costs := EvaluateProbes(s, box);
      var grads := EstimatedGradients(s, localBaseCost, costs);
      var next := DescentStep(s, grads, cfg);
      var newLocalCost := CalculateCostWithStroke(next, Some(box));
      step := Refinement(next, localBaseCost - newLocalCost);
    }

    /** The bookkeeping after a refinement step of `optimizeStroke`: the
        stepped stroke replaces the one under refinement, the session cost
        moves by the box's cost change, the step is counted and the stepped
        stroke is painted on the background. */
    method CommitStep(step: Refinement)
      requires Valid() && Sized() && currentStroke.Some? && InRanges(step.next, cfg)
      modifies this, ctx
      ensures Shaped() && Mapped() && Sized()
      ensures State() == old(State()).(currentStroke := Some(step.next), lastCost := old(lastCost) - step.costChange,
                                       optimizationSteps := old(optimizationSteps) + 1)
      ensures ctx.pixels == Painted(raster, sqrt, backgroundData.value, step.next)
    {
      currentStroke := Some(step.next);
      lastCost := lastCost - step.costChange;
      optimizationSteps := optimizationSteps + 1;
      DrawStrokeToCanvas(step.next);
    }

    /** One refinement step of `optimizeStroke` on the stroke `s` under
        refinement within `box`, as `Refine` describes, and its bookkeeping. */
    method ApplyStep(s: Stroke, box: Box) returns (step: Refinement)
      requires Valid() && Sized() && currentStroke == Some(s) && BoxOnCanvas(box, cfg)
      modifies this, ctx
      ensures Shaped() && Mapped() && Sized()
      ensures step == Refine(old(backgroundData).value, box, s)
      ensures State() == old(State()).(currentStroke := Some(step.next), lastCost := old(lastCost) - step.costChange,
                                       optimizationSteps := old(optimizationSteps) + 1)
      ensures ctx.pixels == Painted(raster, sqrt, backgroundData.value, step.next)
    {
      step := RefineStroke(s, box);
      CommitStep(step);
    }

    /** The discard path of `finalizeStroke`: the background is put back on
        the context and the stroke and background are dropped. */
    method DiscardStroke()
      requires Shaped() && Mapped() && Sized() && currentStroke.Some? && backgroundData.Some?
      requires lastCost > totalDifference
      modifies this, ctx
      ensures Valid() && Sized()
      ensures (State(), ctx.pixels) == Finalized(old(State()), old(ctx.pixels))
    {
      DiscardedOf(State(), ctx.pixels);
      ctx.pixels := backgroundData.value;
      currentStroke := None;
      backgroundData := None;
    }

    /** The commit path of `finalizeStroke`: the stroke is painted on the
        background, becomes the last successful stroke and the current image,
        the difference map is recomputed from it, the iteration is counted
        and the stroke and background are dropped. */
    method CommitStroke()
      requires Shaped() && Mapped() && Sized() && currentStroke.Some? && backgroundData.Some?
      requires lastCost <= totalDifference
      modifies this, ctx, differenceMap
      ensures Valid() && Sized()
      ensures (State(), ctx.pixels) == Finalized(old(State()), old(ctx.pixels))
    {
      ghost var st := State();
      ghost var painted := Painted(raster, sqrt, backgroundData.value, currentStroke.value);
      CommittedOf(st, ctx.pixels, painted);
      var s := currentStroke.value;
      DrawStrokeToCanvas(s);
      lastSuccessfulStroke := Some(s);
      currentData := ctx.pixels;
      assert State() == st.(currentData := painted, lastSuccessfulStroke := Some(s));
      RecomputeDifferenceMap();
      CloseStroke();
    }

    /** The end of the commit path of `finalizeStroke`: one more iteration,
        and no stroke or background any more. */
    method CloseStroke()
      requires Shaped() && Mapped()
      modifies this`nIteration, this`currentStroke, this`backgroundData
      ensures Valid()
      ensures State() == old(State()).(nIteration := old(nIteration) + 1, currentStroke := None, backgroundData := None)
    {
      nIteration := nIteration + 1;
      currentStroke := None;
      backgroundData := None;
    }

    /** `finalizeStroke`, as `Finalized` describes. */
    method FinalizeStroke()
      requires Shaped() && Mapped() && Sized()
      modifies this, ctx, differenceMap
      ensures Valid() && Sized()
      ensures (State(), ctx.pixels) == Finalized(old(State()), old(ctx.pixels))
    {
      if currentStroke.None? || backgroundData.None? {
        return;
      }
      if lastCost > totalDifference {
        DiscardStroke();
      } else {
        CommitStroke();
      }
    }

    /** The part of `optimizeStroke` after its guards: one refinement step of
        the stroke `s` under refinement within the non-empty `box`, then
        `finalizeStroke` once the convergence test passes. */
    method StepAndConclude(s: Stroke, box: Box)
      requires Valid() && Sized() && currentStroke == Some(s) && BoxOnCanvas(box, cfg) && box.w > 0 && box.h > 0
      modifies this, ctx, differenceMap
      ensures Valid() && Sized()
      ensures (State(), ctx.pixels) == StepOutcome(old(State()), s, box)
    {
      var avgRadius := AverageRadius(s);
      ghost var background := backgroundData.value;
      var step := ApplyStep(s, box);
      ghost var stepped := State();
      ghost var painted := ctx.pixels;
      assert stepped == old(State()).(currentStroke := Some(step.next), lastCost := old(lastCost) - step.costChange,
                                      optimizationSteps := old(optimizationSteps) + 1);
      assert painted == Painted(raster, sqrt, background, step.next);
      StepOutcomeOf(old(State()), s, box, step, stepped, painted);
      if ShouldFinalize(optimizationSteps, step.costChange as real, avgRadius) {
        FinalizeStroke();
      }
    }

    /** `optimizeStroke`: without a stroke, or with an empty refinement box,
        nothing changes; otherwise one refinement step as `Refine` describes,
        the session cost moved by the box's cost change, the step counted, the
        stroke painted, and `finalizeStroke` once the convergence test
        passes. */
    method OptimizeStroke()
      requires Valid() && Sized()
      modifies this, ctx, differenceMap
      ensures Valid() && Sized()
      ensures (State(), ctx.pixels) == Optimized(old(State()), old(ctx.pixels))
    {
      if currentStroke.None? || backgroundData.None? {
        return;
      }
      var s := currentStroke.value;
      var box := RefinementBox(s, cfg.width, cfg.height);
      if box.w == 0 || box.h == 0 {
        return;
      }
      StepAndConclude(s, box);
    }

    /** `stop`: the session stops running. */
    method Stop()
      modifies this
      ensures State() == old(State()).(running := false)
      ensures old(Valid()) ==> Valid()
    {
      running := false;
    }

    /** What `optimizeStroke` relies on in a session: a background of canvas
        size, and a stroke under refinement with a background and parameters
        in range. */
    predicate Ready(st: Session) {
      (st.backgroundData.Some? ==> |st.backgroundData.value| == ImageSize(cfg))
      && (st.currentStroke.Some? ==> st.backgroundData.Some? && InRanges(st.currentStroke.value, cfg))
    }

    /** `optimizeStroke` leaves a session ready for the next call, and
        running or stopped as it was. */
    lemma OptimizedKeepsReady(st: Session, image: Image)
      requires |reference| == ImageSize(cfg) && ValidConfig(cfg) && Ready(st)
      ensures Ready(Optimized(st, image).0)
      ensures Optimized(st, image).0.running == st.running
    {
      if st.currentStroke.Some? && st.backgroundData.Some? {
        var s := st.currentStroke.value;
        var box := RefinementBox(s, cfg.width, cfg.height);
        if box.w > 0 && box.h > 0 {
          StepOutcomeKeepsReady(st, s, box);
        }
      }
    }

    /** A refinement step keeps the session ready, and running or stopped
        as it was. */
    lemma StepOutcomeKeepsReady(st: Session, s: Stroke, box: Box)
      requires |reference| == ImageSize(cfg) && ValidConfig(cfg)
      requires st.backgroundData.Some? && |st.backgroundData.value| == ImageSize(cfg)
      requires BoxOnCanvas(box, cfg) && InRanges(s, cfg)
      ensures Ready(StepOutcome(st, s, box).0)
      ensures StepOutcome(st, s, box).0.running == st.running
    {
      var step := Refine(st.backgroundData.value, box, s);
      var stepped := st.(currentStroke := Some(step.next), lastCost := st.lastCost - step.costChange,
                         optimizationSteps := st.optimizationSteps + 1);
      var painted := Painted(raster, sqrt, st.backgroundData.value, step.next);
      StepOutcomeOf(st, s, box, step, stepped, painted);
      RefineInRanges(st.backgroundData.value, box, s);
    }

    /** The session and canvas after `n` calls of `optimizeStroke` in a row;
        refinement steps never change whether the session runs. */
    function Refined(st: Session, image: Image, n: nat): (r: (Session, Image))
      requires |reference| == ImageSize(cfg) && ValidConfig(cfg) && Ready(st)
      ensures Ready(r.0) && r.0.running == st.running
    {
      if n == 0 then (st, image)
      else
        var (st', image') := Refined(st, image, n - 1);
        OptimizedKeepsReady(st', image');
        Optimized(st', image')
    }

    /** The session and canvas after one frame of `loop`, on the canvas
        `image` whose difference map is `m`: nothing when stopped; with a
        stroke, `iterationsPerFrame` refinement steps; without one, the
        stroke `startNewStroke` starts at the pixel `pickTargetPixel` picks,
        or, when the total difference is at most 0.001 or no pixel is
        picked, the session stops. */
    function Frame(st: Session, image: Image, m: seq<int>, u: real, draws: seq<CandidateDraws>): (Session, Image)
      requires |reference| == ImageSize(cfg) && ValidConfig(cfg) && |image| == ImageSize(cfg)
      requires |m| == Pixels(cfg) && |draws| == NCandidates && Ready(st)
    {
      if !st.running then (st, image)
      else if st.currentStroke.Some? then Refined(st, image, cfg.iterationsPerFrame)
      else
        var t := PickTarget(m, st.totalDifference, u, cfg.width);
        if st.totalDifference as real > 0.001 && t.Some? then Started(st, image, t.value, draws)
        else (st.(running := false), image)
    }

    /** A frame runs on exactly when the session was running and, after the
        frame, has a stroke or had one before it: a stopped session stays
        stopped, one refining a stroke keeps running, and one without a
        stroke stops exactly when no new stroke is started. */
    lemma FrameRunsOn(st: Session, image: Image, m: seq<int>, u: real, draws: seq<CandidateDraws>)
      requires |reference| == ImageSize(cfg) && ValidConfig(cfg) && |image| == ImageSize(cfg)
      requires |m| == Pixels(cfg) && |draws| == NCandidates && Ready(st)
      ensures var next := Frame(st, image, m, u, draws).0;
              next.running <==> st.running && (st.currentStroke.Some? || next.currentStroke.Some?)
    {
    }

    /** One `optimizeStroke` step on a stroke with an empty refinement box
        changes nothing. */
    lemma OptimizedStuck(st: Session, image: Image)
      requires |reference| == ImageSize(cfg) && ValidConfig(cfg) && Ready(st)
      requires st.currentStroke.Some?
      requires var box := RefinementBox(st.currentStroke.value, cfg.width, cfg.height); box.w == 0 || box.h == 0
      ensures Optimized(st, image) == (st, image)
    {
    }

    /** A session and canvas that one `optimizeStroke` step leaves as they
        are stay so for any number of steps. */
    lemma {:induction false} RefinedFixed(st: Session, image: Image, n: nat)
      requires |reference| == ImageSize(cfg) && ValidConfig(cfg) && Ready(st)
      requires Optimized(st, image) == (st, image)
      ensures Refined(st, image, n) == (st, image)
    {
      if n > 0 {
        RefinedFixed(st, image, n - 1);
      }
    }

    /** A running session whose stroke has an empty refinement box is a
        fixed point of `loop`: every frame leaves it running and unchanged,
        and the stroke is never finalized. */
    lemma StuckStrokeFrameIsFixed(st: Session, image: Image, m: seq<int>, u: real, draws: seq<CandidateDraws>)
      requires |reference| == ImageSize(cfg) && ValidConfig(cfg) && |image| == ImageSize(cfg)
      requires |m| == Pixels(cfg) && |draws| == NCandidates && Ready(st)
      requires st.running && st.currentStroke.Some?
      requires var box := RefinementBox(st.currentStroke.value, cfg.width, cfg.height); box.w == 0 || box.h == 0
      ensures Frame(st, image, m, u, draws) == (st, image)
    {
      OptimizedStuck(st, image);
      RefinedFixed(st, image, cfg.iterationsPerFrame);
    }

    /** One frame of `loop`, as `Frame` describes. */
    method Loop(u: real, draws: seq<CandidateDraws>)
      requires Valid() && Sized() && |draws| == NCandidates
      requires forall i :: 0 <= i < |draws| ==> CandidateDrawsValid(draws[i], cfg)
      modifies this, ctx, differenceMap
      ensures Valid() && Sized()
      ensures (State(), ctx.pixels) == Frame(old(State()), old(ctx.pixels), old(differenceMap[..]), u, draws)
    {
      if !running {
        return;
      }
      if currentStroke.None? {
        var success := StartNewStroke(u, draws);
        if !success {
          Stop();
          return;
        }
      } else {
        ghost var st0, image0 := State(), ctx.pixels;
        for i := 0 to cfg.iterationsPerFrame
          invariant Valid() && Sized()
          invariant (State(), ctx.pixels) == Refined(st0, image0, i)
        {
          OptimizeStroke();
        }
      }
    }

    /** `start`: a stopped session starts running and takes its first
        frame; a running one is left alone. */
    method Start(u: real, draws: seq<CandidateDraws>)
      requires Valid() && Sized() && |draws| == NCandidates
      requires forall i :: 0 <= i < |draws| ==> CandidateDrawsValid(draws[i], cfg)
      modifies this, ctx, differenceMap
      ensures Valid() && Sized()
      ensures old(running) ==> State() == old(State()) && ctx.pixels == old(ctx.pixels)
      ensures !old(running) ==>
        (State(), ctx.pixels) == Frame(old(State()).(running := true), old(ctx.pixels), old(differenceMap[..]), u, draws)
    {
      if running {
        return;
      }
      running := true;
      Loop(u, draws);
    }
  }
}
