/** Joint paths along straight segments with Bezier curves for corners, cut into points. */
module JointBlend {
  import opened Reals
  import opened SampleBudget
  import opened Wrappers

  type Joints = seq<real>

  /** Waypoints of `joints` values each and, per corner, the fractions its zone takes on either side. */
  datatype Path = Path(joints: nat, waypoints: seq<Joints>, fracs: seq<(real, real)>)

  datatype Error = TooFewWaypoints | WrongCornerCount | NoLength

  /** Points closer than this are one; a stretch of a segment no longer than this is no stretch. */
  const MERGE: real := 0.000000000001

  predicate WellShaped(p: Path) {
    forall i | 0 <= i < |p.waypoints| :: |p.waypoints[i]| == p.joints
  }

  predicate IsPath(p: Path) {
    |p.waypoints| >= 2 && |p.fracs| + 2 == |p.waypoints| && WellShaped(p)
  }

  // ------------------------------------------------------------------ points and distances

  function Mix(x: real, y: real, t: real): real {
    x + t * (y - x)
  }

  function Curve(e: real, w: real, x: real, t: real): real {
    (1.0 - t) * (1.0 - t) * e + 2.0 * (1.0 - t) * t * w + t * t * x
  }

  lemma MixBetween(x: real, y: real, t: real, lo: real, hi: real)
    requires 0.0 <= t <= 1.0 && lo <= x <= hi && lo <= y <= hi
    ensures lo <= Mix(x, y, t) <= hi
  {
    ProductSign(1.0 - t, x - lo);
    ProductSign(t, y - lo);
    ProductSign(1.0 - t, hi - x);
    ProductSign(t, hi - y);
    assert Mix(x, y, t) - lo == (1.0 - t) * (x - lo) + t * (y - lo);
    assert hi - Mix(x, y, t) == (1.0 - t) * (hi - x) + t * (hi - y);
  }

  lemma CurveBetween(e: real, w: real, x: real, t: real, lo: real, hi: real)
    requires 0.0 <= t <= 1.0 && lo <= e <= hi && lo <= w <= hi && lo <= x <= hi
    ensures lo <= Curve(e, w, x, t) <= hi
  {
    MixBetween(e, w, t, lo, hi);
    MixBetween(w, x, t, lo, hi);
    var a, b := Mix(e, w, t), Mix(w, x, t);
    MixBetween(a, b, t, lo, hi);
    assert Mix(a, b, t) == Curve(e, w, x, t);
  }

  function Stretch(part: real, span: real): (s: real)
    requires part >= 0.0 && span >= 0.0
    ensures s >= 0.0
  {
    part * span
  }

  /** Over a stretch `d` of its parameter a corner moves no more than twice that of its two legs. */
  lemma CurveStep(e: real, w: real, x: real, s: real, d: real, m: real)
    requires 0.0 <= s && 0.0 <= d && s + d <= 1.0 && Abs(w - e) <= m && Abs(x - w) <= m && m >= 0.0
    ensures Abs(Curve(e, w, x, s + d) - Curve(e, w, x, s)) <= 2.0 * Stretch(d, m)
  {
    hide Curve, Stretch, Scaled, Slope;
    var g, h, c := w - e, x - w, s + (s + d);
    CurveChange(e, w, x, s, d);
    SlopeWithin(g, h, c, m);
    StretchedWithin(d, Slope(g, h, c), 2.0 * m);
    TwiceStretch(d, m);
  }

  lemma SlopeWithin(g: real, h: real, c: real, m: real)
    requires 0.0 <= c <= 2.0 && Abs(g) <= m && Abs(h) <= m
    ensures Abs(Slope(g, h, c)) <= 2.0 * m
  {
    hide Scaled;
    StretchedWithin(2.0 - c, g, m);
    StretchedWithin(c, h, m);
    Halves(c, m);
  }

  lemma Halves(c: real, m: real)
    ensures Scaled(2.0 - c, m) + Scaled(c, m) == 2.0 * m
  {
  }

  lemma TwiceStretch(d: real, m: real)
    requires d >= 0.0 && m >= 0.0
    ensures Scaled(d, 2.0 * m) == 2.0 * Stretch(d, m)
  {
  }

  function Slope(g: real, h: real, c: real): real {
    Scaled(2.0 - c, g) + Scaled(c, h)
  }

  lemma CurveChange(e: real, w: real, x: real, s: real, d: real)
    ensures Curve(e, w, x, s + d) - Curve(e, w, x, s) == Scaled(d, Slope(w - e, x - w, s + (s + d)))
  {
    hide Curve, Slope, Scaled;
    CurveExpanded(e, w, x, s);
    CurveExpanded(e, w, x, s + d);
    ExpandedChange(e, w - e, x - w, s, d);
  }

  function Expanded(e: real, g: real, h: real, t: real): real {
    e + 2.0 * (t * g) + t * t * (h - g)
  }

  lemma CurveExpanded(e: real, w: real, x: real, t: real)
    ensures Curve(e, w, x, t) == Expanded(e, w - e, x - w, t)
  {
  }

  lemma ExpandedChange(e: real, g: real, h: real, s: real, d: real)
    ensures Expanded(e, g, h, s + d) - Expanded(e, g, h, s) == Scaled(d, Slope(g, h, s + (s + d)))
  {
  }

  lemma StretchedWithin(c: real, x: real, m: real)
    requires c >= 0.0 && Abs(x) <= m
    ensures Abs(Scaled(c, x)) <= Scaled(c, m)
  {
    ScaledWithin(c, x, m, Scaled(c, x), Scaled(c, m));
  }

  function Lerp(a: Joints, b: Joints, t: real): (q: Joints)
    requires |a| == |b|
    ensures |q| == |a| && forall j | 0 <= j < |a| :: q[j] == Mix(a[j], b[j], t)
  {
    seq(|a|, j requires 0 <= j < |a| => Mix(a[j], b[j], t))
  }

  function Bezier(e: Joints, w: Joints, x: Joints, t: real): (q: Joints)
    requires |e| == |w| == |x|
    ensures |q| == |e| && forall j | 0 <= j < |e| :: q[j] == Curve(e[j], w[j], x[j], t)
  {
    seq(|e|, j requires 0 <= j < |e| => Curve(e[j], w[j], x[j], t))
  }

  /** The largest motion of any joint. */
  function Span(a: Joints, b: Joints): (s: real)
    requires |a| == |b|
    ensures s >= 0.0
  {
    if a == [] then 0.0
    else
      var n := |a| - 1;
      Max(Span(a[..n], b[..n]), Abs(b[n] - a[n]))
  }

  lemma {:induction false} SpanCovers(a: Joints, b: Joints, j: nat)
    requires j < |a| == |b|
    ensures Abs(b[j] - a[j]) <= Span(a, b)
    decreases |a|
  {
    if j < |a| - 1 {
      SpanCovers(a[..|a| - 1], b[..|a| - 1], j);
    }
  }

  ghost predicate Within(a: Joints, b: Joints, d: real)
    requires |a| == |b|
  {
    forall j | 0 <= j < |a| :: Abs(b[j] - a[j]) <= d
  }

  lemma {:induction false} SpanWithin(a: Joints, b: Joints, d: real)
    requires |a| == |b| && Within(a, b, d) && d >= 0.0
    ensures Span(a, b) <= d
    decreases |a|
  {
    if a != [] {
      SpanWithin(a[..|a| - 1], b[..|a| - 1], d);
    }
  }

  lemma SpanTriangle(a: Joints, b: Joints, c: Joints)
    requires |a| == |b| == |c|
    ensures Span(a, c) <= Span(a, b) + Span(b, c)
  {
    forall j | 0 <= j < |a| ensures Abs(c[j] - a[j]) <= Span(a, b) + Span(b, c) {
      SpanCovers(a, b, j);
      SpanCovers(b, c, j);
    }
    SpanWithin(a, c, Span(a, b) + Span(b, c));
  }

  lemma {:induction false} SpanZero(a: Joints)
    ensures Span(a, a) == 0.0
  {
    if a != [] {
      SpanZero(a[..|a| - 1]);
    }
  }

  // ------------------------------------------------------------------------------- thinning

  predicate SameShape(points: seq<Joints>, n: nat) {
    forall k | 0 <= k < |points| :: |points[k]| == n
  }

  /** Append a point unless it is where the path already is. */
  function Push(out: seq<Joints>, q: Joints): seq<Joints>
    requires SameShape(out, |q|)
  {
    if out != [] && Span(out[|out| - 1], q) < MERGE then out else out + [q]
  }

  function Thin(tried: seq<Joints>, n: nat): (out: seq<Joints>)
    requires SameShape(tried, n)
    ensures SameShape(out, n)
    ensures forall q | q in out :: q in tried
  {
    if tried == [] then []
    else Push(Thin(tried[..|tried| - 1], n), tried[|tried| - 1])
  }

  /** Thinning keeps the first point and stays next to the last one tried. */
  lemma {:induction false} ThinEnds(tried: seq<Joints>, n: nat)
    requires SameShape(tried, n) && tried != []
    ensures var out := Thin(tried, n);
            out != [] && out[0] == tried[0] && Span(out[|out| - 1], tried[|tried| - 1]) < MERGE
    decreases |tried|
  {
    var last := |tried| - 1;
    SpanZero(tried[last]);
    if last > 0 {
      ThinEnds(tried[..last], n);
    }
  }

  ghost predicate StepsWithin(points: seq<Joints>, n: nat, d: real)
    requires SameShape(points, n)
  {
    forall k | 0 <= k < |points| - 1 :: Span(points[k], points[k + 1]) <= d
  }

  /** Thinning adds no more than the merging distance to a step. */
  lemma {:induction false} ThinSteps(tried: seq<Joints>, n: nat, d: real)
    requires SameShape(tried, n) && StepsWithin(tried, n, d)
    ensures StepsWithin(Thin(tried, n), n, d + MERGE)
    decreases |tried|
  {
    if |tried| > 1 {
      var last := |tried| - 1;
      ThinSteps(tried[..last], n, d);
      ThinEnds(tried[..last], n);
      var out := Thin(tried[..last], n);
      assert Span(tried[last - 1], tried[last]) <= d;
      SpanTriangle(out[|out| - 1], tried[last - 1], tried[last]);
    } else if |tried| == 1 {
      assert tried[..0] == [];
    }
  }

  ghost predicate Apart(points: seq<Joints>, n: nat)
    requires SameShape(points, n)
  {
    forall k | 0 <= k < |points| - 1 :: Span(points[k], points[k + 1]) >= MERGE
  }

  /** No two neighbouring points that are kept are one. */
  lemma {:induction false} ThinApart(tried: seq<Joints>, n: nat)
    requires SameShape(tried, n)
    ensures Apart(Thin(tried, n), n)
    decreases |tried|
  {
    if tried != [] {
      ThinApart(tried[..|tried| - 1], n);
    }
  }

  /** One if the last point tried was left out. */
  ghost function Dropped(tried: seq<Joints>, n: nat): (d: int)
    requires SameShape(tried, n)
    ensures 0 <= d <= 1
    ensures tried != [] && d == 0 ==> Thin(tried, n) != [] && Thin(tried, n)[|Thin(tried, n)| - 1] == tried[|tried| - 1]
  {
    if tried == [] then 0 else 1 + |Thin(tried[..|tried| - 1], n)| - |Thin(tried, n)|
  }

  lemma ThinNext(tried: seq<Joints>, q: Joints, n: nat)
    requires SameShape(tried, n) && |q| == n
    ensures SameShape(tried + [q], n) && Thin(tried + [q], n) == Push(Thin(tried, n), q)
    ensures |Thin(tried + [q], n)| + Dropped(tried + [q], n) == |Thin(tried, n)| + 1
  {
    assert (tried + [q])[..|tried|] == tried;
  }

  // --------------------------------------------------------------------------------- pieces

  datatype Piece = Line(i: nat, a: real, b: real) | Corner(i: nat)

  /** The fraction of segment `i` its far corner takes. */
  function Exit(p: Path, i: nat): (f: real)
    ensures 0.0 <= f <= 0.5 && (i >= |p.fracs| ==> f == 0.0)
  {
    if i < |p.fracs| then Clamp(p.fracs[i].0, 0.0, 0.5) else 0.0
  }

  /** The fraction of segment `i` its near corner takes. */
  function Entry(p: Path, i: nat): (f: real)
    ensures 0.0 <= f <= 0.5 && (i == 0 ==> f == 0.0)
  {
    if 0 < i <= |p.fracs| then Clamp(p.fracs[i - 1].1, 0.0, 0.5) else 0.0
  }

  /** Segment `i`'s straight stretch is long enough to be a piece. */
  predicate HasLine(p: Path, i: nat) {
    1.0 - Exit(p, i) > Entry(p, i) + MERGE
  }

  predicate HasCorner(p: Path, i: nat) {
    i + 2 < |p.waypoints| && (Exit(p, i) > 0.0 || Entry(p, i + 1) > 0.0)
  }

  predicate IsPiece(p: Path, piece: Piece) {
    match piece
    case Line(i, a, b) => i + 1 < |p.waypoints| && a == Entry(p, i) && b == 1.0 - Exit(p, i)
    case Corner(i) => i + 2 < |p.waypoints|
  }

  predicate ArePieces(p: Path, pieces: seq<Piece>) {
    forall m | 0 <= m < |pieces| :: IsPiece(p, pieces[m])
  }

  /** The pieces of segment `i` and the corner after it. */
  function SegmentPieces(p: Path, i: nat): (s: seq<Piece>)
    requires i + 1 < |p.waypoints|
    ensures ArePieces(p, s)
  {
    (if HasLine(p, i) then [Line(i, Entry(p, i), 1.0 - Exit(p, i))] else []) +
    if HasCorner(p, i) then [Corner(i)] else []
  }

  function Pieces(p: Path, i: nat): (s: seq<Piece>)
    requires i < |p.waypoints|
    ensures ArePieces(p, s)
  {
    if i == 0 then [] else Pieces(p, i - 1) + SegmentPieces(p, i - 1)
  }

  function Along(a: real, b: real, t: real): real {
    a + (b - a) * t
  }

  /** The point a fraction `t` along a piece. */
  function PointAt(p: Path, piece: Piece, t: real): (q: Joints)
    requires WellShaped(p) && IsPiece(p, piece)
    ensures |q| == p.joints
  {
    var w := p.waypoints;
    match piece
    case Line(i, a, b) => Lerp(w[i], w[i + 1], Along(a, b, t))
    case Corner(i) =>
      Bezier(Lerp(w[i], w[i + 1], 1.0 - Exit(p, i)), w[i + 1], Lerp(w[i + 1], w[i + 2], Entry(p, i + 1)), t)
  }

  /** How far the joints move along a piece. */
  function Motion(p: Path, piece: Piece): (m: real)
    requires WellShaped(p) && IsPiece(p, piece)
    ensures m >= 0.0
  {
    var w := p.waypoints;
    match piece
    case Line(i, a, b) => Stretch(b - a, Span(w[i], w[i + 1]))
    case Corner(i) =>
      Span(Lerp(w[i], w[i + 1], 1.0 - Exit(p, i)), w[i + 1]) + Span(w[i + 1], Lerp(w[i + 1], w[i + 2], Entry(p, i + 1)))
  }

  function Interval(motion: real, step: real): (n: nat)
    requires motion >= 0.0 && step > 0.0
    ensures n >= 1
  {
    var n := Ceil(motion / step);
    if n < 1 then 1 else n
  }

  /** Enough intervals that none carries more than a step of the motion. */
  lemma IntervalCovers(motion: real, step: real)
    requires motion >= 0.0 && step > 0.0
    ensures Stretch(1.0 / Interval(motion, step) as real, motion) <= step
  {
    var n := Interval(motion, step) as real;
    assert motion / step <= n;
    var q := motion / step;
    assert motion == q * step;
    ProductSign(n - q, step);
    assert motion <= n * step;
    var u := 1.0 / n;
    assert u * n == 1.0;
    ProductSign(u, n * step - motion);
    assert u * (n * step) == (u * n) * step;
  }

  /** And no more than that takes. */
  lemma IntervalLeast(motion: real, step: real)
    requires motion >= 0.0 && step > 0.0
    ensures var n := Interval(motion, step);
            motion <= n as real * step && (n > 1 ==> (n - 1) as real * step < motion)
  {
    var n, q := Interval(motion, step), motion / step;
    Quotient(motion, step);
    ProductSign(n as real - q, step);
    assert (n as real - q) * step == n as real * step - motion;
    if n > 1 {
      ProductPositive(q - (n - 1) as real, step, (q - (n - 1) as real) * step);
    }
  }

  // ------------------------------------------------------------------------------- sampling

  /** The first `k` points tried on a piece cut into `steps`. */
  ghost function Row(p: Path, piece: Piece, steps: nat, k: nat): (row: seq<Joints>)
    requires WellShaped(p) && IsPiece(p, piece) && steps > 0
    ensures |row| == k && SameShape(row, p.joints)
  {
    if k == 0 then []
    else Row(p, piece, steps, k - 1) + [PointAt(p, piece, (k - 1) as real / steps as real)]
  }

  /** The points tried on the first `m` pieces. */
  ghost function Tried(p: Path, pieces: seq<Piece>, counts: seq<nat>, m: nat): (tried: seq<Joints>)
    requires WellShaped(p) && ArePieces(p, pieces) && m <= |pieces| == |counts|
    requires forall k | 0 <= k < |counts| :: counts[k] >= 1
    ensures SameShape(tried, p.joints)
  {
    if m == 0 then [] else Tried(p, pieces, counts, m - 1) + Row(p, pieces[m - 1], counts[m - 1], counts[m - 1] + 1)
  }

  lemma RowAt(p: Path, piece: Piece, steps: nat, k: nat, j: nat)
    requires WellShaped(p) && IsPiece(p, piece) && steps > 0 && j < k
    ensures Row(p, piece, steps, k)[j] == PointAt(p, piece, j as real / steps as real)
  {
  }

  // --------------------------------------------------------------------- where pieces meet

  function Start(p: Path, piece: Piece): Joints
    requires WellShaped(p) && IsPiece(p, piece)
  {
    PointAt(p, piece, 0.0)
  }

  function End(p: Path, piece: Piece): Joints
    requires WellShaped(p) && IsPiece(p, piece)
  {
    PointAt(p, piece, 1.0)
  }

  /** Where segment `i` is entered. */
  function Door(p: Path, i: nat): (q: Joints)
    requires WellShaped(p) && i + 1 < |p.waypoints|
    ensures |q| == p.joints
  {
    Lerp(p.waypoints[i], p.waypoints[i + 1], Entry(p, i))
  }

  function Leave(p: Path, i: nat): (q: Joints)
    requires WellShaped(p) && i + 1 < |p.waypoints|
    ensures |q| == p.joints
  {
    Lerp(p.waypoints[i], p.waypoints[i + 1], 1.0 - Exit(p, i))
  }

  lemma LineEnds(p: Path, i: nat, a: real, b: real)
    requires WellShaped(p) && IsPiece(p, Line(i, a, b))
    ensures Start(p, Line(i, a, b)) == Door(p, i) && End(p, Line(i, a, b)) == Leave(p, i)
  {
  }

  lemma CornerEnds(p: Path, i: nat)
    requires WellShaped(p) && IsPiece(p, Corner(i))
    ensures Start(p, Corner(i)) == Leave(p, i) && End(p, Corner(i)) == Door(p, i + 1)
  {
  }

  /** A line is run evenly from its start to its end. */
  lemma LineIsEven(p: Path, i: nat, a: real, b: real, t: real, j: nat)
    requires WellShaped(p) && IsPiece(p, Line(i, a, b)) && j < p.joints
    ensures var line := Line(i, a, b);
            PointAt(p, line, t)[j] == Start(p, line)[j] + t * (End(p, line)[j] - Start(p, line)[j])
  {
    var x, y := p.waypoints[i][j], p.waypoints[i + 1][j];
    assert Along(a, b, 0.0) == a && Along(a, b, 1.0) == b;
    EvenMix(x, y, a, b, t);
  }

  lemma EvenMix(x: real, y: real, a: real, b: real, t: real)
    ensures Mix(x, y, Along(a, b, t)) == Mix(x, y, a) + t * (Mix(x, y, b) - Mix(x, y, a))
  {
    var d := y - x;
    assert (a + (b - a) * t) * d == a * d + t * (b * d - a * d);
  }

  /**
   A corner leaves the first segment along it and comes into the next along that: from either end it
   heads straight for the waypoint, and strays from that by the square of the way alone.
   */
  lemma CornerIsTangent(p: Path, i: nat, t: real, j: nat)
    requires WellShaped(p) && IsPiece(p, Corner(i)) && j < p.joints
    ensures var from, at, to := Leave(p, i)[j], p.waypoints[i + 1][j], Door(p, i + 1)[j];
            var q := PointAt(p, Corner(i), t)[j];
            && q - (from + 2.0 * t * (at - from)) == t * t * (to - 2.0 * at + from)
            && q - (to + 2.0 * (1.0 - t) * (at - to)) == (1.0 - t) * (1.0 - t) * (to - 2.0 * at + from)
  {
    hide Lerp;
    var from, at, to := Leave(p, i)[j], p.waypoints[i + 1][j], Door(p, i + 1)[j];
    CurveFromEnds(from, at, to, t);
  }

  lemma CurveFromEnds(e: real, w: real, x: real, t: real)
    ensures Curve(e, w, x, t) - (e + 2.0 * t * (w - e)) == t * t * (x - 2.0 * w + e)
    ensures Curve(e, w, x, t) - (x + 2.0 * (1.0 - t) * (w - x)) == (1.0 - t) * (1.0 - t) * (x - 2.0 * w + e)
  {
    CurveAhead(e, w, x, t);
    CurveAhead(x, w, e, 1.0 - t);
    assert Curve(x, w, e, 1.0 - t) == Curve(e, w, x, t);
  }

  lemma CurveAhead(e: real, w: real, x: real, t: real)
    ensures Curve(e, w, x, t) - (e + 2.0 * t * (w - e)) == t * t * (x - 2.0 * w + e)
  {
    var u, tt := 1.0 - t, t * t;
    assert u * u == 1.0 - 2.0 * t + tt;
    assert u * u * e == e - 2.0 * (t * e) + tt * e;
    assert 2.0 * u * t * w == 2.0 * (t * w) - 2.0 * (tt * w);
    assert 2.0 * t * (w - e) == 2.0 * (t * w) - 2.0 * (t * e);
    assert tt * (x - 2.0 * w + e) == tt * x - 2.0 * (tt * w) + tt * e;
  }

  /** A piece's intervals are counted by how far the joints move from its start to its end, a corner's by its legs. */
  lemma MotionIs(p: Path, piece: Piece)
    requires WellShaped(p) && IsPiece(p, piece)
    ensures match piece
            case Line(i, a, b) => Motion(p, piece) == Span(Start(p, piece), End(p, piece))
            case Corner(i) =>
              Motion(p, piece) == Span(Start(p, piece), p.waypoints[i + 1]) + Span(p.waypoints[i + 1], End(p, piece))
  {
    hide PointAt, Span;
    match piece
    case Line(i, a, b) =>
      LineEnds(p, i, a, b);
      LineForward(p, i);
      SpanOfPart(p.waypoints[i], p.waypoints[i + 1], a, b);
    case Corner(i) =>
      CornerEnds(p, i);
  }

  lemma {:induction false} SpanOfPart(a: Joints, b: Joints, s: real, t: real)
    requires |a| == |b| && s <= t
    ensures Span(Lerp(a, b, s), Lerp(a, b, t)) == Stretch(t - s, Span(a, b))
    decreases |a|
  {
    if a != [] {
      var n := |a| - 1;
      SpanOfPart(a[..n], b[..n], s, t);
      assert Lerp(a, b, s)[..n] == Lerp(a[..n], b[..n], s) && Lerp(a, b, t)[..n] == Lerp(a[..n], b[..n], t);
      PartOfOne(a[n], b[n], s, t);
      MaxStretched(t - s, Span(a[..n], b[..n]), Abs(b[n] - a[n]));
    } else {
      assert Lerp(a, b, s) == [];
    }
  }

  lemma PartOfOne(x: real, y: real, s: real, t: real)
    requires s <= t
    ensures Abs(Mix(x, y, t) - Mix(x, y, s)) == Stretch(t - s, Abs(y - x))
  {
    assert Mix(x, y, t) - Mix(x, y, s) == (t - s) * (y - x);
    ProductSign(t - s, y - x);
    ProductSign(t - s, x - y);
    assert (t - s) * (x - y) == -((t - s) * (y - x));
  }

  lemma MaxStretched(part: real, x: real, y: real)
    requires part >= 0.0 && x >= 0.0 && y >= 0.0
    ensures Stretch(part, Max(x, y)) == Max(Stretch(part, x), Stretch(part, y))
  {
    ProductSign(part, x - y);
    ProductSign(part, y - x);
    assert part * (x - y) == part * x - part * y && part * (y - x) == part * y - part * x;
  }

  /** A segment left untrimmed at its far end and entered untrimmed next: it is left where the next is entered. */
  lemma Untrimmed(p: Path, i: nat)
    requires WellShaped(p) && i + 2 < |p.waypoints| && Exit(p, i) == 0.0 && Entry(p, i + 1) == 0.0
    ensures Leave(p, i) == Door(p, i + 1)
  {
  }

  lemma MixGap(x: real, y: real, s: real, t: real, part: real, span: real)
    requires 0.0 <= t - s <= part && Abs(y - x) <= span
    ensures Abs(Mix(x, y, t) - Mix(x, y, s)) <= Stretch(part, span)
  {
    var d, g := t - s, y - x;
    assert d * g == t * g - s * g;
    assert Mix(x, y, t) - Mix(x, y, s) == Scaled(d, g);
    StretchedWithin(d, g, span);
    ProductSign(part - d, span);
  }

  lemma LerpGap(a: Joints, b: Joints, s: real, t: real, part: real)
    requires |a| == |b| && 0.0 <= t - s <= part
    ensures Span(Lerp(a, b, s), Lerp(a, b, t)) <= Stretch(part, Span(a, b))
  {
    hide Mix, Stretch;
    var bound := Stretch(part, Span(a, b));
    forall j | 0 <= j < |a| ensures Abs(Lerp(a, b, t)[j] - Lerp(a, b, s)[j]) <= bound {
      SpanCovers(a, b, j);
      MixGap(a[j], b[j], s, t, part, Span(a, b));
    }
    SpanWithin(Lerp(a, b, s), Lerp(a, b, t), bound);
  }

  /** Segment `i` keeps a line, or its two corners meet exactly in its middle. */
  predicate Whole(p: Path, i: nat) {
    HasLine(p, i) || (Exit(p, i) == 0.5 && Entry(p, i) == 0.5)
  }

  predicate NoSlivers(p: Path) {
    forall i | 0 <= i < |p.waypoints| - 1 :: Whole(p, i)
  }

  ghost predicate Reaches(p: Path, reach: real)
    requires WellShaped(p)
  {
    reach >= 0.0 && forall i | 0 <= i < |p.waypoints| - 1 :: Span(p.waypoints[i], p.waypoints[i + 1]) <= reach
  }

  /** The gap between segment `i`'s corners, where its line is too short to keep, is at most `g`. */
  ghost predicate GapWithin(p: Path, i: nat, g: real)
    requires WellShaped(p) && i + 1 < |p.waypoints|
  {
    !HasLine(p, i) ==> Span(Door(p, i), Leave(p, i)) <= g
  }

  ghost predicate GapsWithin(p: Path, g: real)
    requires WellShaped(p)
  {
    g >= 0.0 && forall i | 0 <= i < |p.waypoints| - 1 :: GapWithin(p, i, g)
  }

  /** Without slivers there is no gap at all ... */
  lemma NoGapWithoutSlivers(p: Path)
    requires WellShaped(p) && NoSlivers(p)
    ensures GapsWithin(p, 0.0)
  {
    forall i | 0 <= i < |p.waypoints| - 1 ensures GapWithin(p, i, 0.0) {
      assert Whole(p, i);
      if !HasLine(p, i) {
        assert Door(p, i) == Leave(p, i);
        SpanZero(Door(p, i));
      }
    }
  }

  /** ... and with them none is longer than the merging distance times the longest span. */
  lemma NarrowGaps(p: Path, reach: real)
    requires WellShaped(p) && Reaches(p, reach)
    ensures GapsWithin(p, Stretch(MERGE, reach))
  {
    forall i | 0 <= i < |p.waypoints| - 1 ensures GapWithin(p, i, Stretch(MERGE, reach)) {
      if !HasLine(p, i) {
        var span := Span(p.waypoints[i], p.waypoints[i + 1]);
        LerpGap(p.waypoints[i], p.waypoints[i + 1], Entry(p, i), 1.0 - Exit(p, i), MERGE);
        ProductSign(MERGE, reach - span);
      }
    }
  }

  /** Where one piece ends and the next starts. */
  ghost predicate Meet(p: Path, s: Piece, t: Piece, g: real)
    requires WellShaped(p) && IsPiece(p, s) && IsPiece(p, t)
  {
    Span(End(p, s), Start(p, t)) <= g
  }

  ghost predicate Abut(p: Path, pieces: seq<Piece>, g: real)
    requires WellShaped(p) && ArePieces(p, pieces)
  {
    forall m | 0 <= m < |pieces| - 1 :: Meet(p, pieces[m], pieces[m + 1], g)
  }

  lemma MeetExactly(p: Path, s: Piece, t: Piece, g: real)
    requires WellShaped(p) && IsPiece(p, s) && IsPiece(p, t) && g >= 0.0 && End(p, s) == Start(p, t)
    ensures Meet(p, s, t, g)
  {
    SpanZero(End(p, s));
  }

  /** A segment's pieces end where the next one is entered, the last one's at the last waypoint. */
  lemma SegmentEnds(p: Path, i: nat)
    requires IsPath(p) && i + 1 < |p.waypoints|
    ensures var s := SegmentPieces(p, i);
            && s != []
            && End(p, s[|s| - 1]) == if i + 2 < |p.waypoints| then Door(p, i + 1) else p.waypoints[i + 1]
  {
    hide PointAt;
    if HasCorner(p, i) {
      CornerEnds(p, i);
    } else {
      LineEnds(p, i, Entry(p, i), 1.0 - Exit(p, i));
      if i + 2 < |p.waypoints| {
        Untrimmed(p, i);
      } else {
        assert Leave(p, i) == p.waypoints[i + 1];
      }
    }
  }

  /** The pieces begin with the first segment's line. */
  lemma PiecesStart(p: Path, i: nat)
    requires IsPath(p) && 0 < i < |p.waypoints|
    ensures Pieces(p, i) != [] && Pieces(p, i)[0] == Line(0, 0.0, 1.0 - Exit(p, 0))
  {
    if i > 1 {
      PiecesStart(p, i - 1);
    } else {
      assert Pieces(p, 0) == [] && HasLine(p, 0);
    }
  }

  /** The pieces so far end where segment `i` is entered, all of them at the last waypoint. */
  lemma PiecesEnd(p: Path, i: nat)
    requires IsPath(p) && 0 < i < |p.waypoints|
    ensures Pieces(p, i) != []
    ensures var last := Pieces(p, i)[|Pieces(p, i)| - 1];
            End(p, last) == if i + 1 < |p.waypoints| then Door(p, i) else p.waypoints[i]
  {
    hide PointAt, Lerp, Door, SegmentPieces;
    SegmentEnds(p, i - 1);
    var s := SegmentPieces(p, i - 1);
    assert Pieces(p, i)[|Pieces(p, i)| - 1] == s[|s| - 1];
  }

  /** Each piece ends where the next one starts, up to the gap of a segment whose line is too short to keep. */
  lemma PiecesAbut(p: Path, i: nat, g: real)
    requires IsPath(p) && i < |p.waypoints| && GapsWithin(p, g)
    ensures Abut(p, Pieces(p, i), g)
  {
    hide Meet, PointAt, Door, SegmentPieces;
    if i > 0 {
      var before, s := Pieces(p, i - 1), SegmentPieces(p, i - 1);
      PiecesAbut(p, i - 1, g);
      SegmentAbuts(p, i - 1, g);
      if i > 1 {
        PiecesEnd(p, i - 1);
        EntersAt(p, before[|before| - 1], s[0], i - 1, g);
      } else {
        assert before == [];
      }
    }
  }

  /** Nor do they abut closer than that: each such gap lies between two pieces. */
  lemma {:induction false} AbuttingGaps(p: Path, i: nat, g: real)
    requires IsPath(p) && i < |p.waypoints| && Abut(p, Pieces(p, i), g)
    ensures forall k | 0 <= k < i :: GapWithin(p, k, g)
    decreases i
  {
    hide PointAt, Door, Leave, SegmentPieces, GapWithin;
    if i > 0 {
      var before, s := Pieces(p, i - 1), SegmentPieces(p, i - 1);
      forall m | 0 <= m < |before| - 1 ensures Meet(p, before[m], before[m + 1], g) {
        assert before[m] == (before + s)[m] && before[m + 1] == (before + s)[m + 1];
        assert Meet(p, (before + s)[m], (before + s)[m + 1], g);
      }
      AbuttingGaps(p, i - 1, g);
      SegmentStart(p, i - 1);
      if i > 1 {
        PiecesEnd(p, i - 1);
        var m := |before| - 1;
        assert (before + s)[m] == before[m] && (before + s)[m + 1] == s[0];
        assert Meet(p, (before + s)[m], (before + s)[m + 1], g);
      }
      JoinGap(p, i - 1, g);
    }
  }

  lemma JoinGap(p: Path, i: nat, g: real)
    requires IsPath(p) && i + 1 < |p.waypoints| && SegmentPieces(p, i) != []
    requires i > 0 ==> Span(Door(p, i), Start(p, SegmentPieces(p, i)[0])) <= g
    ensures GapWithin(p, i, g)
  {
    SegmentStart(p, i);
    assert i == 0 ==> HasLine(p, 0);
  }

  lemma EntersAt(p: Path, last: Piece, first: Piece, i: nat, g: real)
    requires WellShaped(p) && IsPiece(p, last) && IsPiece(p, first) && i + 1 < |p.waypoints|
    requires End(p, last) == Door(p, i) && Span(Door(p, i), Start(p, first)) <= g
    ensures Meet(p, last, first, g)
  {
  }

  /** A segment's pieces follow on from where it is entered. */
  lemma SegmentAbuts(p: Path, i: nat, g: real)
    requires IsPath(p) && i + 1 < |p.waypoints| && GapsWithin(p, g)
    ensures var s := SegmentPieces(p, i); s != [] && Abut(p, s, g) && Span(Door(p, i), Start(p, s[0])) <= g
  {
    var s := SegmentPieces(p, i);
    SegmentStart(p, i);
    if HasLine(p, i) {
      SpanZero(Door(p, i));
      if HasCorner(p, i) {
        MeetExactly(p, s[0], s[1], g);
      }
    } else {
      assert GapWithin(p, i, g);
    }
  }

  /** A segment's first piece starts where it is entered, or past the gap when it has no line. */
  lemma SegmentStart(p: Path, i: nat)
    requires IsPath(p) && i + 1 < |p.waypoints|
    ensures var s := SegmentPieces(p, i);
            && s != [] && Start(p, s[0]) == (if HasLine(p, i) then Door(p, i) else Leave(p, i))
            && |s| <= 2 && (|s| == 2 ==> End(p, s[0]) == Start(p, s[1]))
  {
    hide PointAt;
    if HasLine(p, i) {
      LineEnds(p, i, Entry(p, i), 1.0 - Exit(p, i));
    }
    if HasCorner(p, i) {
      CornerEnds(p, i);
    }
  }

  // ---------------------------------------------------------------------- the points tried

  lemma LineStep(p: Path, i: nat, a: real, b: real, s: real, d: real)
    requires WellShaped(p) && IsPiece(p, Line(i, a, b)) && 0.0 <= d
    ensures Span(PointAt(p, Line(i, a, b), s), PointAt(p, Line(i, a, b), s + d)) <=
            Stretch(d, Motion(p, Line(i, a, b)))
  {
    hide Stretch, Lerp, Span, Exit, Entry, Along;
    assert b >= a by {
      LineForward(p, i);
    }
    var part := Stretch(b - a, d);
    Advance(a, b, s, d);
    LerpGap(p.waypoints[i], p.waypoints[i + 1], Along(a, b, s), Along(a, b, s + d), part);
    Regroup(b - a, d, Span(p.waypoints[i], p.waypoints[i + 1]));
  }

  lemma LineForward(p: Path, i: nat)
    ensures 1.0 - Exit(p, i) >= Entry(p, i)
  {
  }

  lemma Advance(a: real, b: real, s: real, d: real)
    requires b >= a && d >= 0.0
    ensures Along(a, b, s + d) - Along(a, b, s) == Stretch(b - a, d)
  {
  }

  lemma Regroup(x: real, y: real, z: real)
    requires x >= 0.0 && y >= 0.0 && z >= 0.0
    ensures Stretch(Stretch(x, y), z) == Stretch(y, Stretch(x, z))
  {
  }

  lemma CornerStep(p: Path, i: nat, s: real, d: real)
    requires WellShaped(p) && IsPiece(p, Corner(i)) && 0.0 <= s && 0.0 <= d && s + d <= 1.0
    ensures Span(PointAt(p, Corner(i), s), PointAt(p, Corner(i), s + d)) <= 2.0 * Stretch(d, Motion(p, Corner(i)))
  {
    hide Curve, Stretch, Lerp, Span, Exit, Entry;
    var e, w, x := Leave(p, i), p.waypoints[i + 1], Door(p, i + 1);
    var m := Span(e, w) + Span(w, x);
    assert Motion(p, Corner(i)) == m;
    var from, to := PointAt(p, Corner(i), s), PointAt(p, Corner(i), s + d);
    assert from == Bezier(e, w, x, s) && to == Bezier(e, w, x, s + d);
    forall j | 0 <= j < p.joints ensures Abs(to[j] - from[j]) <= 2.0 * Stretch(d, m) {
      SpanCovers(e, w, j);
      SpanCovers(w, x, j);
      CurveStep(e[j], w[j], x[j], s, d, m);
    }
    SpanWithin(from, to, 2.0 * Stretch(d, m));
  }

  /** Neighbouring points of a piece cut as finely as it asks are at most two steps apart. */
  lemma PointStep(p: Path, piece: Piece, step: real, k: nat)
    requires WellShaped(p) && IsPiece(p, piece) && step > 0.0
    requires k < Interval(Motion(p, piece), step)
    ensures var n := Interval(Motion(p, piece), step) as real;
            Span(PointAt(p, piece, k as real / n), PointAt(p, piece, (k + 1) as real / n)) <= 2.0 * step
  {
    hide PointAt, Motion;
    var n := Interval(Motion(p, piece), step) as real;
    var s, d := k as real / n, 1.0 / n;
    assert (k + 1) as real / n == s + d;
    assert s + d <= 1.0;
    IntervalCovers(Motion(p, piece), step);
    match piece
    case Line(i, a, b) => LineStep(p, i, a, b, s, d);
    case Corner(i) => CornerStep(p, i, s, d);
  }

  lemma StepsAppend(points: seq<Joints>, q: Joints, n: nat, d: real)
    requires SameShape(points, n) && |q| == n && StepsWithin(points, n, d)
    requires points != [] ==> Span(points[|points| - 1], q) <= d
    ensures SameShape(points + [q], n) && StepsWithin(points + [q], n, d)
  {
  }

  /** The points of one piece, cut as finely as it asks, follow on at no more than `d`. */
  lemma {:induction false} RowSteps(p: Path, piece: Piece, step: real, k: nat, before: seq<Joints>, d: real)
    requires WellShaped(p) && IsPiece(p, piece) && step > 0.0 && d >= 2.0 * step
    requires k <= Interval(Motion(p, piece), step) + 1
    requires SameShape(before, p.joints) && StepsWithin(before, p.joints, d)
    requires before != [] ==> Span(before[|before| - 1], Start(p, piece)) <= d
    ensures var row := Row(p, piece, Interval(Motion(p, piece), step), k);
            SameShape(before + row, p.joints) && StepsWithin(before + row, p.joints, d)
    decreases k
  {
    hide PointAt, Motion, Interval, StepsWithin, Span;
    var steps := Interval(Motion(p, piece), step);
    if k == 0 {
      assert before + Row(p, piece, steps, 0) == before;
    } else {
      RowSteps(p, piece, step, k - 1, before, d);
      var row := Row(p, piece, steps, k - 1);
      var q := PointAt(p, piece, (k - 1) as real / steps as real);
      if k == 1 {
        assert before + row == before;
      } else {
        RowAt(p, piece, steps, k - 1, k - 2);
        PointStep(p, piece, step, k - 2);
        assert (before + row)[|before + row| - 1] == row[k - 2];
      }
      StepsAppend(before + row, q, p.joints, d);
      assert before + Row(p, piece, steps, k) == before + row + [q];
    }
  }

  /** What each piece asks for. */
  ghost predicate AsAsked(p: Path, pieces: seq<Piece>, counts: seq<nat>, step: real)
    requires WellShaped(p) && ArePieces(p, pieces) && step > 0.0
  {
    |counts| == |pieces| && forall m | 0 <= m < |pieces| :: counts[m] == Interval(Motion(p, pieces[m]), step)
  }

  ghost predicate AtLeastOne(counts: seq<nat>) {
    forall k | 0 <= k < |counts| :: counts[k] >= 1
  }

  lemma RowEnds(p: Path, piece: Piece, steps: nat)
    requires WellShaped(p) && IsPiece(p, piece) && steps > 0
    ensures var row := Row(p, piece, steps, steps + 1); row[0] == Start(p, piece) && row[steps] == End(p, piece)
  {
    hide PointAt, Row;
    RowAt(p, piece, steps, steps + 1, 0);
    RowAt(p, piece, steps, steps + 1, steps);
    assert 0 as real / steps as real == 0.0 && steps as real / steps as real == 1.0;
  }

  /** The points tried so far run from the first piece's start to the last one's end. */
  lemma TriedEnds(p: Path, pieces: seq<Piece>, counts: seq<nat>, m: nat)
    requires WellShaped(p) && ArePieces(p, pieces) && 0 < m <= |pieces| == |counts| && AtLeastOne(counts)
    ensures var tried := Tried(p, pieces, counts, m);
            tried != [] && tried[0] == Start(p, pieces[0]) && tried[|tried| - 1] == End(p, pieces[m - 1])
  {
    hide PointAt, Row;
    RowEnds(p, pieces[m - 1], counts[m - 1]);
    if m == 1 {
      assert Tried(p, pieces, counts, 0) == [];
    } else {
      TriedEnds(p, pieces, counts, m - 1);
    }
  }

  lemma {:induction false} TriedSteps(p: Path, pieces: seq<Piece>, counts: seq<nat>, m: nat, step: real,
                                      g: real, d: real)
    requires WellShaped(p) && ArePieces(p, pieces) && m <= |pieces| == |counts| && AtLeastOne(counts)
    requires step > 0.0 && AsAsked(p, pieces, counts, step) && Abut(p, pieces, g)
    requires d >= 2.0 * step && d >= g
    ensures StepsWithin(Tried(p, pieces, counts, m), p.joints, d)
    decreases m
  {
    hide PointAt, Motion, Interval, StepsWithin, Row, Span;
    if m == 0 {
      assert StepsWithin([], p.joints, d) by { NoSteps(p.joints, d); }
    } else {
      TriedSteps(p, pieces, counts, m - 1, step, g, d);
      var before := Tried(p, pieces, counts, m - 1);
      if m > 1 {
        TriedEnds(p, pieces, counts, m - 1);
        assert Meet(p, pieces[m - 2], pieces[m - 1], g);
      }
      RowSteps(p, pieces[m - 1], step, counts[m - 1] + 1, before, d);
    }
  }

  lemma NoSteps(n: nat, d: real)
    ensures StepsWithin([], n, d)
  {
  }

  // ------------------------------------------------------------------ what a gap costs

  /** Points once kept stay kept. */
  lemma {:induction false} ThinPrefix(tried: seq<Joints>, more: seq<Joints>, n: nat)
    requires SameShape(tried, n) && SameShape(more, n)
    ensures SameShape(tried + more, n) && Thin(tried, n) <= Thin(tried + more, n)
    decreases |more|
  {
    if more == [] {
      assert tried + more == tried;
    } else {
      var init, q := more[..|more| - 1], more[|more| - 1];
      ThinPrefix(tried, init, n);
      assert tried + more == (tried + init) + [q];
      ThinNext(tried + init, q, n);
    }
  }

  /** What is tried after the first `m` pieces begins with where the next one starts. */
  lemma {:induction false} TriedOn(p: Path, pieces: seq<Piece>, counts: seq<nat>, m: nat, k: nat)
      returns (more: seq<Joints>)
    requires WellShaped(p) && ArePieces(p, pieces) && m < k <= |pieces| == |counts| && AtLeastOne(counts)
    ensures SameShape(more, p.joints)
    ensures Tried(p, pieces, counts, k) == (Tried(p, pieces, counts, m) + [Start(p, pieces[m])]) + more
    decreases k
  {
    hide PointAt, Row;
    var row := Row(p, pieces[k - 1], counts[k - 1], counts[k - 1] + 1);
    if k == m + 1 {
      RowEnds(p, pieces[m], counts[m]);
      more := row[1..];
      assert row == [row[0]] + more;
    } else {
      more := TriedOn(p, pieces, counts, m, k - 1);
      more := more + row;
    }
  }

  /** A step over a join wider than the bound and twice the merging distance exceeds the bound. */
  lemma WideJoinSteps(p: Path, pieces: seq<Piece>, counts: seq<nat>, m: nat, d: real)
    requires WellShaped(p) && ArePieces(p, pieces) && 0 < m < |pieces| == |counts| && AtLeastOne(counts) && d >= 0.0
    requires !Meet(p, pieces[m - 1], pieces[m], d + 2.0 * MERGE)
    ensures !StepsWithin(Thin(Tried(p, pieces, counts, |counts|), p.joints), p.joints, d + MERGE)
  {
    hide PointAt, Thin, Tried, Span;
    var n, before, q := p.joints, Tried(p, pieces, counts, m), Start(p, pieces[m]);
    var more := TriedOn(p, pieces, counts, m, |counts|);
    TriedEnds(p, pieces, counts, m);
    ThinEnds(before, n);
    ThinNext(before, q, n);
    ThinPrefix(before + [q], more, n);
    var out := Thin(before, n);
    var last, end := out[|out| - 1], End(p, pieces[m - 1]);
    SpanTriangle(end, last, q);
    SpanSymmetric(end, last);
    var all := Thin(Tried(p, pieces, counts, |counts|), n);
    assert all[|out| - 1] == last && all[|out|] == q;
  }

  // ---------------------------------------------------------------------- how many points

  /** One where the next piece starts at least the merging distance from where the last one ended. */
  ghost function WideJoin(p: Path, s: Piece, t: Piece): (g: nat)
    requires WellShaped(p) && IsPiece(p, s) && IsPiece(p, t)
  {
    if Span(End(p, s), Start(p, t)) >= MERGE then 1 else 0
  }

  ghost function WideJoins(p: Path, pieces: seq<Piece>, m: nat): (g: nat)
    requires WellShaped(p) && ArePieces(p, pieces) && m <= |pieces|
  {
    if m < 2 then 0 else WideJoins(p, pieces, m - 1) + WideJoin(p, pieces[m - 2], pieces[m - 1])
  }

  /** One where segment `i`'s line is too short to keep and its gap is at least the merging distance. */
  ghost function WideSliver(p: Path, i: nat): (g: nat)
    requires WellShaped(p) && i + 1 < |p.waypoints|
  {
    if !HasLine(p, i) && Span(Door(p, i), Leave(p, i)) >= MERGE then 1 else 0
  }

  ghost function WideSlivers(p: Path, i: nat): (g: nat)
    requires WellShaped(p) && i < |p.waypoints|
  {
    if i == 0 then 0 else WideSlivers(p, i - 1) + WideSliver(p, i - 1)
  }

  lemma {:induction false} JoinsPrefix(p: Path, a: seq<Piece>, b: seq<Piece>, m: nat)
    requires WellShaped(p) && ArePieces(p, a) && ArePieces(p, b) && m <= |a|
    ensures ArePieces(p, a + b) && WideJoins(p, a + b, m) == WideJoins(p, a, m)
    decreases m
  {
    if m >= 2 {
      JoinsPrefix(p, a, b, m - 1);
    }
  }

  /** The wide joins are the wide slivers. */
  lemma {:induction false} JoinsAreSlivers(p: Path, i: nat)
    requires IsPath(p) && i < |p.waypoints|
    ensures WideJoins(p, Pieces(p, i), |Pieces(p, i)|) == WideSlivers(p, i)
    decreases i
  {
    hide PointAt, SegmentPieces, Door, Leave;
    if i > 0 {
      var before, s := Pieces(p, i - 1), SegmentPieces(p, i - 1);
      JoinsAreSlivers(p, i - 1);
      SegmentStart(p, i - 1);
      JoinsPrefix(p, before, s, |before|);
      SpanZero(Door(p, i - 1));
      if i > 1 {
        PiecesEnd(p, i - 1);
        assert WideJoin(p, before[|before| - 1], s[0]) == WideSliver(p, i - 1);
        assert (before + s)[|before| - 1] == before[|before| - 1] && (before + s)[|before|] == s[0];
      } else {
        assert before == [] && HasLine(p, 0) && before + s == s;
      }
      if |s| == 2 {
        InnerJoin(p, before, s);
      }
    }
  }

  /** A segment's line meets its corner. */
  lemma InnerJoin(p: Path, before: seq<Piece>, s: seq<Piece>)
    requires WellShaped(p) && ArePieces(p, before) && ArePieces(p, s) && |s| == 2 && End(p, s[0]) == Start(p, s[1])
    ensures ArePieces(p, before + s)
    ensures WideJoins(p, before + s, |before| + 2) == WideJoins(p, before + s, |before| + 1)
  {
    hide PointAt;
    SpanZero(Start(p, s[1]));
    assert (before + s)[|before|] == s[0] && (before + s)[|before| + 1] == s[1];
  }

  /** A row keeps a point for each interval, and one for its start unless the path is already there. */
  lemma {:induction false} RowSize(p: Path, piece: Piece, steps: nat, k: nat, before: seq<Joints>)
    requires WellShaped(p) && IsPiece(p, piece) && steps > 0 && k > 0 && SameShape(before, p.joints)
    ensures var row, n := Row(p, piece, steps, k), p.joints;
            && SameShape(before + row, n)
            && |Thin(before + row, n)| <= |Thin(before, n)| + Dropped(before, n) + (k - 1) +
                 if before == [] || Span(before[|before| - 1], Start(p, piece)) >= MERGE then 1 else 0
    decreases k
  {
    hide PointAt, Dropped;
    var n, q := p.joints, PointAt(p, piece, (k - 1) as real / steps as real);
    var row := Row(p, piece, steps, k - 1);
    assert before + Row(p, piece, steps, k) == (before + row) + [q];
    if k == 1 {
      assert before + row == before;
      assert 0 as real / steps as real == 0.0;
      ThinNext(before, q, n);
      DroppedElse(before, n);
    } else {
      RowSize(p, piece, steps, k - 1, before);
      ThinNext(before + row, q, n);
    }
  }

  lemma DroppedElse(tried: seq<Joints>, n: nat)
    requires SameShape(tried, n)
    ensures Dropped(tried, n) == 1 || tried == [] || Thin(tried, n)[|Thin(tried, n)| - 1] == tried[|tried| - 1]
  {
  }

  /** Counting a dropped last point, the points so far are at most one, the intervals and the wide joins. */
  lemma {:induction false} TriedSize(p: Path, pieces: seq<Piece>, counts: seq<nat>, m: nat)
    requires WellShaped(p) && ArePieces(p, pieces) && 0 < m <= |pieces| == |counts| && AtLeastOne(counts)
    ensures var tried := Tried(p, pieces, counts, m);
            |Thin(tried, p.joints)| + Dropped(tried, p.joints) <= 1 + Sum(counts[..m]) + WideJoins(p, pieces, m)
    decreases m
  {
    hide PointAt, Dropped, Thin;
    var n, steps, piece := p.joints, counts[m - 1], pieces[m - 1];
    var before := Tried(p, pieces, counts, m - 1);
    assert counts[..m][..m - 1] == counts[..m - 1];
    RowSize(p, piece, steps, steps, before);
    var row, q := Row(p, piece, steps, steps), PointAt(p, piece, steps as real / steps as real);
    assert before + Row(p, piece, steps, steps + 1) == (before + row) + [q];
    ThinNext(before + row, q, n);
    if m > 1 {
      TriedSize(p, pieces, counts, m - 1);
      TriedEnds(p, pieces, counts, m - 1);
    } else {
      NothingThinned(n);
      assert counts[..0] == [];
    }
  }

  lemma NothingThinned(n: nat)
    ensures Thin([], n) == [] && Dropped([], n) == 0
  {
  }

  // ------------------------------------------------------------------------- staying inside

  /** Joint `j` of every point lies between `lo` and `hi`. */
  ghost predicate Between(points: seq<Joints>, j: nat, lo: real, hi: real) {
    forall k | 0 <= k < |points| :: j < |points[k]| && lo <= points[k][j] <= hi
  }

  lemma PointBetween(p: Path, piece: Piece, t: real, j: nat, lo: real, hi: real)
    requires WellShaped(p) && IsPiece(p, piece) && 0.0 <= t <= 1.0 && j < p.joints
    requires Between(p.waypoints, j, lo, hi)
    ensures lo <= PointAt(p, piece, t)[j] <= hi
  {
    hide Mix, Curve, Along;
    var w := p.waypoints;
    match piece
    case Line(i, a, b) =>
      assert 0.0 <= Along(a, b, t) <= 1.0 by { AlongWithin(a, b, t); }
      MixBetween(w[i][j], w[i + 1][j], Along(a, b, t), lo, hi);
    case Corner(i) =>
      MixBetween(w[i][j], w[i + 1][j], 1.0 - Exit(p, i), lo, hi);
      MixBetween(w[i + 1][j], w[i + 2][j], Entry(p, i + 1), lo, hi);
      CurveBetween(Leave(p, i)[j], w[i + 1][j], Door(p, i + 1)[j], t, lo, hi);
  }

  lemma AlongWithin(a: real, b: real, t: real)
    requires 0.0 <= a <= b <= 1.0 && 0.0 <= t <= 1.0
    ensures 0.0 <= Along(a, b, t) <= 1.0
  {
    ProductSign(b - a, t);
    ProductSign(b - a, 1.0 - t);
  }

  lemma {:induction false} RowBetween(p: Path, piece: Piece, steps: nat, k: nat, j: nat, lo: real, hi: real)
    requires WellShaped(p) && IsPiece(p, piece) && steps > 0 && k <= steps + 1 && j < p.joints
    requires Between(p.waypoints, j, lo, hi)
    ensures Between(Row(p, piece, steps, k), j, lo, hi)
    decreases k
  {
    hide PointAt;
    if k > 0 {
      RowBetween(p, piece, steps, k - 1, j, lo, hi);
      FractionWithin(k - 1, steps);
      PointBetween(p, piece, (k - 1) as real / steps as real, j, lo, hi);
    }
  }

  lemma FractionWithin(k: nat, steps: nat)
    requires k <= steps && steps > 0
    ensures 0.0 <= k as real / steps as real <= 1.0
  {
  }

  lemma {:induction false} TriedBetween(p: Path, pieces: seq<Piece>, counts: seq<nat>, m: nat, j: nat, lo: real,
      hi: real)
    requires WellShaped(p) && ArePieces(p, pieces) && m <= |pieces| == |counts| && AtLeastOne(counts)
    requires j < p.joints && Between(p.waypoints, j, lo, hi)
    ensures Between(Tried(p, pieces, counts, m), j, lo, hi)
    decreases m
  {
    hide PointAt, Row;
    if m > 0 {
      TriedBetween(p, pieces, counts, m - 1, j, lo, hi);
      RowBetween(p, pieces[m - 1], counts[m - 1], counts[m - 1] + 1, j, lo, hi);
    }
  }

  // ------------------------------------------------------------------------------ the blend

  ghost function AllPieces(p: Path): (s: seq<Piece>)
    requires IsPath(p)
    ensures ArePieces(p, s)
  {
    Pieces(p, |p.waypoints| - 1)
  }

  /**
   The counts sampled with: what the pieces ask for when it fits the budget, else exactly the budget,
   shared out fairly by what they ask for.
   */
  ghost predicate Fitted(p: Path, step: real, maxPoints: nat, counts: seq<nat>)
    requires IsPath(p) && step > 0.0
  {
    && |counts| == |AllPieces(p)| && AtLeastOne(counts)
    && Sum(counts) <= Allowed(|counts|, maxPoints)
    && (if Fits(p, step, maxPoints) then AsAsked(p, AllPieces(p), counts, step)
        else
          && Sum(counts) == Allowed(|counts|, maxPoints)
          && forall asked, exact | AsAsked(p, AllPieces(p), asked, step) && SharedBy(exact, asked, maxPoints) ::
               Fair(counts, exact, Allowed(|counts|, maxPoints)))
  }

  /** The shares of the budget by what the pieces ask for. */
  ghost predicate SharedBy(exact: seq<real>, asked: seq<nat>, maxPoints: nat) {
    Sum(asked) > 0 && Shares(exact, asked, Allowed(|asked|, maxPoints), Sum(asked))
  }

  /** The budget does not bind. */
  ghost predicate Fits(p: Path, step: real, maxPoints: nat)
    requires IsPath(p) && step > 0.0
  {
    forall asked | AsAsked(p, AllPieces(p), asked, step) :: Sum(asked) <= Allowed(|asked|, maxPoints)
  }

  ghost function Blend(p: Path, counts: seq<nat>): seq<Joints>
    requires IsPath(p) && |counts| == |AllPieces(p)| && AtLeastOne(counts)
  {
    Thin(Tried(p, AllPieces(p), counts, |counts|), p.joints)
  }

  /** What a caller is promised of the blended path. */
  ghost predicate GoodBlend(p: Path, step: real, maxPoints: nat, out: seq<Joints>)
    requires IsPath(p) && step > 0.0
  {
    var last := |p.waypoints| - 1;
    && SameShape(out, p.joints)
    && out != [] && out[0] == p.waypoints[0] && Span(out[|out| - 1], p.waypoints[last]) < MERGE
    && (forall j: nat, lo: real, hi: real | j < p.joints && Between(p.waypoints, j, lo, hi) :: Between(out, j, lo, hi))
    && |out| <= Allowed(|AllPieces(p)|, maxPoints) + 1 + WideSlivers(p, last)
    && (NoSlivers(p) ==> WideSlivers(p, last) == 0)
    && (Fits(p, step, maxPoints) ==> StepsAtMost(p, out, step))
    && (StepsWithin(out, p.joints, 2.0 * step + MERGE) ==> GapsWithin(p, 2.0 * step + 2.0 * MERGE))
    && Apart(out, p.joints)
  }

  /**
   Between points no joint moves more than two pitches, or the widest gap where a segment's line was
   too short to keep, and the merging distance.
   */
  ghost predicate StepsAtMost(p: Path, out: seq<Joints>, step: real)
    requires WellShaped(p) && SameShape(out, p.joints)
  {
    && (NoSlivers(p) ==> StepsWithin(out, p.joints, 2.0 * step + MERGE))
    && forall g | GapsWithin(p, g) :: StepsWithin(out, p.joints, Max(2.0 * step, g) + MERGE)
  }

  lemma StartsAtFirst(p: Path)
    requires IsPath(p)
    ensures AllPieces(p) != [] && Start(p, AllPieces(p)[0]) == p.waypoints[0]
    ensures End(p, AllPieces(p)[|AllPieces(p)| - 1]) == p.waypoints[|p.waypoints| - 1]
  {
    PiecesStart(p, |p.waypoints| - 1);
    PiecesEnd(p, |p.waypoints| - 1);
    LineEnds(p, 0, 0.0, 1.0 - Exit(p, 0));
    assert Door(p, 0) == p.waypoints[0];
  }

  lemma BlendStaysBetween(p: Path, counts: seq<nat>, j: nat, lo: real, hi: real)
    requires IsPath(p) && |counts| == |AllPieces(p)| && AtLeastOne(counts)
    requires j < p.joints && Between(p.waypoints, j, lo, hi)
    ensures Between(Blend(p, counts), j, lo, hi)
  {
    hide Pieces, Tried;
    var tried := Tried(p, AllPieces(p), counts, |counts|);
    TriedBetween(p, AllPieces(p), counts, |counts|, j, lo, hi);
    var out := Blend(p, counts);
    forall k | 0 <= k < |out| ensures j < |out[k]| && lo <= out[k][j] <= hi {
      assert out[k] in tried;
    }
  }

  /**
   Whatever the counts, a path that keeps the bound of two pitches and the merging distance has no
   gap wider than two pitches and twice the merging distance.
   */
  lemma BoundedGaps(p: Path, step: real, counts: seq<nat>)
    requires IsPath(p) && step > 0.0 && |counts| == |AllPieces(p)| && AtLeastOne(counts)
    requires StepsWithin(Blend(p, counts), p.joints, 2.0 * step + MERGE)
    ensures GapsWithin(p, 2.0 * step + 2.0 * MERGE)
  {
    hide Pieces, Tried, Thin, StepsWithin, Meet, GapWithin;
    var pieces, g := AllPieces(p), 2.0 * step + 2.0 * MERGE;
    forall m | 0 <= m < |pieces| - 1 ensures Meet(p, pieces[m], pieces[m + 1], g) {
      if !Meet(p, pieces[m], pieces[m + 1], g) {
        WideJoinSteps(p, pieces, counts, m + 1, 2.0 * step);
      }
    }
    AbuttingGaps(p, |p.waypoints| - 1, g);
  }

  lemma BlendSteps(p: Path, step: real, counts: seq<nat>, g: real)
    requires IsPath(p) && step > 0.0 && AsAsked(p, AllPieces(p), counts, step) && AtLeastOne(counts)
    requires GapsWithin(p, g)
    ensures StepsWithin(Blend(p, counts), p.joints, Max(2.0 * step, g) + MERGE)
  {
    hide Pieces, Tried, StepsWithin;
    var d := Max(2.0 * step, g);
    PiecesAbut(p, |p.waypoints| - 1, g);
    TriedSteps(p, AllPieces(p), counts, |counts|, step, g, d);
    ThinSteps(Tried(p, AllPieces(p), counts, |counts|), p.joints, d);
  }

  /** At most one point more than the intervals, and one for each sliver at least the merging distance wide. */
  lemma BlendSize(p: Path, counts: seq<nat>)
    requires IsPath(p) && |counts| == |AllPieces(p)| && AtLeastOne(counts)
    ensures |Blend(p, counts)| <= Sum(counts) + 1 + WideSlivers(p, |p.waypoints| - 1)
  {
    hide Pieces, Tried, Dropped, WideSlivers, WideJoins;
    StartsAtFirst(p);
    TriedSize(p, AllPieces(p), counts, |counts|);
    assert counts[..|counts|] == counts;
    JoinsAreSlivers(p, |p.waypoints| - 1);
  }

  lemma {:induction false} NoWideSlivers(p: Path, i: nat)
    requires WellShaped(p) && i < |p.waypoints| && GapsWithin(p, 0.0)
    ensures WideSlivers(p, i) == 0
    decreases i
  {
    hide Door, Leave;
    if i > 0 {
      NoWideSlivers(p, i - 1);
      assert GapWithin(p, i - 1, 0.0);
    }
  }

  lemma SegmentAsAsked(p: Path, pieces: seq<Piece>, counts: seq<nat>, piece: Piece, step: real)
    requires WellShaped(p) && ArePieces(p, pieces) && IsPiece(p, piece) && step > 0.0
    requires AsAsked(p, pieces, counts, step)
    ensures ArePieces(p, pieces + [piece])
    ensures AsAsked(p, pieces + [piece], counts + [Interval(Motion(p, piece), step)], step)
  {
  }

  lemma AskedOnce(p: Path, pieces: seq<Piece>, a: seq<nat>, b: seq<nat>, step: real)
    requires WellShaped(p) && ArePieces(p, pieces) && step > 0.0
    requires AsAsked(p, pieces, a, step) && AsAsked(p, pieces, b, step)
    ensures a == b && AtLeastOne(a) && |a| == |pieces|
  {
  }

  lemma FitsExactly(p: Path, step: real, maxPoints: nat, asked: seq<nat>)
    requires IsPath(p) && step > 0.0 && AsAsked(p, AllPieces(p), asked, step)
    ensures Fits(p, step, maxPoints) <==> Sum(asked) <= Allowed(|asked|, maxPoints)
  {
    hide AsAsked, Pieces;
    forall other | AsAsked(p, AllPieces(p), other, step) ensures other == asked {
      AskedOnce(p, AllPieces(p), other, asked, step);
    }
  }

  /** What the budget makes of the counts asked for is fitted. */
  lemma BudgetFits(p: Path, step: real, maxPoints: nat, asked: seq<nat>, counts: seq<nat>)
    requires IsPath(p) && step > 0.0 && AsAsked(p, AllPieces(p), asked, step)
    requires var allowed := Allowed(|asked|, maxPoints);
             if Sum(asked) <= allowed then counts == asked
             else
               && Sum(counts) == allowed && Capped(counts, asked)
               && Fair(counts, Exact(asked, allowed, Sum(asked)), allowed)
    ensures Fitted(p, step, maxPoints, counts)
  {
    hide AsAsked, Pieces, Fair, Shares, Fits, Exact;
    var allowed := Allowed(|asked|, maxPoints);
    AskedOnce(p, AllPieces(p), asked, asked, step);
    FitsExactly(p, step, maxPoints, asked);
    if Sum(asked) > allowed {
      forall other, exact | AsAsked(p, AllPieces(p), other, step) && SharedBy(exact, other, maxPoints)
        ensures Fair(counts, exact, allowed)
      {
        AskedOnce(p, AllPieces(p), other, asked, step);
        SharesOnce(exact, Exact(asked, allowed, Sum(asked)), asked, allowed, Sum(asked));
      }
    }
  }

  lemma FittedIsGood(p: Path, step: real, maxPoints: nat, counts: seq<nat>)
    requires IsPath(p) && step > 0.0 && Fitted(p, step, maxPoints, counts)
    ensures GoodBlend(p, step, maxPoints, Blend(p, counts))
  {
    hide Pieces, Tried, NoSlivers, Fits, StepsWithin, Between, AsAsked, Thin, GapsWithin, WideSlivers;
    var out := Blend(p, counts);
    var tried := Tried(p, AllPieces(p), counts, |counts|);
    StartsAtFirst(p);
    TriedEnds(p, AllPieces(p), counts, |counts|);
    ThinEnds(tried, p.joints);
    BlendSize(p, counts);
    forall j: nat, lo: real, hi: real | j < p.joints && Between(p.waypoints, j, lo, hi)
      ensures Between(out, j, lo, hi)
    {
      BlendStaysBetween(p, counts, j, lo, hi);
    }
    if NoSlivers(p) {
      NoGapWithoutSlivers(p);
      NoWideSlivers(p, |p.waypoints| - 1);
    }
    if Fits(p, step, maxPoints) {
      forall g | GapsWithin(p, g) ensures StepsWithin(out, p.joints, Max(2.0 * step, g) + MERGE) {
        BlendSteps(p, step, counts, g);
      }
    }
    if StepsWithin(out, p.joints, 2.0 * step + MERGE) {
      BoundedGaps(p, step, counts);
    }
    ThinApart(tried, p.joints);
  }

  lemma NothingAsked(p: Path, step: real)
    requires WellShaped(p) && step > 0.0
    ensures AsAsked(p, [], [], step)
  {
  }

  /** What the corners take of each segment: nothing where there is no corner. */
  method Trims(p: Path) returns (exit: seq<real>, entry: seq<real>)
    requires IsPath(p)
    ensures |exit| == |entry| == |p.waypoints| - 1
    ensures forall k | 0 <= k < |p.waypoints| - 1 :: exit[k] == Exit(p, k) && entry[k] == Entry(p, k)
  {
    hide WellShaped;
    var n := |p.waypoints|;
    exit, entry := seq(n - 1, _ => 0.0), seq(n - 1, _ => 0.0);
    for i := 0 to |p.fracs|
      invariant |exit| == |entry| == n - 1
      invariant forall k | 0 <= k < n - 1 :: exit[k] == if k < i then Exit(p, k) else 0.0
      invariant forall k | 0 <= k < n - 1 :: entry[k] == if k < i + 1 then Entry(p, k) else 0.0
    {
      exit := exit[i := Clamp(p.fracs[i].0, 0.0, 0.5)];
      entry := entry[i + 1 := Clamp(p.fracs[i].1, 0.0, 0.5)];
    }
  }

  /** The pieces of a path and the intervals each asks for. */
  method CutPieces(p: Path, step: real) returns (pieces: seq<Piece>, counts: seq<nat>)
    requires IsPath(p) && step > 0.0
    ensures pieces == AllPieces(p) && AsAsked(p, pieces, counts, step)
  {
    hide Motion, Span, Lerp, Interval, Exit, Entry, AsAsked;
    var n := |p.waypoints|;
    var exit, entry := Trims(p);
    NothingAsked(p, step);
    pieces, counts := [], [];
    for i := 0 to n - 1
      invariant pieces == Pieces(p, i) && AsAsked(p, pieces, counts, step)
    {
      var a, b := entry[i], 1.0 - exit[i];
      if b > a + MERGE {
        SegmentAsAsked(p, pieces, counts, Line(i, a, b), step);
        counts := counts + [Interval(Motion(p, Line(i, a, b)), step)];
        pieces := pieces + [Line(i, a, b)];
      }
      if i + 1 < n - 1 && (exit[i] > 0.0 || entry[i + 1] > 0.0) {
        SegmentAsAsked(p, pieces, counts, Corner(i), step);
        counts := counts + [Interval(Motion(p, Corner(i)), step)];
        pieces := pieces + [Corner(i)];
      }
    }
  }

  /** The points of all pieces, each left out where the path already is. */
  method Sample(p: Path, pieces: seq<Piece>, counts: seq<nat>) returns (out: seq<Joints>)
    requires IsPath(p) && pieces == AllPieces(p) && |counts| == |pieces| && AtLeastOne(counts)
    ensures out == Blend(p, counts)
  {
    hide Pieces, PointAt, Push;
    out := [];
    for m := 0 to |pieces|
      invariant out == Thin(Tried(p, pieces, counts, m), p.joints)
    {
      var steps := counts[m];
      ghost var before := Tried(p, pieces, counts, m);
      assert before + Row(p, pieces[m], steps, 0) == before;
      for k := 0 to steps + 1
        invariant SameShape(before + Row(p, pieces[m], steps, k), p.joints)
        invariant out == Thin(before + Row(p, pieces[m], steps, k), p.joints)
      {
        var q := PointAt(p, pieces[m], k as real / steps as real);
        ghost var tried := before + Row(p, pieces[m], steps, k);
        assert before + Row(p, pieces[m], steps, k + 1) == tried + [q];
        assert (tried + [q])[..|tried|] == tried;
        out := Push(out, q);
      }
    }
  }

  /** The blended path; a path of two or more waypoints always has one. */
  method BlendedPolylineJoint(p: Path, step: real, maxPoints: nat) returns (r: Result<seq<Joints>, Error>)
    requires WellShaped(p) && step > 0.0
    ensures r == Err(TooFewWaypoints) <==> |p.waypoints| < 2
    ensures r == Err(WrongCornerCount) <==> |p.waypoints| >= 2 && |p.fracs| + 2 != |p.waypoints|
    ensures r.Ok? <==> IsPath(p)
    ensures r.Ok? ==> GoodBlend(p, step, maxPoints, r.value)
    ensures r.Ok? ==> exists counts :: Fitted(p, step, maxPoints, counts) && r.value == Blend(p, counts)
  {
    hide GoodBlend, AsAsked, Fitted, Fair, Exact, Pieces;
    if |p.waypoints| < 2 {
      return Err(TooFewWaypoints);
    }
    if |p.fracs| + 2 != |p.waypoints| {
      return Err(WrongCornerCount);
    }
    var pieces, asked := CutPieces(p, step);
    StartsAtFirst(p);
    if pieces == [] {
      assert false;
      return Err(NoLength);
    }
    AskedOnce(p, pieces, asked, asked, step);
    var counts := new nat[|asked|](i requires 0 <= i < |asked| => asked[i]);
    assert counts[..] == asked;
    FitBudget(counts, maxPoints);
    ghost var fitted := counts[..];
    BudgetFits(p, step, maxPoints, asked, fitted);
    FittedIsGood(p, step, maxPoints, fitted);
    var out := Sample(p, pieces, counts[..]);
    return Ok(out);
  }

  // -------------------------------------------------------- when the point bound holds

  /** Every piece's ends are at least twice the merging distance apart. */
  ghost predicate EndsApart(p: Path)
    requires IsPath(p)
  {
    forall m | 0 <= m < |AllPieces(p)| :: Span(Start(p, AllPieces(p)[m]), End(p, AllPieces(p)[m])) >= 2.0 * MERGE
  }

  predicate Ones(counts: seq<nat>) {
    forall k | 0 <= k < |counts| :: counts[k] == 1
  }

  lemma {:induction false} SpanSymmetric(a: Joints, b: Joints)
    requires |a| == |b|
    ensures Span(a, b) == Span(b, a)
    decreases |a|
  {
    if a != [] {
      SpanSymmetric(a[..|a| - 1], b[..|b| - 1]);
    }
  }

  lemma OneInterval(p: Path, piece: Piece)
    requires WellShaped(p) && IsPiece(p, piece)
    ensures Row(p, piece, 1, 2) == [Start(p, piece)] + [End(p, piece)]
  {
    hide PointAt;
    RowAt(p, piece, 1, 2, 0);
    RowAt(p, piece, 1, 2, 1);
  }

  /** Of a far pair the second is always kept, and the first unless the path is already near it. */
  lemma PushPair(out: seq<Joints>, start: Joints, end: Joints)
    requires |start| == |end| && SameShape(out, |start|) && Span(start, end) >= 2.0 * MERGE
    ensures var first := Push(out, start);
            var r := Push(first, end);
            && r[|r| - 1] == end
            && |r| == |out| + 1 + if out == [] || Span(out[|out| - 1], start) >= MERGE then 1 else 0
  {
    if out != [] {
      var last := out[|out| - 1];
      SpanTriangle(start, last, end);
      SpanSymmetric(last, start);
    }
  }

  /** With one interval each, every piece's end is kept, and its start exactly after a wide join. */
  lemma {:induction false} OnesSize(p: Path, counts: seq<nat>, m: nat)
    requires IsPath(p) && |counts| == |AllPieces(p)| && Ones(counts) && EndsApart(p) && 0 < m <= |counts|
    ensures var out := Thin(Tried(p, AllPieces(p), counts, m), p.joints);
            && |out| == m + 1 + WideJoins(p, AllPieces(p), m)
            && out != [] && out[|out| - 1] == End(p, AllPieces(p)[m - 1])
    decreases m
  {
    hide PointAt, Pieces, Row, Push, Span, Dropped, Thin;
    var pieces, n := AllPieces(p), p.joints;
    var piece := pieces[m - 1];
    var start, end := Start(p, piece), End(p, piece);
    var before := Tried(p, pieces, counts, m - 1);
    OneInterval(p, piece);
    assert Tried(p, pieces, counts, m) == (before + [start]) + [end];
    ThinNext(before, start, n);
    ThinNext(before + [start], end, n);
    PushPair(Thin(before, n), start, end);
    if m > 1 {
      OnesSize(p, counts, m - 1);
    } else {
      NothingThinned(n);
    }
  }

  lemma {:induction false} TightOnes(counts: seq<nat>)
    requires AtLeastOne(counts) && Sum(counts) <= |counts|
    ensures Ones(counts)
  {
    if counts != [] {
      var init := counts[..|counts| - 1];
      SumAtLeast(init);
      TightOnes(init);
      assert counts == init + [counts[|counts| - 1]];
    }
  }

  lemma {:induction false} SumOfOnes(counts: seq<nat>)
    requires Ones(counts)
    ensures Sum(counts) == |counts|
  {
    if counts != [] {
      SumOfOnes(counts[..|counts| - 1]);
    }
  }

  /** Asked for no points at all, the path has one interval per piece, and a point more for each wide sliver. */
  lemma TightBlend(p: Path, step: real, counts: seq<nat>)
    requires IsPath(p) && step > 0.0 && Fitted(p, step, 0, counts) && EndsApart(p)
    ensures |Blend(p, counts)| == Allowed(|AllPieces(p)|, 0) + 1 + WideSlivers(p, |p.waypoints| - 1)
  {
    hide Pieces, Tried, Fits, EndsApart, WideSlivers, WideJoins, AsAsked;
    StartsAtFirst(p);
    TightOnes(counts);
    OnesSize(p, counts, |counts|);
    JoinsAreSlivers(p, |p.waypoints| - 1);
  }

  /** At every budget some counts are fitted; at none at all it is one interval for each piece. */
  lemma TightCounts(p: Path, step: real) returns (counts: seq<nat>)
    requires IsPath(p) && step > 0.0
    ensures Fitted(p, step, 0, counts)
  {
    hide Pieces, Interval, Motion;
    counts := seq(|AllPieces(p)|, _ => 1);
    SumOfOnes(counts);
    var asked := seq(|AllPieces(p)|, m requires 0 <= m < |AllPieces(p)| => Interval(Motion(p, AllPieces(p)[m]), step));
    assert AsAsked(p, AllPieces(p), asked, step);
    hide AsAsked, Fair, Exact, Ones;
    var n := |asked|;
    if Sum(asked) <= n {
      AskedOnce(p, AllPieces(p), asked, asked, step);
      TightOnes(asked);
      OnesAlike(asked, counts);
    } else {
      OnesShared(asked, counts, Exact(asked, n, Sum(asked)));
    }
    BudgetFits(p, step, 0, asked, counts);
  }

  lemma OnesAlike(a: seq<nat>, b: seq<nat>)
    requires |a| == |b| && Ones(a) && Ones(b)
    ensures a == b
  {
  }

  lemma OnesShared(asked: seq<nat>, ones: seq<nat>, exact: seq<real>)
    requires AtLeastOne(asked) && |ones| == |asked| < Sum(asked) && Ones(ones)
    requires Shares(exact, asked, |asked|, Sum(asked))
    ensures Capped(ones, asked) && Fair(ones, exact, |ones|)
  {
    SharesSum(exact, asked, |asked|, Sum(asked));
    WholeShare(|asked|, Sum(asked));
    hide Shares, Fair;
    OnesFair(ones, exact);
  }

  /**
   For paths whose pieces' ends are apart, the bound of the greater of the budget and the pieces
   plus one holds for all pitches and budgets exactly when no sliver is as wide as the merging distance.
   */
  lemma PointBoundExactly(p: Path)
    requires IsPath(p) && EndsApart(p)
    ensures (forall step, maxPoints, counts | step > 0.0 && Fitted(p, step, maxPoints, counts) ::
               |Blend(p, counts)| <= Allowed(|AllPieces(p)|, maxPoints) + 1) <==>
            WideSlivers(p, |p.waypoints| - 1) == 0
  {
    hide Pieces, Tried, Thin, EndsApart, WideSlivers, AsAsked;
    if WideSlivers(p, |p.waypoints| - 1) == 0 {
      forall step, maxPoints, counts | step > 0.0 && Fitted(p, step, maxPoints, counts)
        ensures |Blend(p, counts)| <= Allowed(|AllPieces(p)|, maxPoints) + 1
      {
        BlendSize(p, counts);
      }
    } else {
      var counts := TightCounts(p, 1.0);
      TightBlend(p, 1.0, counts);
      assert Fitted(p, 1.0, 0, counts);
    }
  }

  /** Two corners that leave less than the merging distance of a segment `span` long between them. */
  function SliverPath(span: real): Path {
    Path(1, [[0.0], [1.0], [1.0 + span], [2.0 + span]], [(0.0, 0.5), (0.4999999999991, 0.0)])
  }

  lemma SliverPieces(span: real)
    ensures IsPath(SliverPath(span))
    ensures AllPieces(SliverPath(span)) == [Line(0, 0.0, 1.0), Corner(0), Corner(1), Line(2, 0.0, 1.0)]
  {
    var p := SliverPath(span);
    assert Pieces(p, 1) == [Line(0, 0.0, 1.0), Corner(0)];
    assert Pieces(p, 2) == [Line(0, 0.0, 1.0), Corner(0), Corner(1)];
  }

  lemma SliverTrims(span: real)
    ensures var p := SliverPath(span);
            && Entry(p, 0) == 0.0 && Exit(p, 0) == 0.0 && Entry(p, 1) == 0.5 && Exit(p, 1) == 0.4999999999991
            && Entry(p, 2) == 0.0 && Exit(p, 2) == 0.0
  {
  }

  lemma SliverShape(span: real)
    ensures var p := SliverPath(span);
            && IsPath(p) && p.joints == 1 && |p.waypoints| == 4 && p.waypoints[0] == [0.0] && p.waypoints[1] == [1.0]
            && p.waypoints[2] == [1.0 + span] && p.waypoints[3] == [2.0 + span]
  {
  }

  lemma OneJointDoors(p: Path, i: nat, x: real, span: real, s: real, t: real, door: real, leave: real)
    requires WellShaped(p) && i + 1 < |p.waypoints| && p.waypoints[i] == [x] && p.waypoints[i + 1] == [x + span]
    requires s == Entry(p, i) && t == 1.0 - Exit(p, i) && door == x + s * span && leave == x + t * span
    ensures Door(p, i) == [door] && Leave(p, i) == [leave]
  {
    MixFrom(x, span, s);
    MixFrom(x, span, t);
    hide Mix;
  }

  lemma OneJointSpan(x: real, y: real)
    ensures Span([x], [y]) == Abs(y - x)
  {
    assert [x][..0] == [] && [y][..0] == [];
  }

  lemma SliverDoors(span: real)
    ensures IsPath(SliverPath(span)) && |SliverPath(span).waypoints| == 4
    ensures var p := SliverPath(span);
            && Door(p, 0) == [0.0] && Leave(p, 0) == [1.0]
            && Door(p, 1) == [1.0 + 0.5 * span] && Leave(p, 1) == [1.0 + 0.5000000000009 * span]
            && Door(p, 2) == [1.0 + span] && Leave(p, 2) == [2.0 + span]
            && HasLine(p, 0) && !HasLine(p, 1) && HasLine(p, 2)
  {
    SliverTrims(span);
    SliverShape(span);
    hide SliverPath, Door, Leave, IsPath, WellShaped;
    var p := SliverPath(span);
    assert 1.0 - Exit(p, 1) == 0.5000000000009;
    hide Entry, Exit;
    OneJointDoors(p, 0, 0.0, 1.0, 0.0, 1.0, 0.0, 1.0);
    OneJointDoors(p, 1, 1.0, span, 0.5, 0.5000000000009, 1.0 + 0.5 * span, 1.0 + 0.5000000000009 * span);
    OneJointDoors(p, 2, 1.0 + span, 1.0, 0.0, 1.0, 1.0 + span, 2.0 + span);
  }

  lemma MixFrom(x: real, span: real, t: real)
    ensures Mix(x, x + span, t) == x + t * span
  {
  }

  lemma PieceEnds(p: Path, piece: Piece)
    requires WellShaped(p) && IsPiece(p, piece)
    ensures Start(p, piece) == (if piece.Line? then Door(p, piece.i) else Leave(p, piece.i))
    ensures End(p, piece) == (if piece.Line? then Leave(p, piece.i) else Door(p, piece.i + 1))
  {
    hide PointAt, Door, Leave;
    match piece
    case Line(i, a, b) => LineEnds(p, i, a, b);
    case Corner(i) => CornerEnds(p, i);
  }

  lemma SliverEndsApart(span: real)
    requires span >= 1.0
    ensures IsPath(SliverPath(span)) && EndsApart(SliverPath(span))
  {
    var p := SliverPath(span);
    SliverPieces(span);
    SliverDoors(span);
    hide PointAt, Pieces, SliverPath, Door, Leave, Span;
    var s := AllPieces(p);
    PieceEnds(p, s[0]);
    PieceEnds(p, s[1]);
    PieceEnds(p, s[2]);
    PieceEnds(p, s[3]);
    OneJointSpan(0.0, 1.0);
    OneJointSpan(1.0, 1.0 + 0.5 * span);
    OneJointSpan(1.0 + 0.5000000000009 * span, 1.0 + span);
    OneJointSpan(1.0 + span, 2.0 + span);
  }

  /** Its gap is as wide as the merging distance when its span is at least 10/9. */
  lemma SliverWidth(span: real)
    requires span >= 1.0
    ensures IsPath(SliverPath(span)) && |SliverPath(span).waypoints| == 4
    ensures WideSlivers(SliverPath(span), 3) == if 0.9 * span >= 1.0 then 1 else 0
  {
    var p := SliverPath(span);
    SliverDoors(span);
    hide HasLine, SliverPath, Door, Leave, Span;
    OneJointSpan(1.0 + 0.5 * span, 1.0 + 0.5000000000009 * span);
    assert WideSliver(p, 0) == 0 && WideSliver(p, 2) == 0;
    assert WideSlivers(p, 1) == 0 && WideSlivers(p, 2) == WideSliver(p, 1);
  }

  /** A pitch finer than any in use. */
  const FINE: real := 0.0000000000001

  /**
   Over three radians the sliver costs a point at every pitch: a budget of no points, four pieces,
   and six points. Over one radian the bound holds for every pitch and budget.
   */
  lemma SliverAddsPoint(step: real, counts: seq<nat>)
    requires IsPath(SliverPath(3.0)) && step > 0.0 && Fitted(SliverPath(3.0), step, 0, counts)
    ensures |AllPieces(SliverPath(3.0))| == 4 && |Blend(SliverPath(3.0), counts)| == 6 == Allowed(4, 0) + 2
    ensures IsPath(SliverPath(1.0)) && !NoSlivers(SliverPath(1.0))
    ensures forall pitch, maxPoints, fitted | pitch > 0.0 && Fitted(SliverPath(1.0), pitch, maxPoints, fitted) ::
              |Blend(SliverPath(1.0), fitted)| <= Allowed(4, maxPoints) + 1
  {
    SliverPieces(3.0);
    SliverPieces(1.0);
    SliverEndsApart(3.0);
    SliverEndsApart(1.0);
    SliverWidth(3.0);
    SliverWidth(1.0);
    SliverNotWhole();
    hide Pieces, Fitted, Blend, EndsApart, WideSlivers, NoSlivers;
    TightBlend(SliverPath(3.0), step, counts);
    PointBoundExactly(SliverPath(1.0));
  }

  /** What the pieces ask for, and a budget that allows it. */
  lemma AskedFits(p: Path, step: real) returns (maxPoints: nat, counts: seq<nat>)
    requires IsPath(p) && step > 0.0
    ensures Fits(p, step, maxPoints) && Fitted(p, step, maxPoints, counts)
  {
    hide Pieces, Fits, Interval, Motion;
    counts := seq(|AllPieces(p)|, m requires 0 <= m < |AllPieces(p)| => Interval(Motion(p, AllPieces(p)[m]), step));
    assert AsAsked(p, AllPieces(p), counts, step);
    maxPoints := Sum(counts) + 1;
    AskedOnce(p, AllPieces(p), counts, counts, step);
    FitsExactly(p, step, maxPoints, counts);
  }

  /** Over three radians the gap is 2.7e-12: at a pitch of 1e-13 some step exceeds two pitches and 1e-12. */
  lemma SliverLongStep() returns (maxPoints: nat, counts: seq<nat>)
    ensures IsPath(SliverPath(3.0)) && Fits(SliverPath(3.0), FINE, maxPoints)
    ensures Fitted(SliverPath(3.0), FINE, maxPoints, counts)
    ensures !StepsWithin(Blend(SliverPath(3.0), counts), SliverPath(3.0).joints, 2.0 * FINE + MERGE)
  {
    var p := SliverPath(3.0);
    SliverShape(3.0);
    SliverDoors(3.0);
    hide SliverPath, Door, Leave, HasLine, Fits, Span, Thin, Tried, StepsWithin;
    OneJointSpan(1.0 + 0.5 * 3.0, 1.0 + 0.5000000000009 * 3.0);
    assert !GapWithin(p, 1, 2.0 * FINE + 2.0 * MERGE);
    maxPoints, counts := AskedFits(p, FINE);
    if StepsWithin(Blend(p, counts), p.joints, 2.0 * FINE + MERGE) {
      BoundedGaps(p, FINE, counts);
    }
  }

  lemma SliverNotWhole()
    ensures !NoSlivers(SliverPath(1.0))
  {
    SliverTrims(1.0);
    assert !Whole(SliverPath(1.0), 1);
  }
}
