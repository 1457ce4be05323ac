/** Keying a joint path to the distance its tool travels, and the one rate its steepest stretch allows. */
module ArcKnots {
  import opened Reals
  import opened Wrappers

  type Joints = seq<real>

  /** Arc-length steps up to this are a repeated waypoint, and slopes up to this none at all. */
  const MIN_SPAN: real := 0.000000000001

  /** The knots' normalised tool distances, their joint vectors, and the distance travelled. */
  datatype Knots = Knots(s: seq<real>, q: seq<Joints>, length: real)

  predicate Shaped(q: seq<Joints>, n: nat) {
    forall i | 0 <= i < |q| :: |q[i]| == n
  }

  // -------------------------------------------------------------------------- arc lengths

  ghost predicate Ascending(s: seq<real>) {
    forall i, k | 0 <= i <= k < |s| :: s[i] <= s[k]
  }

  /** One step of the tool: how far it moves and how far it turns. */
  datatype Turn = Turn(translation: real, rotation: real)

  /** A step's length: the hypotenuse of its translation and the arc its weighted rotation sweeps. */
  function Length(sqrt: real -> real, step: Turn, weight: real): real {
    var t, r := step.translation, weight * step.rotation;
    sqrt(t * t + r * r)
  }

  /** A right angle's hypotenuse: neither leg is longer, and it is nothing only when both are. */
  lemma LengthCovers(sqrt: real -> real, step: Turn, weight: real)
    requires IsSqrt(sqrt)
    ensures var h, r := Length(sqrt, step, weight), weight * step.rotation;
            && h >= 0.0 && h * h == step.translation * step.translation + r * r
            && Abs(step.translation) <= h && Abs(r) <= h
            && (h == 0.0 <==> step.translation == 0.0 == r)
  {
    var h, t, r := Length(sqrt, step, weight), step.translation, weight * step.rotation;
    assert Square(t) + Square(r) == t * t + r * r;
    LegWithin(t, r, h);
    LegWithin(r, t, h);
    assert Square(h) == h * h;
  }

  lemma LegWithin(leg: real, other: real, h: real)
    requires h >= 0.0 && h * h == leg * leg + other * other
    ensures Abs(leg) <= h
  {
    assert Square(other) == other * other;
    assert Abs(leg) * Abs(leg) == leg * leg;
    SquaresOrder(Abs(leg), h);
  }

  /** The distances covered so far; a step that only turns covers distance too. */
  method ToolArcLengths(sqrt: real -> real, steps: seq<Turn>, weight: real) returns (out: seq<real>)
    requires IsSqrt(sqrt)
    ensures |out| == |steps| + 1 && out[0] == 0.0 && Ascending(out)
    ensures forall i | 0 <= i < |steps| :: out[i + 1] - out[i] == Length(sqrt, steps[i], weight)
    ensures forall i | 0 <= i < |steps| ::
              out[i + 1] == out[i] <==> steps[i].translation == 0.0 == weight * steps[i].rotation
  {
    hide Length;
    var acc := 0.0;
    out := [acc];
    for i := 0 to |steps|
      invariant |out| == i + 1 && out[0] == 0.0 && out[i] == acc && Ascending(out)
      invariant forall k | 0 <= k < i :: out[k + 1] - out[k] == Length(sqrt, steps[k], weight)
      invariant forall k | 0 <= k < i ::
                  out[k + 1] == out[k] <==> steps[k].translation == 0.0 == weight * steps[k].rotation
    {
      LengthCovers(sqrt, steps[i], weight);
      acc := acc + Length(sqrt, steps[i], weight);
      out := out + [acc];
    }
  }

  /** A step's translation is at most a share of its length; steps too short to count are left out. */
  ghost predicate WithinShare(sqrt: real -> real, step: Turn, weight: real, share: real) {
    Length(sqrt, step, weight) > MIN_SPAN ==> step.translation <= share * Length(sqrt, step, weight)
  }

  /**
   The least share of its length, nothing at least, that no step's translation exceeds: holding the
   rate along the length to a linear limit over this share holds every translation to the limit.
   */
  method MaxTranslationShare(sqrt: real -> real, steps: seq<Turn>, weight: real) returns (share: real)
    requires IsSqrt(sqrt)
    ensures 0.0 <= share <= 1.0
    ensures forall i | 0 <= i < |steps| :: WithinShare(sqrt, steps[i], weight, share)
    ensures share > 0.0 ==> exists i :: 0 <= i < |steps| && Attains(sqrt, steps[i], weight, share)
  {
    hide Length, WithinShare, Attains;
    share := 0.0;
    for i := 0 to |steps|
      invariant 0.0 <= share <= 1.0
      invariant forall k | 0 <= k < i :: WithinShare(sqrt, steps[k], weight, share)
      invariant share > 0.0 ==> exists k :: 0 <= k < i && Attains(sqrt, steps[k], weight, share)
    {
      var span := Length(sqrt, steps[i], weight);
      var own := if span > MIN_SPAN then steps[i].translation / span else 0.0;
      OwnShare(sqrt, steps[i], weight, own);
      var wider := Max(share, own);
      forall k | 0 <= k < i ensures WithinShare(sqrt, steps[k], weight, wider) {
        WiderShare(sqrt, steps[k], weight, share, wider);
      }
      WiderShare(sqrt, steps[i], weight, own, wider);
      share := wider;
    }
  }

  ghost predicate Attains(sqrt: real -> real, step: Turn, weight: real, share: real) {
    Length(sqrt, step, weight) > MIN_SPAN && step.translation == share * Length(sqrt, step, weight)
  }

  lemma OwnShare(sqrt: real -> real, step: Turn, weight: real, own: real)
    requires IsSqrt(sqrt)
    requires var span := Length(sqrt, step, weight);
             own == if span > MIN_SPAN then step.translation / span else 0.0
    ensures own <= 1.0 && WithinShare(sqrt, step, weight, own)
    ensures own > 0.0 ==> Attains(sqrt, step, weight, own)
  {
    var span := Length(sqrt, step, weight);
    LengthCovers(sqrt, step, weight);
    hide Length;
    if span > MIN_SPAN {
      Quotient(step.translation, span);
      if own > 1.0 {
        ProductSign(own - 1.0, span);
      }
    }
  }

  lemma WiderShare(sqrt: real -> real, step: Turn, weight: real, share: real, wider: real)
    requires WithinShare(sqrt, step, weight, share) && share <= wider
    ensures WithinShare(sqrt, step, weight, wider)
  {
    hide Length;
    var span := Length(sqrt, step, weight);
    if span > MIN_SPAN {
      ProductSign(wider - share, span);
    }
  }

  // --------------------------------------------------------------------------------- knots

  function Normal(cartS: seq<real>, i: nat): real
    requires i < |cartS| && cartS[|cartS| - 1] - cartS[0] > 0.0
  {
    (cartS[i] - cartS[0]) / (cartS[|cartS| - 1] - cartS[0])
  }

  /** Knot `k` is waypoint `at`. */
  ghost predicate KnotIs(cartS: seq<real>, q: seq<Joints>, s: real, joints: Joints, at: nat)
    requires |q| == |cartS| && cartS != [] && cartS[|cartS| - 1] - cartS[0] > 0.0
  {
    at < |q| && s == Normal(cartS, at) && joints == q[at]
  }

  /** `from` lists the waypoints kept out of the first `n`, the last of them `last` of the way along. */
  ghost predicate Kept(cartS: seq<real>, q: seq<Joints>, s: seq<real>, qs: seq<Joints>, from: seq<nat>, n: nat)
    requires |q| == |cartS| && cartS != [] && cartS[|cartS| - 1] - cartS[0] > 0.0
  {
    && |s| == |qs| == |from| && n <= |q|
    && (forall k | 0 <= k < |s| :: from[k] < n && KnotIs(cartS, q, s[k], qs[k], from[k]))
    && (forall k | 0 <= k < |s| - 1 :: from[k] < from[k + 1] && s[k + 1] - s[k] > MIN_SPAN)
    && (n > 0 ==> s != [] && from[0] == 0)
    && (n > 0 ==> Normal(cartS, n - 1) - s[|s| - 1] <= MIN_SPAN)
  }

  /** A waypoint that is left out covers no distance beyond a knot before it. */
  ghost predicate Covered(cartS: seq<real>, s: seq<real>, from: seq<nat>, i: nat)
    requires i < |cartS| && cartS[|cartS| - 1] - cartS[0] > 0.0 && |s| == |from|
  {
    exists k :: 0 <= k < |s| && from[k] <= i && Normal(cartS, i) - s[k] <= MIN_SPAN
  }

  lemma NormalEnds(cartS: seq<real>)
    requires cartS != [] && cartS[|cartS| - 1] - cartS[0] > 0.0
    ensures Normal(cartS, 0) == 0.0 && Normal(cartS, |cartS| - 1) == 1.0
  {
    var total := cartS[|cartS| - 1] - cartS[0];
    assert total / total == 1.0;
  }

  lemma NormalAscends(cartS: seq<real>, i: nat, k: nat)
    requires Ascending(cartS) && i <= k < |cartS| && cartS[|cartS| - 1] - cartS[0] > 0.0
    ensures Normal(cartS, i) <= Normal(cartS, k)
  {
    assert cartS[i] <= cartS[k];
    Quotients(cartS[i] - cartS[0], cartS[k] - cartS[0], cartS[|cartS| - 1] - cartS[0]);
  }

  lemma Quotients(x: real, y: real, d: real)
    requires x <= y && d > 0.0
    ensures x / d <= y / d
  {
  }

  ghost predicate StrictlyAscending(s: seq<real>) {
    forall i, k | 0 <= i < k < |s| :: s[i] < s[k]
  }

  lemma {:induction false} GapsAscend(s: seq<real>)
    requires forall k | 0 <= k < |s| - 1 :: s[k + 1] - s[k] > MIN_SPAN
    ensures StrictlyAscending(s)
  {
    if s != [] {
      GapsAscend(s[..|s| - 1]);
      forall i, k | 0 <= i < k < |s| ensures s[i] < s[k] {
        assert k < |s| - 1 ==> s[..|s| - 1][i] < s[..|s| - 1][k];
        assert k == |s| - 1 && i < k - 1 ==> s[..|s| - 1][i] < s[..|s| - 1][k - 1];
      }
    }
  }

  /** What a caller gets: the waypoints that cover distance, keyed to where along the way they are. */
  ghost predicate KeyedTo(cartS: seq<real>, q: seq<Joints>, r: Knots, from: seq<nat>)
    requires |q| == |cartS| && cartS != [] && cartS[|cartS| - 1] - cartS[0] > 0.0
  {
    && |r.s| == |r.q| == |from| >= 2 && r.length == cartS[|cartS| - 1] - cartS[0]
    && StrictlyAscending(r.s) && r.s[0] == 0.0 && 1.0 - r.s[|r.s| - 1] <= MIN_SPAN
    && (Ascending(cartS) ==> r.s[|r.s| - 1] <= 1.0)
    && (forall k | 0 <= k < |r.s| :: KnotIs(cartS, q, r.s[k], r.q[k], from[k]))
    && (forall k | 0 <= k < |from| - 1 :: from[k] < from[k + 1])
    && (forall i | 0 <= i < |q| :: Covered(cartS, r.s, from, i))
  }

  lemma JustCovered(cartS: seq<real>, s: seq<real>, from: seq<nat>, i: nat, k: nat)
    requires i < |cartS| && cartS[|cartS| - 1] - cartS[0] > 0.0 && |s| == |from|
    requires k < |s| && from[k] <= i && Normal(cartS, i) - s[k] <= MIN_SPAN
    ensures Covered(cartS, s, from, i)
  {
  }

  lemma StaysCovered(cartS: seq<real>, s: seq<real>, from: seq<nat>, s2: seq<real>, from2: seq<nat>, i: nat)
    requires i < |cartS| && cartS[|cartS| - 1] - cartS[0] > 0.0 && |s| == |from| && |s2| == |from2|
    requires s <= s2 && from <= from2 && Covered(cartS, s, from, i)
    ensures Covered(cartS, s2, from2, i)
  {
    var k :| 0 <= k < |s| && from[k] <= i && Normal(cartS, i) - s[k] <= MIN_SPAN;
    assert s2[k] == s[k] && from2[k] == from[k];
  }

  ghost predicate AllCovered(cartS: seq<real>, s: seq<real>, from: seq<nat>, n: nat)
    requires n <= |cartS| && cartS != [] && cartS[|cartS| - 1] - cartS[0] > 0.0 && |s| == |from|
  {
    forall i | 0 <= i < n :: Covered(cartS, s, from, i)
  }

  /** A waypoint no further than the merging span past the last knot is left out. */
  lemma LeaveOut(cartS: seq<real>, q: seq<Joints>, s: seq<real>, qs: seq<Joints>, from: seq<nat>, n: nat)
    requires |q| == |cartS| && n < |q| && cartS[|cartS| - 1] - cartS[0] > 0.0
    requires Kept(cartS, q, s, qs, from, n) && AllCovered(cartS, s, from, n)
    requires s != [] && Normal(cartS, n) - s[|s| - 1] <= MIN_SPAN
    ensures Kept(cartS, q, s, qs, from, n + 1) && AllCovered(cartS, s, from, n + 1)
  {
    hide Normal, Covered, KnotIs;
    JustCovered(cartS, s, from, n, |s| - 1);
  }

  /** Any other becomes a knot. */
  lemma TakeIn(cartS: seq<real>, q: seq<Joints>, s: seq<real>, qs: seq<Joints>, from: seq<nat>, n: nat)
    requires |q| == |cartS| && n < |q| && cartS[|cartS| - 1] - cartS[0] > 0.0
    requires Kept(cartS, q, s, qs, from, n) && AllCovered(cartS, s, from, n)
    requires s != [] ==> Normal(cartS, n) - s[|s| - 1] > MIN_SPAN
    ensures Kept(cartS, q, s + [Normal(cartS, n)], qs + [q[n]], from + [n], n + 1)
    ensures AllCovered(cartS, s + [Normal(cartS, n)], from + [n], n + 1)
  {
    hide Normal, Covered;
    var s2, from2 := s + [Normal(cartS, n)], from + [n];
    forall i | 0 <= i < n + 1 ensures Covered(cartS, s2, from2, i) {
      if i < n {
        StaysCovered(cartS, s, from, s2, from2, i);
      } else {
        JustCovered(cartS, s2, from2, n, |s|);
      }
    }
  }

  lemma KeptIsKeyed(cartS: seq<real>, q: seq<Joints>, s: seq<real>, qs: seq<Joints>, from: seq<nat>)
    requires |q| == |cartS| && cartS != [] && cartS[|cartS| - 1] - cartS[0] > MIN_SPAN
    requires Kept(cartS, q, s, qs, from, |q|) && AllCovered(cartS, s, from, |q|)
    ensures |s| >= 2
    ensures KeyedTo(cartS, q, Knots(s, qs, cartS[|cartS| - 1] - cartS[0]), from)
  {
    hide Normal, Covered;
    NormalEnds(cartS);
    GapsAscend(s);
    if Ascending(cartS) {
      NormalAscends(cartS, from[|from| - 1], |cartS| - 1);
    }
  }

  /** The keyed path, or nothing when the tool covers no distance; a path with extent always has two knots. */
  method New(q: seq<Joints>, cartS: seq<real>) returns (r: Option<Knots>, ghost from: seq<nat>)
    requires |q| == |cartS|
    ensures r.Some? <==> cartS != [] && cartS[|cartS| - 1] - cartS[0] > MIN_SPAN
    ensures r.Some? ==> KeyedTo(cartS, q, r.value, from)
  {
    from := [];
    if cartS == [] {
      return None, from;
    }
    var total := cartS[|cartS| - 1] - cartS[0];
    if total <= MIN_SPAN {
      return None, from;
    }
    var s: seq<real>, qs: seq<Joints> := [], [];
    hide Normal, KnotIs, Covered, KeyedTo;
    for i := 0 to |q|
      invariant Kept(cartS, q, s, qs, from, i) && AllCovered(cartS, s, from, i)
    {
      var sn := Normal(cartS, i);
      if s != [] && sn - s[|s| - 1] <= MIN_SPAN {
        LeaveOut(cartS, q, s, qs, from, i);
      } else {
        TakeIn(cartS, q, s, qs, from, i);
        s, qs, from := s + [sn], qs + [q[i]], from + [i];
      }
    }
    KeptIsKeyed(cartS, q, s, qs, from);
    if |s| < 2 {
      assert false;
      return None, from;
    }
    return Some(Knots(s, qs, total)), from;
  }

  /** Each knot is its waypoint, at the tool's distance there in parts of the whole. */
  lemma KnotDistance(cartS: seq<real>, q: seq<Joints>, r: Knots, from: seq<nat>, k: nat)
    requires |q| == |cartS| && cartS != [] && cartS[|cartS| - 1] - cartS[0] > 0.0
    requires KeyedTo(cartS, q, r, from) && k < |r.s|
    ensures from[k] < |q| && r.q[k] == q[from[k]] && r.s[k] * r.length == cartS[from[k]] - cartS[0]
  {
    assert KnotIs(cartS, q, r.s[k], r.q[k], from[k]);
    NormalTimes(cartS, from[k], cartS[|cartS| - 1] - cartS[0]);
  }

  /** A waypoint left out lies no further than the merging span past a knot at or before it. */
  lemma LeftOutDistance(cartS: seq<real>, q: seq<Joints>, r: Knots, from: seq<nat>, i: nat) returns (k: nat)
    requires |q| == |cartS| && cartS != [] && cartS[|cartS| - 1] - cartS[0] > 0.0
    requires KeyedTo(cartS, q, r, from) && i < |q|
    ensures k < |from| && from[k] <= i && cartS[i] - cartS[from[k]] <= MIN_SPAN * r.length
  {
    hide Normal, KnotIs, KeyedTo;
    k := CoveredBy(cartS, q, r, from, i);
    KnotDistance(cartS, q, r, from, k);
    NormalTimes(cartS, i, r.length);
    ScaledOrder(Normal(cartS, i), r.s[k], r.length, cartS[i] - cartS[0], cartS[from[k]] - cartS[0]);
  }

  lemma CoveredBy(cartS: seq<real>, q: seq<Joints>, r: Knots, from: seq<nat>, i: nat) returns (k: nat)
    requires |q| == |cartS| && cartS != [] && cartS[|cartS| - 1] - cartS[0] > 0.0
    requires KeyedTo(cartS, q, r, from) && i < |q|
    ensures r.length == cartS[|cartS| - 1] - cartS[0]
    ensures k < |r.s| == |from| && from[k] <= i && Normal(cartS, i) - r.s[k] <= MIN_SPAN
  {
    hide Normal, KnotIs;
    assert Covered(cartS, r.s, from, i);
    k :| 0 <= k < |r.s| && from[k] <= i && Normal(cartS, i) - r.s[k] <= MIN_SPAN;
  }

  lemma NormalTimes(cartS: seq<real>, i: nat, total: real)
    requires i < |cartS| && total == cartS[|cartS| - 1] - cartS[0] > 0.0
    ensures Normal(cartS, i) * total == cartS[i] - cartS[0]
  {
    Quotient(cartS[i] - cartS[0], total);
  }

  lemma ScaledOrder(x: real, y: real, total: real, p: real, q: real)
    requires x - y <= MIN_SPAN && total > 0.0 && x * total == p && y * total == q
    ensures p - q <= MIN_SPAN * total
  {
    ProductSign(MIN_SPAN - (x - y), total);
    assert (MIN_SPAN - (x - y)) * total == MIN_SPAN * total - (p - q);
  }

  // -------------------------------------------------------------------------------- slopes

  ghost predicate IsKnots(r: Knots, n: nat) {
    |r.s| == |r.q| >= 2 && Shaped(r.q, n) && StrictlyAscending(r.s)
  }

  /** How far joint `j` turns per unit of tool distance between knots `i` and `i + 1`. */
  function Slope(r: Knots, i: nat, j: nat): real
    requires i + 1 < |r.s| == |r.q| && j < |r.q[i]| && j < |r.q[i + 1]| && r.s[i] < r.s[i + 1]
  {
    Abs((r.q[i + 1][j] - r.q[i][j]) / (r.s[i + 1] - r.s[i]))
  }

  /** Joint `j`'s slopes over the first `n` chords have `worst` as their largest. */
  ghost predicate Steepest(r: Knots, n: nat, j: nat, worst: real, joints: nat)
    requires IsKnots(r, joints) && n < |r.s| && j < joints
  {
    && worst >= 0.0
    && (forall i | 0 <= i < n :: Slope(r, i, j) <= worst)
    && (worst > 0.0 ==> exists i :: 0 <= i < n && Slope(r, i, j) == worst)
  }

  lemma SteepestGrows(r: Knots, n: nat, j: nat, worst: real, joints: nat)
    requires IsKnots(r, joints) && n + 1 < |r.s| && j < joints && Steepest(r, n, j, worst, joints)
    ensures Steepest(r, n + 1, j, Max(worst, Slope(r, n, j)), joints)
  {
    if worst > 0.0 {
      var i :| 0 <= i < n && Slope(r, i, j) == worst;
      assert i < n + 1;
    }
  }

  method MaxSlope(r: Knots, joints: nat) returns (worst: seq<real>)
    requires IsKnots(r, joints)
    ensures |worst| == joints
    ensures forall j | 0 <= j < joints :: Steepest(r, |r.s| - 1, j, worst[j], joints)
  {
    hide Slope;
    worst := seq(joints, _ => 0.0);
    for i := 0 to |r.s| - 1
      invariant |worst| == joints
      invariant forall j | 0 <= j < joints :: Steepest(r, i, j, worst[j], joints)
    {
      for j := 0 to joints
        invariant |worst| == joints
        invariant forall k | 0 <= k < j :: Steepest(r, i + 1, k, worst[k], joints)
        invariant forall k | j <= k < joints :: Steepest(r, i, k, worst[k], joints)
      {
        SteepestGrows(r, i, j, worst[j], joints);
        worst := worst[j := Max(worst[j], Slope(r, i, j))];
      }
    }
  }

  // ---------------------------------------------------------------------------- path speed

  /** The rate joint `j` allows on its own. */
  function Allows(limit: real, speed: real, slope: real): real
    requires slope > 0.0
  {
    limit * speed / slope
  }

  predicate Steep(slope: seq<real>, j: nat) {
    j < |slope| && slope[j] > MIN_SPAN
  }

  ghost predicate Least(slope: seq<real>, limits: seq<real>, speed: real, n: nat, v: Option<real>)
    requires |slope| == |limits| && n <= |slope|
  {
    && (v.None? ==> forall j | 0 <= j < n :: !Steep(slope, j))
    && (v.Some? ==> (forall j | 0 <= j < n && Steep(slope, j) :: v.value <= Allows(limits[j], speed, slope[j])))
    && (v.Some? ==> exists j :: 0 <= j < n && Steep(slope, j) && v.value == Allows(limits[j], speed, slope[j]))
  }

  /** The largest rate every steep joint allows, if there is one and it is forward. */
  method MaxPathSpeed(slope: seq<real>, limits: seq<real>, speed: real) returns (r: Option<real>)
    requires |slope| == |limits|
    ensures r.Some? ==> r.value > 0.0 && Least(slope, limits, speed, |slope|, r)
    ensures r.None? <==> (forall j | 0 <= j < |slope| :: !Steep(slope, j)) ||
                         (exists j :: 0 <= j < |slope| && Steep(slope, j) && Allows(limits[j], speed, slope[j]) <= 0.0)
  {
    hide Allows;
    var v: Option<real> := None;
    for j := 0 to |slope|
      invariant Least(slope, limits, speed, j, v)
    {
      if slope[j] > MIN_SPAN {
        ghost var before := v;
        var own := Allows(limits[j], speed, slope[j]);
        v := Some(if v.Some? then Min(v.value, own) else own);
        LeastGrows(slope, limits, speed, j, before);
      }
    }
    if v.Some? && v.value > 0.0 {
      return v;
    }
    return None;
  }

  lemma LeastGrows(slope: seq<real>, limits: seq<real>, speed: real, j: nat, v: Option<real>)
    requires |slope| == |limits| && j < |slope| && Steep(slope, j) && Least(slope, limits, speed, j, v)
    ensures var own := Allows(limits[j], speed, slope[j]);
            Least(slope, limits, speed, j + 1, Some(if v.Some? then Min(v.value, own) else own))
  {
    hide Allows;
    if v.Some? {
      var k :| 0 <= k < j && Steep(slope, k) && v.value == Allows(limits[k], speed, slope[k]);
      assert k < j + 1;
    }
  }

  lemma RateWithin(limit: real, speed: real, slope: real, chord: real, v: real)
    requires slope > 0.0 && 0.0 <= chord <= slope && 0.0 < v <= Allows(limit, speed, slope)
    ensures chord * v <= limit * speed
    ensures chord == slope && v == Allows(limit, speed, slope) ==> chord * v == limit * speed
  {
    var top := limit * speed;
    var own := top / slope;
    assert own * slope == top;
    assert (slope - chord) * v >= 0.0;
    assert (own - v) * slope >= 0.0;
  }

  /** How far joint `j` turns between knots `i` and `i + 1`, and how far apart they are. */
  ghost function Swing(r: Knots, i: nat, j: nat): real
    requires i + 1 < |r.q| && j < |r.q[i]| && j < |r.q[i + 1]|
  {
    Abs(r.q[i + 1][j] - r.q[i][j])
  }

  ghost function Apart(r: Knots, i: nat): real
    requires i + 1 < |r.s|
  {
    r.s[i + 1] - r.s[i]
  }

  /** A joint turns noticeably when it turns more than the least span over some unit of tool distance. */
  ghost predicate Turns(r: Knots, j: nat, joints: nat)
    requires IsKnots(r, joints) && j < joints
  {
    exists i :: 0 <= i < |r.s| - 1 && Swing(r, i, j) > MIN_SPAN * Apart(r, i)
  }

  lemma SlopeTimes(r: Knots, i: nat, j: nat, joints: nat)
    requires IsKnots(r, joints) && i + 1 < |r.s| && j < joints
    ensures Slope(r, i, j) * Apart(r, i) == Swing(r, i, j) && Slope(r, i, j) >= 0.0 && Apart(r, i) > 0.0
  {
    var d, gap := r.q[i + 1][j] - r.q[i][j], r.s[i + 1] - r.s[i];
    Quotient(d, gap);
    var slope := d / gap;
    if d < 0.0 {
      assert (-slope) * gap == -d;
      ProductSign(slope, gap);
    } else if slope < 0.0 {
      ProductPositive(-slope, gap, (-slope) * gap);
    }
  }

  /** A rate within a slope's allowance, told over the chord itself. */
  lemma OverChord(slope: real, apart: real, turn: real, v: real, most: real)
    requires slope * apart == turn && apart > 0.0
    ensures slope * v <= most ==> turn * v <= most * apart
    ensures slope * v == most ==> turn * v == most * apart
    ensures turn > MIN_SPAN * apart <==> slope > MIN_SPAN
  {
    assert turn * v == slope * v * apart;
    ProductSign(most - slope * v, apart);
    assert (most - slope * v) * apart == most * apart - slope * v * apart;
    assert (slope - MIN_SPAN) * apart == turn - MIN_SPAN * apart;
    if slope > MIN_SPAN {
      ProductPositive(slope - MIN_SPAN, apart, (slope - MIN_SPAN) * apart);
    }
    ProductSign(MIN_SPAN - slope, apart);
  }

  lemma SteepTurns(r: Knots, slope: seq<real>, j: nat, joints: nat)
    requires IsKnots(r, joints) && |slope| == joints && j < joints
    requires Steepest(r, |r.s| - 1, j, slope[j], joints)
    ensures Steep(slope, j) <==> Turns(r, j, joints)
  {
    hide Slope, Swing, Apart;
    forall i | 0 <= i < |r.s| - 1
      ensures Swing(r, i, j) > MIN_SPAN * Apart(r, i) <==> Slope(r, i, j) > MIN_SPAN
    {
      SlopeTimes(r, i, j, joints);
      OverChord(Slope(r, i, j), Apart(r, i), Swing(r, i, j), 0.0, 0.0);
    }
    if Steep(slope, j) {
      var i :| 0 <= i < |r.s| - 1 && Slope(r, i, j) == slope[j];
      assert Swing(r, i, j) > MIN_SPAN * Apart(r, i);
    }
  }

  /**
   At the rate the steepest stretch allows, no joint that turns noticeably turns faster between any
   two knots than its share of its limit, and some joint turns exactly that fast between some two.
   */
  lemma RatesWithinLimits(r: Knots, joints: nat, slope: seq<real>, limits: seq<real>, speed: real, v: real)
    requires IsKnots(r, joints) && |slope| == |limits| == joints
    requires forall j | 0 <= j < joints :: Steepest(r, |r.s| - 1, j, slope[j], joints)
    requires v > 0.0 && Least(slope, limits, speed, joints, Some(v))
    ensures forall i, j | 0 <= i < |r.s| - 1 && 0 <= j < joints && Turns(r, j, joints) ::
              Swing(r, i, j) * v <= limits[j] * speed * Apart(r, i)
    ensures exists i, j :: 0 <= i < |r.s| - 1 && 0 <= j < joints && Turns(r, j, joints) &&
              Swing(r, i, j) * v == limits[j] * speed * Apart(r, i)
  {
    hide Allows, Slope, Swing, Apart, Turns;
    forall i, j | 0 <= i < |r.s| - 1 && 0 <= j < joints && Turns(r, j, joints)
      ensures Swing(r, i, j) * v <= limits[j] * speed * Apart(r, i)
    {
      SteepTurns(r, slope, j, joints);
      assert Steepest(r, |r.s| - 1, j, slope[j], joints);
      SlopeTimes(r, i, j, joints);
      RateWithin(limits[j], speed, slope[j], Slope(r, i, j), v);
      OverChord(Slope(r, i, j), Apart(r, i), Swing(r, i, j), v, limits[j] * speed);
    }
    var j :| 0 <= j < joints && Steep(slope, j) && v == Allows(limits[j], speed, slope[j]);
    SteepTurns(r, slope, j, joints);
    assert Steepest(r, |r.s| - 1, j, slope[j], joints);
    var i :| 0 <= i < |r.s| - 1 && Slope(r, i, j) == slope[j];
    SlopeTimes(r, i, j, joints);
    RateWithin(limits[j], speed, slope[j], Slope(r, i, j), v);
    OverChord(Slope(r, i, j), Apart(r, i), Swing(r, i, j), v, limits[j] * speed);
    assert Swing(r, i, j) * v == limits[j] * speed * Apart(r, i);
  }
}
