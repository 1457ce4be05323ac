/** How much of its two segments each corner of a path may take. */
module CornerTrims {
  import opened Reals
  import opened Wrappers

  /** The fractions the previous and the next corner take of a segment. */
  datatype Trim = Trim(entry: real, exit: real)

  datatype Error = WrongRadiusCount

  /** The radius a corner can have: none below zero, none above half of either segment. */
  function Fitting(radius: real, before: real, after: real): real {
    Min(Min(Max(radius, 0.0), before / 2.0), after / 2.0)
  }

  lemma FittingAtMostHalf(radius: real, before: real, after: real)
    ensures Fitting(radius, before, after) <= before / 2.0 && Fitting(radius, before, after) <= after / 2.0
  {
  }

  /** It is the greatest that is no more than what is asked, or nothing, and than half of either segment. */
  lemma FittingGreatest(radius: real, before: real, after: real, other: real)
    requires other <= before / 2.0 && other <= after / 2.0 && (radius >= 0.0 ==> other <= radius)
    requires radius < 0.0 ==> other <= 0.0
    ensures other <= Fitting(radius, before, after) <= before / 2.0
    ensures Fitting(radius, before, after) <= after / 2.0
    ensures Fitting(radius, before, after) <= if radius >= 0.0 then radius else 0.0
  {
  }

  ghost predicate IsFitting(lengths: seq<real>, radii: seq<real>, clamped: seq<real>)
    requires |radii| + 1 == |lengths|
  {
    |clamped| == |radii| && forall i | 0 <= i < |radii| :: clamped[i] == Fitting(radii[i], lengths[i], lengths[i + 1])
  }

  /** A fraction of a segment that makes up the radius, or none of one too short to trim. */
  ghost predicate Takes(fraction: real, length: real, radius: real) {
    if radius > 0.0 && length > LEN_EPS then 0.0 <= fraction <= 0.5 && fraction * length == radius else fraction == 0.0
  }

  /** The first `n` corners have taken their share of the segments on either side. */
  ghost predicate Trimmed(lengths: seq<real>, clamped: seq<real>, trims: seq<Trim>, n: nat)
    requires |clamped| + 1 == |lengths| && n <= |clamped|
  {
    && |trims| == |lengths|
    && (forall i | 0 <= i < n :: Takes(trims[i].exit, lengths[i], clamped[i]))
    && (forall i | 0 <= i < n :: Takes(trims[i + 1].entry, lengths[i + 1], clamped[i]))
    && (forall i | n <= i < |lengths| :: trims[i].exit == 0.0)
    && (forall i | n < i < |lengths| :: trims[i].entry == 0.0)
    && trims[0].entry == 0.0
  }

  lemma TakesItsShare(radius: real, length: real)
    requires radius <= length / 2.0
    ensures Takes(if radius > 0.0 && length > LEN_EPS then radius / length else 0.0, length, radius)
  {
    if radius > 0.0 && length > LEN_EPS {
      var f := radius / length;
      assert f * length == radius;
      assert f > 0.5 ==> (f - 0.5) * length > 0.0;
    }
  }

  lemma OneMoreCorner(lengths: seq<real>, clamped: seq<real>, before: seq<Trim>, after: seq<Trim>, i: nat)
    requires |clamped| + 1 == |lengths| && i < |clamped| && Trimmed(lengths, clamped, before, i)
    requires |after| == |before|
    requires Takes(after[i].exit, lengths[i], clamped[i]) && Takes(after[i + 1].entry, lengths[i + 1], clamped[i])
    requires after[i].entry == before[i].entry && after[i + 1].exit == before[i + 1].exit
    requires forall k | 0 <= k < |before| && k != i && k != i + 1 :: after[k] == before[k]
    ensures Trimmed(lengths, clamped, after, i + 1)
  {
    hide Takes;
    forall k | 0 <= k < i + 1 ensures Takes(after[k].exit, lengths[k], clamped[k]) {
    }
    forall k | 0 <= k < i + 1 ensures Takes(after[k + 1].entry, lengths[k + 1], clamped[k]) {
    }
  }

  /**
   Per segment, the fractions its corners take: each makes up the same clamped radius on either
   side of its corner, and no corner takes more than half, so two of them never overlap.
   */
  method CornerTrims(lengths: seq<real>, radii: seq<real>) returns (r: Result<(seq<Trim>, seq<real>), Error>)
    ensures r.Ok? <==> |radii| + 1 == |lengths|
    ensures r.Ok? ==>
              && IsFitting(lengths, radii, r.value.1) && Trimmed(lengths, r.value.1, r.value.0, |radii|)
              && forall i | 0 <= i < |lengths| :: r.value.0[i].entry + r.value.0[i].exit <= 1.0
  {
    hide Takes, Fitting;
    if lengths == [] || |radii| + 1 != |lengths| {
      return Err(WrongRadiusCount);
    }
    var clamped: seq<real> := [];
    for i := 0 to |radii|
      invariant |clamped| == i && forall k | 0 <= k < i :: clamped[k] == Fitting(radii[k], lengths[k], lengths[k + 1])
    {
      clamped := clamped + [Fitting(radii[i], lengths[i], lengths[i + 1])];
    }
    var trims := seq(|lengths|, _ => Trim(0.0, 0.0));
    for i := 0 to |clamped|
      invariant Trimmed(lengths, clamped, trims, i)
    {
      var radius := clamped[i];
      FittingAtMostHalf(radii[i], lengths[i], lengths[i + 1]);
      ghost var before := trims;
      TakesItsShare(radius, lengths[i]);
      TakesItsShare(radius, lengths[i + 1]);
      if radius > 0.0 {
        if lengths[i] > LEN_EPS {
          trims := trims[i := trims[i].(exit := radius / lengths[i])];
        }
        if lengths[i + 1] > LEN_EPS {
          trims := trims[i + 1 := trims[i + 1].(entry := radius / lengths[i + 1])];
        }
      }
      OneMoreCorner(lengths, clamped, before, trims, i);
    }
    forall i | 0 <= i < |lengths| ensures trims[i].entry + trims[i].exit <= 1.0 {
      AtMostHalf(lengths, clamped, trims, i);
    }
    return Ok((trims, clamped));
  }

  lemma AtMostHalf(lengths: seq<real>, clamped: seq<real>, trims: seq<Trim>, i: nat)
    requires |clamped| + 1 == |lengths| && Trimmed(lengths, clamped, trims, |clamped|) && i < |lengths|
    ensures 0.0 <= trims[i].entry <= 0.5 && 0.0 <= trims[i].exit <= 0.5
  {
    if i > 0 {
      assert Takes(trims[i - 1 + 1].entry, lengths[i - 1 + 1], clamped[i - 1]);
    }
  }
}
