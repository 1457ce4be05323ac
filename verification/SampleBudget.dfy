/** Scaling per-piece interval counts down so that a whole path fits its point budget. */
module SampleBudget {
  import opened Reals

  function Sum(s: seq<nat>): nat {
    if s == [] then 0 else Sum(s[..|s| - 1]) + s[|s| - 1]
  }

  ghost function RealSum(s: seq<real>): real {
    if s == [] then 0.0 else RealSum(s[..|s| - 1]) + s[|s| - 1]
  }

  lemma {:induction false} SumUpdate(s: seq<nat>, i: nat, v: nat)
    requires i < |s|
    ensures Sum(s[i := v]) == Sum(s) - s[i] + v
    decreases |s|
  {
    var n := |s| - 1;
    if i < n {
      SumUpdate(s[..n], i, v);
      assert s[i := v][..n] == s[..n][i := v];
    } else {
      assert s[i := v][..n] == s[..n];
    }
  }

  lemma {:induction false} SumAtLeast(s: seq<nat>)
    requires forall i | 0 <= i < |s| :: s[i] >= 1
    ensures Sum(s) >= |s|
    decreases |s|
  {
    if s != [] {
      SumAtLeast(s[..|s| - 1]);
    }
  }

  /** A sum above the number of its parts has a part above one. */
  lemma {:induction false} SomePartAboveOne(s: seq<nat>)
    requires Sum(s) > |s|
    ensures exists i :: 0 <= i < |s| && s[i] >= 2
    decreases |s|
  {
    if s != [] {
      var n := |s| - 1;
      if s[n] < 2 {
        SomePartAboveOne(s[..n]);
        var i :| 0 <= i < n && s[..n][i] >= 2;
        assert s[i] >= 2;
      }
    }
  }

  /** The share of the budget each count is due. */
  ghost function Share(count: nat, allowed: nat, total: nat): real
    requires total > 0
  {
    Scaled(count as real, Ratio(allowed, total))
  }

  function Ratio(allowed: nat, total: nat): real
    requires total > 0
  {
    allowed as real / total as real
  }

  function Scaled(c: real, f: real): real {
    c * f
  }

  lemma ScaledSum(x: real, y: real, f: real)
    ensures Scaled(x + y, f) == Scaled(x, f) + Scaled(y, f)
  {
  }

  ghost predicate Shares(exact: seq<real>, asked: seq<nat>, allowed: nat, total: nat)
    requires total > 0
  {
    |exact| == |asked| && forall i | 0 <= i < |asked| :: exact[i] == Share(asked[i], allowed, total)
  }

  lemma NothingScaled(f: real)
    ensures Scaled(0.0, f) == 0.0
  {
  }

  lemma {:induction false} SharesSum(exact: seq<real>, asked: seq<nat>, allowed: nat, total: nat)
    requires total > 0 && Shares(exact, asked, allowed, total)
    ensures RealSum(exact) == Share(Sum(asked), allowed, total)
    decreases |asked|
  {
    hide Scaled, Ratio;
    var f := Ratio(allowed, total);
    if asked == [] {
      NothingScaled(f);
    } else {
      var n := |asked| - 1;
      SharesSum(exact[..n], asked[..n], allowed, total);
      ScaledSum(Sum(asked[..n]) as real, asked[n] as real, f);
    }
  }

  lemma WholeShare(allowed: nat, total: nat)
    requires total > 0
    ensures Share(total, allowed, total) == allowed as real
  {
  }

  /** Below the total, a share is under what was asked for it. */
  lemma ShareBelow(count: nat, allowed: nat, total: nat)
    requires 0 <= allowed < total
    ensures Share(count, allowed, total) >= 0.0
    ensures count > 0 ==> Share(count, allowed, total) < count as real
    ensures count == 0 ==> Share(count, allowed, total) == 0.0
  {
    hide Scaled, Ratio;
    RatioBelow(allowed, total);
    ScaledBelow(count as real, Ratio(allowed, total));
  }

  lemma RatioBelow(allowed: nat, total: nat)
    requires 0 <= allowed < total
    ensures 0.0 <= Ratio(allowed, total) < 1.0
  {
  }

  lemma ScaledBelow(c: real, f: real)
    requires c >= 0.0 && 0.0 <= f < 1.0
    ensures Scaled(c, f) >= 0.0 && (c > 0.0 ==> Scaled(c, f) < c) && (c == 0.0 ==> Scaled(c, f) == 0.0)
  {
  }

  /** When the parts sum below the shares, some part is short. */
  lemma {:induction false} SomePartShort(exact: seq<real>, counts: seq<nat>)
    requires |exact| == |counts| && Sum(counts) as real < RealSum(exact)
    ensures exists i :: 0 <= i < |counts| && counts[i] as real < exact[i]
    decreases |counts|
  {
    if counts != [] {
      var n := |counts| - 1;
      if counts[n] as real >= exact[n] {
        SomePartShort(exact[..n], counts[..n]);
        var i :| 0 <= i < n && counts[..n][i] as real < exact[..n][i];
        assert counts[i] as real < exact[i];
      }
    }
  }

  /** When no part exceeds its share, neither does the sum. */
  lemma {:induction false} SumUnderShares(exact: seq<real>, counts: seq<nat>)
    requires |exact| == |counts| && forall i | 0 <= i < |counts| :: counts[i] as real <= exact[i]
    ensures Sum(counts) as real <= RealSum(exact)
    decreases |counts|
  {
    if counts != [] {
      SumUnderShares(exact[..|counts| - 1], counts[..|counts| - 1]);
    }
  }

  /** The last of the largest counts. */
  method Largest(counts: seq<nat>) returns (k: nat)
    requires counts != []
    ensures k < |counts|
    ensures forall i | 0 <= i < |counts| :: counts[i] <= counts[k]
    ensures forall i | k < i < |counts| :: counts[i] < counts[k]
  {
    k := 0;
    for i := 1 to |counts|
      invariant k < i
      invariant forall j | 0 <= j < i :: counts[j] <= counts[k]
      invariant forall j | k < j < i :: counts[j] < counts[k]
    {
      if counts[i] >= counts[k] {
        k := i;
      }
    }
  }

  function Short(exact: real, count: nat): real {
    exact - count as real
  }

  /** The last of the counts rounding cut deepest. */
  method Shortest(exact: seq<real>, counts: seq<nat>) returns (k: nat)
    requires |exact| == |counts| && counts != []
    ensures k < |counts|
    ensures forall i | 0 <= i < |counts| :: Short(exact[i], counts[i]) <= Short(exact[k], counts[k])
    ensures forall i | k < i < |counts| :: Short(exact[i], counts[i]) < Short(exact[k], counts[k])
  {
    k := 0;
    for i := 1 to |counts|
      invariant k < i
      invariant forall j | 0 <= j < i :: Short(exact[j], counts[j]) <= Short(exact[k], counts[k])
      invariant forall j | k < j < i :: Short(exact[j], counts[j]) < Short(exact[k], counts[k])
    {
      if Short(exact[i], counts[i]) >= Short(exact[k], counts[k]) {
        k := i;
      }
    }
  }

  method Total(counts: array<nat>) returns (total: nat)
    ensures total == Sum(counts[..])
  {
    total := 0;
    for i := 0 to counts.Length
      invariant total == Sum(counts[..i])
    {
      assert counts[..i + 1][..i] == counts[..i];
      total := total + counts[i];
    }
    assert counts[..counts.Length] == counts[..];
  }

  /** The intervals a path of `pieces` may have: the point budget less one, and one each at least. */
  function Allowed(pieces: nat, maxPoints: nat): nat {
    (if maxPoints < pieces + 1 then pieces + 1 else maxPoints) - 1
  }

  /** At least one interval each, and none above what was asked unless that is the one. */
  ghost predicate Capped(counts: seq<nat>, asked: seq<nat>) {
    |counts| == |asked| && forall i | 0 <= i < |asked| :: 1 <= counts[i] && (counts[i] <= asked[i] || counts[i] == 1)
  }

  /** Every count is within one of its share. */
  ghost predicate Near(counts: seq<nat>, exact: seq<real>) {
    |counts| == |exact| && forall i | 0 <= i < |counts| :: Abs(Short(exact[i], counts[i])) < 1.0
  }

  /** What each piece is due, rounded down, but at least one. */
  ghost predicate RoundedDown(floors: seq<nat>, exact: seq<real>) {
    |floors| == |exact| && forall i | 0 <= i < |exact| :: floors[i] == if exact[i] < 1.0 then 1 else exact[i].Floor
  }

  /** No count is a whole interval above its share, unless it is the one every piece has. */
  ghost predicate NotAbove(counts: seq<nat>, exact: seq<real>) {
    |counts| == |exact| && forall i | 0 <= i < |counts| :: counts[i] == 1 || (counts[i] as real) < exact[i] + 1.0
  }

  /** Whoever gave an interval back is within one of every other: only the largest give. */
  ghost predicate LargestGave(before: seq<nat>, after: seq<nat>) {
    && |before| == |after| && (forall i | 0 <= i < |after| :: after[i] <= before[i])
    && forall i, j | 0 <= i < |after| && 0 <= j < |after| && after[i] < before[i] :: after[j] <= after[i] + 1
  }

  /** Nobody is left further short than whoever was given an interval was before: the shortest are given. */
  ghost predicate ShortestGiven(exact: seq<real>, before: seq<nat>, after: seq<nat>) {
    && |before| == |after| == |exact| && (forall i | 0 <= i < |after| :: before[i] <= after[i])
    && forall i, j | 0 <= i < |after| && 0 <= j < |after| && before[i] < after[i] ::
         Short(exact[j], after[j]) <= Short(exact[i], after[i]) + 1.0
  }

  lemma LargestGaveStep(start: seq<nat>, before: seq<nat>, i: nat)
    requires LargestGave(start, before) && i < |before| && before[i] > 0
    requires forall j | 0 <= j < |before| :: before[j] <= before[i]
    ensures LargestGave(start, before[i := before[i] - 1])
  {
  }

  lemma ShortestGivenStart(exact: seq<real>, start: seq<nat>)
    requires |exact| == |start|
    ensures ShortestGiven(exact, start, start)
  {
  }

  lemma ShortestGivenStep(exact: seq<real>, start: seq<nat>, before: seq<nat>, i: nat)
    requires ShortestGiven(exact, start, before) && i < |before|
    requires forall j | 0 <= j < |before| :: Short(exact[j], before[j]) <= Short(exact[i], before[i])
    ensures ShortestGiven(exact, start, before[i := before[i] + 1])
  {
  }

  /** Raising a short count keeps it near its share and under what was asked. */
  lemma RaiseStep(exact: seq<real>, asked: seq<nat>, before: seq<nat>, i: nat)
    requires |exact| == |before| && Capped(before, asked) && i < |before|
    requires Short(exact[i], before[i]) > 0.0 && exact[i] <= asked[i] as real
    ensures Capped(before[i := before[i] + 1], asked)
    ensures NotAbove(before, exact) ==> NotAbove(before[i := before[i] + 1], exact)
    ensures Near(before, exact) ==> Near(before[i := before[i] + 1], exact)
  {
  }

  /** The one-interval floor can overshoot; the largest counts give it back. */
  method GiveBack(counts: array<nat>, sum0: nat, allowed: nat, ghost asked: seq<nat>) returns (sum: nat)
    requires sum0 == Sum(counts[..]) && counts.Length <= allowed && Capped(counts[..], asked)
    modifies counts
    ensures sum == Sum(counts[..]) <= allowed && Capped(counts[..], asked)
    ensures sum0 <= allowed ==> counts[..] == old(counts[..])
    ensures sum0 > allowed ==> sum == allowed
    ensures LargestGave(old(counts[..]), counts[..])
  {
    sum := sum0;
    while sum > allowed
      invariant sum == Sum(counts[..]) && Capped(counts[..], asked)
      invariant sum0 <= allowed ==> counts[..] == old(counts[..])
      invariant sum0 > allowed ==> sum >= allowed
      invariant LargestGave(old(counts[..]), counts[..])
      decreases sum
    {
      ghost var before := counts[..];
      SomePartAboveOne(before);
      var i := Largest(counts[..]);
      hide LargestGave;
      SumUpdate(before, i, before[i] - 1);
      LargestGaveStep(old(counts[..]), before, i);
      counts[i] := counts[i] - 1;
      assert counts[..] == before[i := before[i] - 1];
      sum := sum - 1;
    }
  }

  /** What rounding down left over goes where it cut deepest; the shares' sum leaves always someone short. */
  method GiveOut(counts: array<nat>, exact: seq<real>, sum0: nat, allowed: nat,
      ghost asked: seq<nat>) returns (sum: nat)
    requires sum0 == Sum(counts[..]) <= allowed && Capped(counts[..], asked)
    requires |exact| == counts.Length && RealSum(exact) == allowed as real
    requires forall i | 0 <= i < counts.Length :: exact[i] <= asked[i] as real
    modifies counts
    ensures sum == Sum(counts[..]) == allowed && Capped(counts[..], asked)
    ensures old(Near(counts[..], exact)) ==> Near(counts[..], exact)
    ensures old(NotAbove(counts[..], exact)) ==> NotAbove(counts[..], exact)
    ensures sum0 == allowed ==> counts[..] == old(counts[..])
    ensures ShortestGiven(exact, old(counts[..]), counts[..])
  {
    hide Near, NotAbove, ShortestGiven;
    ShortestGivenStart(exact, counts[..]);
    sum := sum0;
    while sum < allowed
      invariant sum == Sum(counts[..]) <= allowed && Capped(counts[..], asked)
      invariant old(Near(counts[..], exact)) ==> Near(counts[..], exact)
      invariant old(NotAbove(counts[..], exact)) ==> NotAbove(counts[..], exact)
      invariant sum0 == allowed ==> counts[..] == old(counts[..])
      invariant ShortestGiven(exact, old(counts[..]), counts[..])
    {
      ghost var before := counts[..];
      SomePartShort(exact, before);
      var i := Shortest(exact, counts[..]);
      if Short(exact[i], counts[i]) <= 0.0 {
        assert false;
        break;
      }
      SumUpdate(before, i, before[i] + 1);
      RaiseStep(exact, asked, before, i);
      ShortestGivenStep(exact, old(counts[..]), before, i);
      counts[i] := counts[i] + 1;
      assert counts[..] == before[i := before[i] + 1];
      sum := sum + 1;
    }
  }

  /** Each count rounded down to its share, but at least one. */
  method FloorAll(counts: array<nat>, exact: seq<real>)
    requires |exact| == counts.Length
    requires forall i | 0 <= i < counts.Length :: 0.0 <= exact[i] <= counts[i] as real
    modifies counts
    ensures RoundedDown(counts[..], exact) && Capped(counts[..], old(counts[..])) && NotAbove(counts[..], exact)
    ensures (forall i | 0 <= i < counts.Length :: exact[i] >= 1.0) ==>
              Near(counts[..], exact) && Sum(counts[..]) as real <= RealSum(exact)
  {
    for i := 0 to counts.Length
      invariant forall j | 0 <= j < i :: counts[j] == if exact[j].Floor < 1 then 1 else exact[j].Floor
      invariant forall j | i <= j < counts.Length :: counts[j] == old(counts[j])
    {
      var floor := exact[i].Floor;
      counts[i] := if floor < 1 then 1 else floor;
    }
    if forall i | 0 <= i < counts.Length :: exact[i] >= 1.0 {
      SumUnderShares(exact, counts[..]);
    }
  }

  /** Giving back keeps every count below where it started, so no higher above its share. */
  lemma LowerNotAbove(floors: seq<nat>, counts: seq<nat>, asked: seq<nat>, exact: seq<real>)
    requires LargestGave(floors, counts) && NotAbove(floors, exact) && Capped(counts, asked)
    ensures NotAbove(counts, exact)
  {
  }

  /**
   How a path over its budget is scaled into it, `exact` being the shares: no count ends a whole
   interval above its share unless it is one; where the rounded-down shares fit, none ends below
   its own and what is left goes to those furthest short; where they do not, the largest give.
   */
  ghost predicate Fair(counts: seq<nat>, exact: seq<real>, allowed: nat) {
    && NotAbove(counts, exact)
    && (forall floors | RoundedDown(floors, exact) ::
          if Sum(floors) <= allowed then ShortestGiven(exact, floors, counts) else LargestGave(floors, counts))
    && ((forall i | 0 <= i < |exact| :: exact[i] >= 1.0) ==> Near(counts, exact))
  }

  /** What that leaves one piece with. */
  lemma FairCount(counts: seq<nat>, allowed: nat, exact: seq<real>, floors: seq<nat>, i: nat)
    requires Fair(counts, exact, allowed) && RoundedDown(floors, exact) && i < |exact|
    ensures counts[i] > 1 ==> counts[i] as real < exact[i] + 1.0
    ensures Sum(floors) <= allowed ==> counts[i] >= 1 && counts[i] >= exact[i].Floor
    ensures Sum(floors) > allowed ==> counts[i] <= 1 || counts[i] as real <= exact[i]
    ensures (forall j | 0 <= j < |exact| :: exact[j] >= 1.0) ==> exact[i] - 1.0 < counts[i] as real < exact[i] + 1.0
  {
    hide Sum;
  }

  /** Where a share is a piece's part of what all of them asked for. */
  lemma ShareIs(count: nat, allowed: nat, total: nat)
    requires total > 0
    ensures Share(count, allowed, total) == count as real * (allowed as real / total as real)
  {
  }

  /** Shares are what they are. */
  lemma SharesOnce(a: seq<real>, b: seq<real>, asked: seq<nat>, allowed: nat, total: nat)
    requires total > 0 && Shares(a, asked, allowed, total) && Shares(b, asked, allowed, total)
    ensures a == b
  {
    hide Share;
  }

  lemma {:induction false} WholeSharesSum(exact: seq<real>, i: nat)
    requires i < |exact| && forall k | 0 <= k < |exact| :: exact[k] >= 1.0
    ensures RealSum(exact) >= |exact| as real + exact[i] - 1.0
    decreases |exact|
  {
    var last := |exact| - 1;
    if i < last {
      WholeSharesSum(exact[..last], i);
    } else if last > 0 {
      WholeSharesSum(exact[..last], 0);
    }
  }

  /** One interval each is fair when that is all that is allowed. */
  lemma OnesFair(counts: seq<nat>, exact: seq<real>)
    requires |counts| == |exact| && (forall i | 0 <= i < |counts| :: counts[i] == 1)
    requires RealSum(exact) == |counts| as real
    ensures Fair(counts, exact, |counts|)
  {
    forall floors | RoundedDown(floors, exact)
      ensures if Sum(floors) <= |counts| then ShortestGiven(exact, floors, counts) else LargestGave(floors, counts)
    {
      if Sum(floors) <= |counts| {
        SumOnes(floors, counts);
      }
    }
    if forall i | 0 <= i < |exact| :: exact[i] >= 1.0 {
      forall i | 0 <= i < |exact| ensures Abs(Short(exact[i], counts[i])) < 1.0 {
        WholeSharesSum(exact, i);
      }
    }
  }

  lemma {:induction false} SumOnes(floors: seq<nat>, ones: seq<nat>)
    requires |floors| == |ones| && (forall i | 0 <= i < |ones| :: ones[i] == 1 <= floors[i])
    requires Sum(floors) <= |ones|
    ensures floors == ones
    decreases |ones|
  {
    if ones != [] {
      var last := |ones| - 1;
      SumAtLeast(floors[..last]);
      SumOnes(floors[..last], ones[..last]);
      assert floors == floors[..last] + [floors[last]] && ones == ones[..last] + [ones[last]];
    }
  }

  /** The intervals allowed are one fewer than the points: the budget, or one more than the pieces if that is more. */
  lemma AllowedPoints(pieces: nat, maxPoints: nat)
    ensures Allowed(pieces, maxPoints) + 1 >= maxPoints && Allowed(pieces, maxPoints) >= pieces
    ensures Allowed(pieces, maxPoints) + 1 == maxPoints || Allowed(pieces, maxPoints) == pieces
  {
  }

  /**
   Scale the counts into the budget. A path within it is untouched; otherwise the counts end
   summing to exactly what is allowed, each at least one and none above what it asked for, and
   each fair to its share.
   */
  method FitBudget(counts: array<nat>, maxPoints: nat)
    modifies counts
    ensures var asked, allowed := old(counts[..]), Allowed(counts.Length, maxPoints);
            if Sum(asked) <= allowed then counts[..] == asked
            else
              && Sum(counts[..]) == allowed && Capped(counts[..], asked)
              && Fair(counts[..], Exact(asked, allowed, Sum(asked)), allowed)
  {
    hide Share, LargestGave, ShortestGiven, NotAbove, Capped, Near;
    var total := Total(counts);
    var allowed := Allowed(counts.Length, maxPoints);
    if total <= allowed {
      return;
    }
    ghost var asked := counts[..];
    var exact := Exact(counts[..], allowed, total);
    SharesSum(exact, asked, allowed, total);
    WholeShare(allowed, total);
    forall i | 0 <= i < |asked| ensures 0.0 <= exact[i] <= asked[i] as real {
      ShareBelow(asked[i], allowed, total);
    }
    FloorAll(counts, exact);
    ghost var floors := counts[..];
    var sum := Total(counts);
    sum := GiveBack(counts, sum, allowed, asked);
    LowerNotAbove(floors, counts[..], asked, exact);
    sum := GiveOut(counts, exact, sum, allowed, asked);
    forall other | RoundedDown(other, exact) ensures other == floors {
    }
  }

  function Exact(asked: seq<nat>, allowed: nat, total: nat): (exact: seq<real>)
    requires total > 0
    ensures Shares(exact, asked, allowed, total)
  {
    var factor := Ratio(allowed, total);
    seq(|asked|, i requires 0 <= i < |asked| => Scaled(asked[i] as real, factor))
  }
}
