/** Which of the angles a whole number of turns apart a solved revolute joint is sent to. */
module Wrap {
  import opened Reals
  import opened Wrappers

  /** One turn, as the double the program uses. */
  const TAU: real := 6.283185307179586

  /** Half away from zero. */
  function Round(x: real): (r: int)
    ensures -0.5 <= x - r as real <= 0.5
  {
    if x >= 0.0 then (x + 0.5).Floor else -((-x + 0.5).Floor)
  }

  /** The branch `k` turns from `value`. */
  function Branch(value: real, k: int): real {
    value + k as real * TAU
  }

  /** How far outside the window, then how far from the seed. */
  datatype Score = Score(outside: real, distance: real)

  function ScoreOf(value: real, seed: real, min: real, max: real, k: int): Score {
    var candidate := Branch(value, k);
    Score(Max(Max(min - candidate, candidate - max), 0.0), Abs(candidate - seed))
  }

  predicate Better(a: Score, b: Score) {
    a.outside < b.outside || (a.outside == b.outside && a.distance < b.distance)
  }

  /** The branches worth scoring. */
  function Candidates(value: real, seed: real, min: real, max: real): seq<int> {
    var nearest := Round((seed - value) / TAU);
    [nearest, nearest - 1, nearest + 1, Ceil((min - value) / TAU), ((max - value) / TAU).Floor, 0]
  }

  lemma TurnsOrder(value: real, target: real, k: int)
    ensures k as real <= (target - value) / TAU <==> Branch(value, k) <= target
    ensures k as real >= (target - value) / TAU <==> Branch(value, k) >= target
  {
    var x := (target - value) / TAU;
    assert x * TAU == target - value;
    assert (k as real - x) * TAU == Branch(value, k) - target;
    assert k as real > x ==> (k as real - x) * TAU > 0.0;
    assert k as real < x ==> (k as real - x) * TAU < 0.0;
  }

  lemma BranchOrder(value: real, j: int, k: int)
    requires j < k
    ensures Branch(value, j) + TAU <= Branch(value, k)
  {
    assert (k - j) as real >= 1.0;
    assert (k - j) as real * TAU == k as real * TAU - j as real * TAU;
  }

  /** The rounded branch is within half a turn of the seed. */
  lemma NearestWithinHalf(value: real, seed: real)
    ensures var k := Round((seed - value) / TAU);
            Abs(Branch(value, k) - seed) <= TAU / 2.0
  {
    var x := (seed - value) / TAU;
    var k := Round(x);
    assert x * TAU == seed - value;
    assert (k as real - x) * TAU == Branch(value, k) - seed;
  }

  /** Moving away from the branch nearest the seed never comes closer to it. */
  lemma FartherIsWorse(value: real, seed: real, j: int, k: int)
    requires var nearest := Round((seed - value) / TAU);
             nearest <= j <= k || k <= j <= nearest
    ensures Abs(Branch(value, j) - seed) <= Abs(Branch(value, k) - seed)
  {
    hide Round, Branch;
    var nearest := Round((seed - value) / TAU);
    NearestWithinHalf(value, seed);
    if j < k {
      BranchOrder(value, j, k);
      if nearest < j {
        BranchOrder(value, nearest, j);
      }
    } else if k < j {
      BranchOrder(value, k, j);
      if j < nearest {
        BranchOrder(value, j, nearest);
      }
    }
  }

  /** Every branch is matched or beaten by a candidate. */
  lemma CandidatesSuffice(value: real, seed: real, min: real, max: real, n: int)
    requires min <= max
    ensures exists c :: c in Candidates(value, seed, min, max) &&
                        !Better(ScoreOf(value, seed, min, max, n), ScoreOf(value, seed, min, max, c))
  {
    hide Branch, Round, Ceil;
    var nearest := Round((seed - value) / TAU);
    var lo, hi := Ceil((min - value) / TAU), ((max - value) / TAU).Floor;
    var candidates := Candidates(value, seed, min, max);
    assert candidates[0] == nearest && candidates[3] == lo && candidates[4] == hi;
    TurnsOrder(value, min, lo);
    TurnsOrder(value, min, lo - 1);
    TurnsOrder(value, max, hi);
    TurnsOrder(value, max, hi + 1);
    var c := if n < lo && (lo > hi) then hi
             else if n > hi && (lo > hi) then lo
             else if nearest < lo then lo else if nearest > hi then hi else nearest;
    assert c in candidates;
    Matches(value, seed, min, max, lo, hi, n, c);
  }

  lemma Matches(value: real, seed: real, min: real, max: real, lo: int, hi: int, n: int, c: int)
    requires min <= max
    requires Branch(value, lo) >= min > Branch(value, lo - 1)
    requires Branch(value, hi) <= max < Branch(value, hi + 1)
    requires var nearest := Round((seed - value) / TAU);
             c == if n < lo && lo > hi then hi
                  else if n > hi && lo > hi then lo
                  else if nearest < lo then lo else if nearest > hi then hi else nearest
    ensures !Better(ScoreOf(value, seed, min, max, n), ScoreOf(value, seed, min, max, c))
  {
    hide Branch, Round;
    if lo > hi {
      if n < hi {
        BranchOrder(value, n, hi);
      } else if n > lo {
        BranchOrder(value, lo, n);
      }
      if hi + 1 < lo - 1 {
        BranchOrder(value, hi + 1, lo - 1);
      }
      assert hi + 1 == lo;
    } else {
      if n < lo - 1 {
        BranchOrder(value, n, lo - 1);
      } else if n > hi + 1 {
        BranchOrder(value, hi + 1, n);
      }
      if lo < c {
        BranchOrder(value, lo, c);
      }
      if c < hi {
        BranchOrder(value, c, hi);
      }
      if lo <= n <= hi {
        FartherIsWorse(value, seed, c, n);
      }
    }
  }

  /**
   The branch of `value` that the window admits nearest the seed, or that misses it by the
   least: no whole number of turns does better. An empty window returns the value unchanged.
   */
  method WrapToWindow(value: real, seed: real, min: real, max: real) returns (r: real, ghost turns: int)
    ensures r == Branch(value, turns)
    ensures min > max ==> r == value
    ensures min <= max ==>
              forall n: int :: !Better(ScoreOf(value, seed, min, max, n), ScoreOf(value, seed, min, max, turns))
  {
    hide Branch, Round, Ceil;
    BranchZero(value);
    if min > max {
      return value, 0;
    }
    var candidates := Candidates(value, seed, min, max);
    r, turns := value, 0;
    var best: Option<Score> := None;
    for i := 0 to |candidates|
      invariant best.None? <==> i == 0
      invariant r == Branch(value, turns)
      invariant best.Some? ==> best.value == ScoreOf(value, seed, min, max, turns)
      invariant forall j | 0 <= j < i :: !Better(ScoreOf(value, seed, min, max, candidates[j]), best.value)
    {
      var k := candidates[i];
      var score := ScoreOf(value, seed, min, max, k);
      if best.None? || Better(score, best.value) {
        best := Some(score);
        r, turns := Branch(value, k), k;
      }
    }
    forall n: int ensures !Better(ScoreOf(value, seed, min, max, n), ScoreOf(value, seed, min, max, turns)) {
      CandidatesSuffice(value, seed, min, max, n);
    }
  }

  lemma BranchZero(value: real)
    ensures Branch(value, 0) == value
  {
  }

  /** How far an angle lies outside a window. */
  ghost function Miss(x: real, min: real, max: real): real
    requires min <= max
  {
    if x < min then min - x else if x > max then x - max else 0.0
  }

  /**
   A branch no other beats misses the window by no more than any other whole number of turns would,
   and of those that miss it by as little none is nearer the seed. So it is inside when any is.
   */
  lemma UnbeatenBranch(value: real, seed: real, min: real, max: real, turns: int, n: int)
    requires min <= max
    requires forall k: int :: !Better(ScoreOf(value, seed, min, max, k), ScoreOf(value, seed, min, max, turns))
    ensures var r, other := value + turns as real * TAU, value + n as real * TAU;
            && Miss(r, min, max) <= Miss(other, min, max)
            && (Miss(r, min, max) == Miss(other, min, max) ==> Abs(r - seed) <= Abs(other - seed))
            && (min <= other <= max ==> min <= r <= max)
  {
    assert !Better(ScoreOf(value, seed, min, max, n), ScoreOf(value, seed, min, max, turns));
  }
}
