/** The step grid: 8 tracks of 16 stored steps, of which only the first
    `count` of each track are active, and the index arithmetic around it
    (manual stepping with wrap-around, and which step is shown as current). */
module Grid {

  const NumTracks := 8
  const NumSteps := 16

  /** The step counts the track's step-count selector offers. */
  predicate ValidCount(n: int)
  {
    n == 4 || n == 8 || n == 12 || n == 16
  }

  /** g with the single cell (i, j) set to v. */
  function Updated<T>(g: seq<seq<T>>, i: nat, j: nat, v: T): (r: seq<seq<T>>)
    requires i < |g| && j < |g[i]|
    ensures |r| == |g| && forall k :: 0 <= k < |g| ==> |r[k]| == |g[k]|
    ensures r[i][j] == v
    ensures forall k, l :: 0 <= k < |g| && 0 <= l < |g[k]| && (k != i || l != j) ==> r[k][l] == g[k][l]
  {
    g[i := g[i][j := v]]
  }

  /** The grid after a click on step s of track t: that cell flips and no other changes. */
  function Toggled(g: seq<seq<bool>>, t: nat, s: nat): (r: seq<seq<bool>>)
    requires t < |g| && s < |g[t]|
    ensures |r| == |g| && forall k :: 0 <= k < |g| ==> |r[k]| == |g[k]|
    ensures r[t][s] == !g[t][s]
    ensures forall k, l :: 0 <= k < |g| && 0 <= l < |g[k]| && (k != t || l != s) ==> r[k][l] == g[k][l]
  {
    Updated(g, t, s, !g[t][s])
  }

  /** Toggling the same step twice restores the grid. */
  lemma {:induction false} ToggleTwice(g: seq<seq<bool>>, t: nat, s: nat)
    requires t < |g| && s < |g[t]|
    ensures Toggled(Toggled(g, t, s), t, s) == g
  {
    var r := Toggled(Toggled(g, t, s), t, s);
    assert |r| == |g|;
    forall k | 0 <= k < |g|
      ensures r[k] == g[k]
    {
      assert |r[k]| == |g[k]|;
      forall l | 0 <= l < |g[k]|
        ensures r[k][l] == g[k][l]
      {
      }
    }
  }

  /** JavaScript's `%` for a positive divisor: the remainder takes the sign
      of the dividend (truncating division), unlike Dafny's Euclidean `%`. */
  function JsRem(a: int, b: int): (r: int)
    requires b > 0
    ensures -b < r < b
    ensures a >= 0 ==> 0 <= r
    ensures a <= 0 ==> r <= 0
  {
    if a >= 0 then a % b else -((-a) % b)
  }

  /** The remainder completes a truncating division: a is the divisor times
      the quotient rounded toward zero, plus the remainder. */
  lemma JsRemQuotient(a: int, b: int)
    requires b > 0
    ensures a >= 0 ==> a == b * (a / b) + JsRem(a, b)
    ensures a < 0 ==> a == b * -((-a) / b) + JsRem(a, b)
  {
    var n := if a >= 0 then a else -a;
    assert n == b * (n / b) + n % b;
  }

  /** A dividend smaller in size than the divisor is its own remainder, and
      the divisor leaves none. */
  lemma JsRemSmall(a: int, b: int)
    requires b > 0
    ensures -b < a < b ==> JsRem(a, b) == a
    ensures JsRem(b, b) == 0
  {
    if 0 <= a < b {
      ModSmall(a, b);
    } else if -b < a < 0 {
      ModSmall(-a, b);
    }
    ModSelf(b);
  }

  lemma ModSmall(a: int, b: int)
    requires 0 <= a < b
    ensures a % b == a
  {
  }

  lemma ModSelf(b: int)
    requires b > 0
    ensures b % b == 0
  {
  }

  datatype Direction = Forward | Backward

  /** The new current step of a track after a press of its skip button:
      forward adds one modulo the step count, backward subtracts one and
      wraps to the last active step from the start position -1 or from 0. */
  function NextStep(cur: int, count: int, dir: Direction): (r: int)
    requires count > 0
    ensures dir == Forward && -1 <= cur ==> 0 <= r < count
    ensures dir == Backward && cur <= count ==> 0 <= r < count
    ensures -1 <= cur ==> 0 <= r && (r < count || r < cur)
  {
    match dir
    case Forward => JsRem(cur + 1, count)
    case Backward => if cur <= 0 then count - 1 else cur - 1
  }

  /** From the start position -1, forward reaches the first step and
      backward the last; backward from 0 also wraps to the last step. */
  lemma NextStepFromStart(count: int)
    requires count > 0
    ensures NextStep(-1, count, Forward) == 0
    ensures NextStep(-1, count, Backward) == count - 1
    ensures NextStep(0, count, Backward) == count - 1
    ensures NextStep(count - 1, count, Forward) == 0
  {
    JsRemSmall(0, count);
  }

  /** The position after k presses of the same skip button from cur. */
  function Pressed(cur: int, count: int, dir: Direction, k: nat): int
    requires count > 0
  {
    if k == 0 then cur else NextStep(Pressed(cur, count, dir, k - 1), count, dir)
  }

  /** From the start position -1, k forward presses (at most count of them)
      reach step k - 1. */
  lemma {:induction false} ForwardPresses(count: int, k: nat)
    requires 0 < k <= count
    ensures Pressed(-1, count, Forward, k) == k - 1
  {
    if k == 1 {
      JsRemSmall(0, count);
    } else {
      ForwardPresses(count, k - 1);
      JsRemSmall(k - 1, count);
    }
  }

  /** A current step left at or beyond the count (the count was lowered after
      the position got there) only moves down by one when stepping backward. */
  lemma BackwardFromStale(cur: int, count: int)
    requires 0 < count <= cur
    ensures NextStep(cur, count, Backward) == cur - 1
  {
  }

  /** On an active step, forward and backward undo each other. */
  lemma ForwardBackwardInverse(cur: int, count: int)
    requires 0 <= cur < count
    ensures NextStep(NextStep(cur, count, Forward), count, Backward) == cur
    ensures NextStep(NextStep(cur, count, Backward), count, Forward) == cur
  {
    JsRemSmall(cur + 1, count);
    JsRemSmall(cur, count);
  }

  /** Whether step s of a track is drawn as the current one: the global
      position when the global transport plays and the track follows it, or
      the track's own position when its own clock runs; never an inactive step. */
  predicate Highlighted(s: int, count: int, globalStep: int, playing: bool, ownClock: bool, trackStep: int)
    ensures Highlighted(s, count, globalStep, playing, ownClock, trackStep) ==>
      s < count && s == (if ownClock then trackStep else globalStep)
  {
    (globalStep == s && playing && !ownClock && s < count) ||
    (trackStep == s && ownClock && s < count)
  }

  /** At most one step of a track is highlighted at a time. */
  lemma HighlightUnique(s1: int, s2: int, count: int, globalStep: int, playing: bool, ownClock: bool, trackStep: int)
    requires Highlighted(s1, count, globalStep, playing, ownClock, trackStep)
    requires Highlighted(s2, count, globalStep, playing, ownClock, trackStep)
    ensures s1 == s2
  {
  }

  /** Which clock's position is shown follows the track's transport mode:
      a track on the global clock shows the global step, and only while the
      global transport plays; a track on its own clock shows its own step. */
  lemma HighlightFollowsClock(s: int, count: int, globalStep: int, playing: bool, ownClock: bool, trackStep: int)
    requires 0 <= s < count
    ensures !ownClock ==> (Highlighted(s, count, globalStep, playing, ownClock, trackStep) <==> playing && s == globalStep)
    ensures ownClock ==> (Highlighted(s, count, globalStep, playing, ownClock, trackStep) <==> s == trackStep)
  {
  }
}
