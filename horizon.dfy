/**
 * Horizons and step indices of the reverse hypergradient driver.
 *
 * A horizon is what the caller passes as the number of inner steps: either an
 * integer count or an explicit, finite sequence of step indices.
 */
module Horizon {
  import opened Wrappers

  /** A step count, or an explicit list of step indices. */
  datatype Horizon = Count(n: int) | Listed(indices: seq<int>)

  /** The step indices a horizon yields: 0, 1, ..., n - 1 for a count (none when n <= 0), the list itself otherwise. */
  function Indices(h: Horizon): (r: seq<int>)
    ensures h.Count? ==> |r| == (if h.n < 0 then 0 else h.n)
    ensures h.Count? ==> forall k :: 0 <= k < |r| ==> r[k] == k
    ensures h.Listed? ==> r == h.indices
  {
    match h
    case Count(n) => seq(if n < 0 then 0 else n, k => k)
    case Listed(s) => s
  }

  /** The index of the last step a forward pass ran; 0 when it ran none. */
  function LastIndex(ts: seq<int>): (r: int)
    ensures |ts| == 0 ==> r == 0
    ensures |ts| > 0 ==> r in ts && r == ts[|ts| - 1]
  {
    if |ts| == 0 then 0 else ts[|ts| - 1]
  }

  /** After an integer horizon of n >= 1 steps the last index is n - 1, one below the step count. */
  lemma LastIndexOfCount(n: int)
    ensures LastIndex(Indices(Count(n))) == if n > 0 then n - 1 else 0
  {
    if n > 0 {
      assert Indices(Count(n))[n - 1] == n - 1;
    }
  }

  /**
   * The virtual step index handed to the per-step feed providers and callbacks.
   * Off-line it is the step itself. On-line, with an integer first horizon `tot`,
   * it is shifted by `tot` times the global step (0 when there is none); with a
   * list horizon the index is passed through unchanged.
   */
  function AdjustStep(online: bool, t: int, first: Horizon, globalStep: Option<int>): (r: int)
    ensures !online ==> r == t
    ensures online && first.Listed? ==> r == t
    ensures online && first.Count? && globalStep.None? ==> r == t
    ensures online && first.Count? && globalStep.Some? ==> r - t == first.n * globalStep.value
  {
    if !online then t
    else
      var g := globalStep.GetOr(0);
      match first
      case Count(tot) => t + tot * g
      case Listed(_) => t
  }

  /**
   * On-line, with an integer horizon of n steps, every virtual index of outer
   * iteration g lies in [n * g, n * g + n): later outer iterations see strictly
   * later virtual time.
   */
  lemma OnlineIndicesIncrease(n: int, g: int, t: int, u: int)
    requires 0 <= t < n && 0 <= u < n
    ensures AdjustStep(true, t, Count(n), Some(g)) < AdjustStep(true, u, Count(n), Some(g + 1))
  {
    assert n * (g + 1) == n * g + n;
  }

  /** On-line, with an integer horizon, distinct (outer iteration, step) pairs get distinct virtual indices. */
  lemma OnlineIndicesDistinct(n: int, g: int, h: int, t: int, u: int)
    requires 0 <= t < n && 0 <= u < n
    requires AdjustStep(true, t, Count(n), Some(g)) == AdjustStep(true, u, Count(n), Some(h))
    ensures t == u && g == h
  {
    assert t + n * g == u + n * h;
    if g < h {
      ShiftAtLeast(n, g, h);
    } else if h < g {
      ShiftAtLeast(n, h, g);
    }
  }

  /** Going from outer iteration a to a later b moves the virtual index by at least n. */
  lemma ShiftAtLeast(n: int, a: int, b: int)
    requires n >= 0 && a < b
    ensures n * b - n * a >= n
  {
    var d := b - a;
    assert n * b - n * a == n * d;
    assert n * d == n + n * (d - 1);
    assert n * (d - 1) >= 0;
  }
}
