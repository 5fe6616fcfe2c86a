/**
 * The per-axis rules of the mirror window: how a requested lower or upper
 * bound is accepted or replaced, how a move target is clamped into the
 * bounds, the targets of the increment and decrement buttons, the startup
 * window around each axis, and the list of axes checked for optimisation.
 */
module Bounds {

  function Min(a: int, b: int): int {
    if a <= b then a else b
  }

  function Max(a: int, b: int): int {
    if a >= b then a else b
  }

  function Dist(a: int, b: int): nat {
    if a >= b then a - b else b - a
  }

  /**
   * The lower bound set_min stores for a requested val, given the axis's
   * upper bound hi and position pos: val itself when it lies strictly below
   * hi and not above pos, otherwise the smaller of hi and pos.
   */
  function NewMin(val: int, hi: int, pos: int): (r: int)
    ensures r <= pos && r <= hi
    ensures val < hi && val <= pos ==> r == val
    ensures r == val <==> val <= hi && val <= pos
    ensures r == hi || r == pos || r == val
  {
    if val < hi && val <= pos then val else Min(hi, pos)
  }

  /**
   * The upper bound set_max stores for a requested val, given the axis's
   * lower bound lo and position pos: val itself when it lies strictly above
   * lo and not below pos, otherwise the larger of lo and pos.
   */
  function NewMax(val: int, lo: int, pos: int): (r: int)
    ensures r >= pos && r >= lo
    ensures val > lo && val >= pos ==> r == val
    ensures r == val <==> val >= lo && val >= pos
    ensures r == lo || r == pos || r == val
  {
    if val > lo && val >= pos then val else Max(lo, pos)
  }

  /**
   * The target abs_move goes to: min(max(p, lo), hi), the point of [lo, hi]
   * nearest to p ("as close as possible if out of range").
   */
  function Clamp(p: int, lo: int, hi: int): (r: int)
    ensures lo <= hi ==> lo <= r <= hi
    ensures lo <= p <= hi ==> r == p
    ensures lo <= hi ==> forall q :: lo <= q <= hi ==> Dist(r, p) <= Dist(q, p)
    ensures lo > hi ==> r == hi
  {
    Min(Max(p, lo), hi)
  }

  /** The target of the increment button: pos + inc, saturated at hi. */
  function IncrementTarget(pos: int, hi: int, inc: int): (r: int)
    ensures r <= hi && r <= pos + inc
    ensures r == hi || r == pos + inc
  {
    Min(hi, pos + inc)
  }

  /** The target of the decrement button: pos - inc, saturated at lo. */
  function DecrementTarget(pos: int, lo: int, inc: int): (r: int)
    ensures r >= lo && r >= pos - inc
    ensures r == lo || r == pos - inc
  {
    Max(lo, pos - inc)
  }

  /**
   * With the axis inside its bounds and a non-negative increment, the
   * increment target needs no further clamping and moves the axis up, never
   * past hi; the decrement target likewise moves it down, never past lo.
   */
  lemma StepTargetsStayInBounds(lo: int, pos: int, hi: int, inc: int)
    requires lo <= pos <= hi && inc >= 0
    ensures var t := IncrementTarget(pos, hi, inc); Clamp(t, lo, hi) == t && pos <= t <= hi
    ensures var t := DecrementTarget(pos, lo, inc); Clamp(t, lo, hi) == t && lo <= t <= pos
  {
  }

  /**
   * The repair zero performs on an axis inside its bounds: set_max(0) when
   * hi < 0 stores 0, set_min(0) when lo > 0 stores 0, so the bounds become
   * the smallest widening of [lo, hi] that holds 0.
   */
  lemma ZeroRepairStoresZero(lo: int, pos: int, hi: int)
    requires lo <= pos <= hi
    ensures hi < 0 ==> NewMax(0, lo, pos) == 0 && Max(hi, 0) == 0 && Min(lo, 0) == lo
    ensures lo > 0 ==> NewMin(0, hi, pos) == 0 && Min(lo, 0) == 0 && Max(hi, 0) == hi
    ensures Min(lo, 0) <= 0 <= Max(hi, 0)
  {
  }

  /** The bounds every axis has before startup: [-100, 100]. */
  const InitialMin: int := -100
  const InitialMax: int := 100
  /** Startup asks for bounds this far on either side of the position read. */
  const StartupMargin: int := 100

  /**
   * The bounds startup leaves on an axis read at position p, as written:
   * set_min(p - 100) runs while the upper bound is still the initial 100,
   * then set_max(p + 100) runs against the lower bound just stored.
   */
  function StartupBoundsAsWritten(p: int): (r: (int, int))
    ensures r.0 <= p <= r.1
  {
    var lo := NewMin(p - StartupMargin, InitialMax, p);
    var hi := NewMax(p + StartupMargin, lo, p);
    (lo, hi)
  }

  /**
   * The reference window startup is meant to give: StartupMargin steps either
   * side of p. The as-written and the corrected startup are compared with it.
   */
  function StartupWindow(p: int): (r: (int, int))
    ensures r.0 <= p <= r.1
    ensures p - r.0 == StartupMargin && r.1 - p == StartupMargin
  {
    (p - StartupMargin, p + StartupMargin)
  }

  /**
   * Startup corrected: the same set_min(p - 100) and set_max(p + 100), followed
   * by set_min(p - 100) once more, now against the widened upper bound. Every
   * position read gets the intended window.
   */
  function StartupBoundsCorrected(p: int): (r: (int, int))
    ensures r == StartupWindow(p)
  {
    var lo := NewMin(p - StartupMargin, InitialMax, p);
    var hi := NewMax(p + StartupMargin, lo, p);
    (NewMin(p - StartupMargin, hi, p), hi)
  }

  /**
   * Startup as written gives the intended window exactly when the position
   * read is at most 200; above that the lower bound is cut to 100.
   */
  lemma StartupAsWrittenMatchesWindow(p: int)
    ensures StartupBoundsAsWritten(p) == StartupWindow(p) <==> p <= InitialMax + StartupMargin
    ensures p > InitialMax + StartupMargin ==> StartupBoundsAsWritten(p) == (InitialMax, p + StartupMargin)
  {
  }

  /** An axis read at 500 at startup gets bounds [100, 600] instead of [400, 600]. */
  lemma StartupWindowMissedAt500()
    ensures StartupBoundsAsWritten(500) == (100, 600)
    ensures StartupWindow(500) == (400, 600)
  {
  }

  /**
   * The ascending list of the indices below n whose box is checked, as
   * set_opt_axes builds it by appending in index order.
   */
  function CheckedIndices(checked: seq<bool>, n: nat): (r: seq<int>)
    requires n <= |checked|
    ensures forall k :: 0 <= k < |r| ==> 0 <= r[k] < n && checked[r[k]]
    ensures forall j :: 0 <= j < n && checked[j] ==> j in r
    ensures forall k, l :: 0 <= k < l < |r| ==> r[k] < r[l]
  {
    if n == 0 then []
    else CheckedIndices(checked, n - 1) + (if checked[n - 1] then [n - 1] else [])
  }
}
