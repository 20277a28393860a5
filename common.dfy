/**
 * Small pieces shared by several components: an Option type for JavaScript's
 * `undefined`, integer and real min/max (`Math.min`/`Math.max`), a first-match
 * search (`Array.prototype.find`/`findIndex`) and the wrap-around index
 * arithmetic that both the dropdown menu items and the tab list use for their
 * arrow keys.
 */
module Common {

  datatype Option<+T> = None | Some(value: T)

  /** JavaScript truthiness of an optional string: `undefined`, `null` and "" are falsy. */
  predicate Truthy(s: Option<string>) {
    s.Some? && s.value != ""
  }

  /** `a || b` on optional strings. */
  function OrElse(a: Option<string>, b: Option<string>): Option<string>
  {
    if Truthy(a) then a else b
  }

  /**
   * `a || b` is truthy exactly when one of its operands is, it is always one
   * of them, and a falsy left operand never hides a truthy right one.
   */
  lemma OrElseTruthy(a: Option<string>, b: Option<string>)
    ensures Truthy(OrElse(a, b)) <==> Truthy(a) || Truthy(b)
    ensures OrElse(a, b) == a || OrElse(a, b) == b
    ensures Truthy(b) && !Truthy(a) ==> OrElse(a, b) == b
    ensures OrElse(a, OrElse(a, b)) == OrElse(a, b)
  {
  }

  function MinInt(a: int, b: int): int { if a <= b then a else b }
  function MaxInt(a: int, b: int): int { if a >= b then a else b }
  function MinReal(a: real, b: real): real { if a <= b then a else b }
  function MaxReal(a: real, b: real): real { if a >= b then a else b }

  /**
   * Index of the first element satisfying `p`, as `findIndex` returns it
   * (with None for -1).
   */
  function FirstIndex<T>(s: seq<T>, p: T -> bool): (r: Option<nat>)
    ensures r.Some? ==> r.value < |s| && p(s[r.value])
    ensures r.Some? ==> forall j :: 0 <= j < r.value ==> !p(s[j])
    ensures r.None? ==> forall j :: 0 <= j < |s| ==> !p(s[j])
  {
    if |s| == 0 then None
    else if p(s[0]) then Some(0)
    else match FirstIndex(s[1..], p)
      case None => None
      case Some(k) => Some(k + 1)
  }

  /**
   * The index after `current` among `count` items, wrapping from the last to
   * the first: `current < count - 1 ? current + 1 : 0`. A `current` of -1
   * (the focused element is not in the list) moves to 0.
   */
  function WrapNext(current: int, count: int): int {
    if current < count - 1 then current + 1 else 0
  }

  /** The index before `current`, wrapping from the first to the last: `current > 0 ? current - 1 : count - 1`. */
  function WrapPrev(current: int, count: int): int {
    if current > 0 then current - 1 else count - 1
  }

  /** `k` presses of the "next" key starting from `current`. */
  function WrapNextTimes(current: int, count: int, k: nat): int {
    if k == 0 then current else WrapNext(WrapNextTimes(current, count, k - 1), count)
  }

  /** On a non-empty list both moves stay inside the list, and each undoes the other. */
  lemma WrapInverse(current: int, count: int)
    requires 0 <= current < count
    ensures 0 <= WrapNext(current, count) < count
    ensures 0 <= WrapPrev(current, count) < count
    ensures WrapPrev(WrapNext(current, count), count) == current
    ensures WrapNext(WrapPrev(current, count), count) == current
  {
  }

  /**
   * Pressing "next" k times (at most `count`) from index `current` lands on
   * current + k, wrapped once past the end: the key visits every item in list
   * order, and `count` presses come back to where they started.
   */
  lemma {:induction false} WrapNextCycles(current: int, count: int, k: nat)
    requires 0 <= current < count
    requires k <= count
    ensures WrapNextTimes(current, count, k) == if current + k < count then current + k else current + k - count
    ensures k == count ==> WrapNextTimes(current, count, k) == current
  {
    if k > 0 {
      WrapNextCycles(current, count, k - 1);
    }
  }
}
