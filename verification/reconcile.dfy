/**
 * The arithmetic `create` uses to bring the number of healthy instances into
 * the configured `[min, max]` range: how many to give up, or what range of new
 * instances to ask the provider for. Both lineages are modelled.
 */
module Reconcile {

  import opened Wrappers

  /** The top-level decision: keep a prefix of the healthy list, reserve more, or leave it as it is. */
  datatype Plan = Trim(keep: nat) | Reserve(lo: int, hi: int) | Leave

  function Max(a: int, b: int): int {
    if a >= b then a else b
  }

  /**
   * `_satisfy_config_requirements`: with `max - present` negative the list is
   * cut at `healthy[:max - present]` (Python's negative slice, which keeps the
   * first `max` when `max` is not negative); with it positive the provider is
   * asked for `[max(1, min - present), max - present]`.
   */
  function TopPlan(present: nat, minCount: int, maxCount: int): (p: Plan)
    ensures p.Trim? <==> present > maxCount
    ensures p.Trim? ==> p.keep <= present && (maxCount >= 0 ==> p.keep == maxCount < present)
    ensures p.Trim? && maxCount < 0 ==> p.keep == 0
    ensures p.Reserve? <==> present < maxCount
    ensures p.Reserve? ==>
              && p.hi == maxCount - present && p.lo >= 1 && p.lo >= minCount - present
              && (p.lo == 1 || p.lo == minCount - present)
    ensures p.Leave? <==> present == maxCount
  {
    var maxNeeded := maxCount - present;
    if maxNeeded < 0 then
      var cut := present + maxNeeded;
      Trim(if cut < 0 then 0 else cut)
    else if maxNeeded > 0 then
      Reserve(Max(1, minCount - present), maxNeeded)
    else Leave
  }

  /**
   * With `0 < min <= max` the range asked for is one the provider accepts:
   * `1 <= lo <= hi`; and what is asked for plus what is present lies within
   * `[min, max]` at both ends.
   */
  lemma TopRequestValid(present: nat, minCount: int, maxCount: int)
    requires 0 < minCount <= maxCount
    ensures var p := TopPlan(present, minCount, maxCount);
      p.Reserve? ==> 1 <= p.lo <= p.hi && present + p.lo >= minCount && present + p.hi == maxCount
  {
  }

  /** The nested decision: how many to pop off the end, and the needed range. */
  datatype Need = Need(popped: nat, lo: int, hi: int)

  /**
   * The three cases of the nested `create`: too many pops the surplus; too few
   * needs `(min - present, max - present)`; otherwise `(0, max - present)`.
   * The third test of the nested `create` (`min <= present <= max`) always
   * holds where it is reached.
   */
  function NestedNeed(present: nat, minCount: int, maxCount: int): (n: Need)
    ensures n.hi >= 0
    ensures n.popped > 0 <==> present > maxCount
    ensures n.popped > 0 ==> present - n.popped == maxCount && n.lo == 0 && n.hi == 0
    ensures n.popped == 0 ==> n.hi == maxCount - present
    ensures n.popped == 0 && present < minCount ==> n.lo == minCount - present
    ensures n.popped == 0 && present >= minCount ==> n.lo == 0
  {
    if present > maxCount then Need(present - maxCount, 0, 0)
    else if present < minCount then Need(0, minCount - present, maxCount - present)
    else Need(0, 0, maxCount - present)
  }

  /**
   * A reservation is made only when something is needed, with its lower bound
   * raised to 1 (`needed_min = 1 if needed_min < 1 else needed_min`).
   */
  function NestedRequest(n: Need): (r: Option<(int, int)>)
    ensures r.Some? <==> n.hi > 0
    ensures r.Some? ==>
              && r.value.0 >= 1 && r.value.0 >= n.lo && r.value.1 == n.hi
              && (r.value.0 == 1 || r.value.0 == n.lo)
  {
    if n.hi > 0 then Some((if n.lo < 1 then 1 else n.lo, n.hi)) else None
  }

  /**
   * The nested `create` pops no more than the list holds exactly when `max`
   * is not negative; a negative `max` pops past the end.
   */
  lemma NestedPopsWithin(present: nat, minCount: int, maxCount: int)
    ensures NestedNeed(present, minCount, maxCount).popped <= present <==> maxCount >= 0
  {
  }

  /** With `0 < min <= max` the nested request is one the provider accepts. */
  lemma NestedRequestValid(present: nat, minCount: int, maxCount: int)
    requires 0 < minCount <= maxCount
    ensures var r := NestedRequest(NestedNeed(present, minCount, maxCount));
      r.Some? ==> 1 <= r.value.0 <= r.value.1 && present + r.value.1 == maxCount
  {
  }

  /**
   * The lineages agree: both leave the list alone exactly when it holds `max`,
   * both cut it down to `max` when it is longer (for a non-negative `max`),
   * and both ask the provider for the same range when it is shorter.
   */
  lemma LineagesAgree(present: nat, minCount: int, maxCount: int)
    ensures var p, n := TopPlan(present, minCount, maxCount), NestedNeed(present, minCount, maxCount);
      && (p.Leave? <==> n.popped == 0 && NestedRequest(n).None?)
      && (p.Trim? && maxCount >= 0 ==> p.keep == present - n.popped)
      && (p.Reserve? <==> NestedRequest(n).Some?)
      && (p.Reserve? ==> NestedRequest(n).value == (p.lo, p.hi))
  {
  }
}
