/**
 * The bounded retry loop shared by the state-transition waiter and the SSH
 * gate: up to `tries` rounds over some world, stopping at the first round that
 * reports everything ready, with the sleeps between rounds counted the way each
 * lineage places them.
 */
module Polling {

  import opened Identity

  /** One round: the world after it, and whether every instance was ready. */
  type Round<!W> = (W, nat) -> (W, bool)

  /**
   * The outcome of a poll: the world after the last round, the number of rounds
   * run, whether the last one found everything ready, and the sleeps taken.
   */
  datatype Poll<W> = Poll(world: W, rounds: nat, cleared: bool, sleeps: nat)

  /**
   * `for attempt in range(tries)`: round `attempt` runs; a clear round breaks;
   * otherwise the top-level lineage always sleeps, while the nested one skips
   * the sleep after its last attempt.
   */
  function Loop<W>(lineage: Lineage, round: Round<W>, w: W, tries: int, attempt: nat, sleeps: nat): Poll<W>
    decreases if tries > attempt then tries - attempt else 0
  {
    if attempt >= tries then Poll(w, attempt, false, sleeps)
    else
      var (next, clear) := round(w, attempt);
      if clear then Poll(next, attempt + 1, true, sleeps)
      else
        var slept := if lineage == Nested && attempt == tries - 1 then sleeps else sleeps + 1;
        Loop(lineage, round, next, tries, attempt + 1, slept)
  }

  /** A poll from its first attempt. */
  function Run<W>(lineage: Lineage, round: Round<W>, w: W, tries: int): Poll<W> {
    Loop(lineage, round, w, tries, 0, 0)
  }

  // ---- an independent description of the same poll ----

  /** The world after `n` rounds that all ran. */
  function After<W>(round: Round<W>, w: W, n: nat): W
    decreases n
  {
    if n == 0 then w else round(After(round, w, n - 1), n - 1).0
  }

  /** Whether round `k` (counting from 0) reports everything ready. */
  predicate ClearAt<W>(round: Round<W>, w: W, k: nat) {
    round(After(round, w, k), k).1
  }

  function Budget(tries: int): nat {
    if tries > 0 then tries else 0
  }

  /** The sleeps a poll of `rounds` rounds takes, as each lineage places them. */
  function Sleeps(lineage: Lineage, rounds: nat, cleared: bool): nat {
    if cleared || (lineage == Nested && rounds > 0) then
      if rounds > 0 then rounds - 1 else 0
    else rounds
  }

  lemma {:induction false} LoopSpec<W>(lineage: Lineage, round: Round<W>, w: W, tries: int, attempt: nat, sleeps: nat)
    requires attempt <= Budget(tries)
    requires forall k :: 0 <= k < attempt ==> !ClearAt(round, w, k)
    ensures var p := Loop(lineage, round, After(round, w, attempt), tries, attempt, sleeps);
      && attempt <= p.rounds <= Budget(tries)
      && p.world == After(round, w, p.rounds)
      && (forall k :: 0 <= k < p.rounds - 1 ==> !ClearAt(round, w, k))
      && (p.cleared <==> p.rounds > attempt && ClearAt(round, w, p.rounds - 1))
      && (!p.cleared ==> p.rounds == Budget(tries) && (p.rounds > 0 ==> !ClearAt(round, w, p.rounds - 1)))
      && p.sleeps == sleeps + Sleeps(lineage, p.rounds - attempt, p.cleared)
    decreases Budget(tries) - attempt
  {
    if attempt < tries {
      var here := After(round, w, attempt);
      var (next, clear) := round(here, attempt);
      assert next == After(round, w, attempt + 1);
      if !clear {
        var slept := if lineage == Nested && attempt == tries - 1 then sleeps else sleeps + 1;
        LoopSpec(lineage, round, w, tries, attempt + 1, slept);
      }
    }
  }

  /**
   * The poll runs rounds until the first one that is clear, and at most
   * `tries` of them; it reports clear exactly when such a round came within
   * the budget, ends in the world that many rounds produce, and sleeps after
   * every failed round (top-level) or between rounds only (nested).
   */
  lemma RunSpec<W>(lineage: Lineage, round: Round<W>, w: W, tries: int)
    ensures var p := Run(lineage, round, w, tries);
      && p.rounds <= Budget(tries)
      && p.world == After(round, w, p.rounds)
      && (forall k :: 0 <= k < p.rounds - 1 ==> !ClearAt(round, w, k))
      && (p.cleared <==> p.rounds > 0 && ClearAt(round, w, p.rounds - 1))
      && (p.cleared <==> exists k :: 0 <= k < Budget(tries) && ClearAt(round, w, k))
      && (!p.cleared ==> p.rounds == Budget(tries))
      && p.sleeps == Sleeps(lineage, p.rounds, p.cleared)
  {
    LoopSpec(lineage, round, w, tries, 0, 0);
    var p := Run(lineage, round, w, tries);
    if !p.cleared {
      forall k | 0 <= k < Budget(tries)
        ensures !ClearAt(round, w, k)
      {
      }
    }
  }

  /**
   * The two lineages stop after the same rounds in the same world; they differ
   * only in the top-level lineage's extra sleep after an exhausted budget.
   */
  lemma LineagesAgree<W>(round: Round<W>, w: W, tries: int)
    ensures var top := Run(TopLevel, round, w, tries);
      var nested := Run(Nested, round, w, tries);
      && top.world == nested.world && top.rounds == nested.rounds && top.cleared == nested.cleared
      && top.sleeps == nested.sleeps + (if !top.cleared && top.rounds > 0 then 1 else 0)
  {
    RunSpec(TopLevel, round, w, tries);
    RunSpec(Nested, round, w, tries);
    FirstClearUnique(round, w, Run(TopLevel, round, w, tries).rounds, Run(Nested, round, w, tries).rounds,
                     Run(TopLevel, round, w, tries).cleared, Run(Nested, round, w, tries).cleared, tries);
  }

  /**
   * The top-level poll, as written, sleeps once more after its last round has
   * failed: a poll that times out sleeps as many times as it ran rounds, the
   * last sleep coming after nothing is left to check.
   */
  lemma TopSleepsAfterLast<W>(round: Round<W>, w: W, tries: int)
    requires tries > 0 && !Run(TopLevel, round, w, tries).cleared
    ensures Run(TopLevel, round, w, tries).sleeps == Run(TopLevel, round, w, tries).rounds == tries
  {
    RunSpec(TopLevel, round, w, tries);
  }

  /**
   * The nested poll sleeps only between rounds: one fewer sleep than rounds
   * whenever it ran any, whether it cleared or timed out.
   */
  lemma NestedSleepsBetween<W>(round: Round<W>, w: W, tries: int)
    requires tries > 0
    ensures Run(Nested, round, w, tries).sleeps + 1 == Run(Nested, round, w, tries).rounds
  {
    RunSpec(Nested, round, w, tries);
  }

  /** Two stopping points that both satisfy the poll's description are the same. */
  lemma FirstClearUnique<W>(round: Round<W>, w: W, a: nat, b: nat, ca: bool, cb: bool, tries: int)
    requires a <= Budget(tries) && b <= Budget(tries)
    requires forall k :: 0 <= k < a - 1 ==> !ClearAt(round, w, k)
    requires forall k :: 0 <= k < b - 1 ==> !ClearAt(round, w, k)
    requires ca <==> a > 0 && ClearAt(round, w, a - 1)
    requires cb <==> b > 0 && ClearAt(round, w, b - 1)
    requires !ca ==> a == Budget(tries)
    requires !cb ==> b == Budget(tries)
    ensures a == b && ca == cb
  {
  }
}
