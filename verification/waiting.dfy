/**
 * The two bounded waits over the provider: `_wait_for_transition` (both
 * lineages), which gives up silently, and the top-level `_wait_for_ssh`,
 * which raises once its budget is spent. Every round refreshes each listed
 * instance once, in list order, and judges it right after its refresh.
 */
module Waiting {

  import opened Wrappers
  import opened States
  import opened Identity
  import opened MockEc2
  import opened Polling
  import opened Seqs

  /**
   * Whether an instance still holds a transition up: it is still in the state
   * being left, or not yet in the state being waited for (each check only when
   * that state is given).
   */
  predicate Blocks(code: int, from: Option<int>, to: Option<int>) {
    (from.Some? && code == from.value) || (to.Some? && code != to.value)
  }

  /** One round of `_check_instances_for_transition`. */
  function TransitionRound(c: Cloud, ids: seq<Id>, from: Option<int>, to: Option<int>): (r: (Cloud, bool))
    requires Valid(c, ids)
    ensures r.0 == Apply(c, ids, DoUpdate)
    decreases |ids|
  {
    if |ids| == 0 then (c, true)
    else
      var c1 := Refresh(c, ids[0]);
      var (c2, clear) := TransitionRound(c1, ids[1..], from, to);
      (c2, clear && !Blocks(CodeOf(c1, ids[0]), from, to))
  }

  /**
   * A round over a list without repetitions is clear exactly when every listed
   * instance, once refreshed, blocks nothing.
   */
  lemma {:induction false} TransitionRoundClear(c: Cloud, ids: seq<Id>, from: Option<int>, to: Option<int>)
    requires Valid(c, ids) && Distinct(ids)
    ensures var r := TransitionRound(c, ids, from, to);
      r.1 <==> forall k :: 0 <= k < |ids| ==> !Blocks(CodeOf(r.0, ids[k]), from, to)
    decreases |ids|
  {
    if |ids| > 0 {
      var c1 := Refresh(c, ids[0]);
      TransitionRoundClear(c1, ids[1..], from, to);
      var r := TransitionRound(c, ids, from, to);
      assert ids[0] !in ids[1..];
      ApplyUntouched(c1, ids[1..], DoUpdate, ids[0]);
      assert CodeOf(r.0, ids[0]) == CodeOf(c1, ids[0]);
      forall k | 1 <= k < |ids|
        ensures ids[k] == ids[1..][k - 1]
      {
      }
    }
  }

  /** Applying an action to a list leaves an instance outside it alone. */
  lemma ApplyUntouched(c: Cloud, ids: seq<Id>, a: Action, j: Id)
    requires Valid(c, ids) && j !in ids
    ensures CodeOf(Apply(c, ids, a), j) == CodeOf(c, j)
    ensures IpOf(Apply(c, ids, a), j) == IpOf(c, j)
  {
    if j < |c.instances| {
      assert multiset(ids)[j] == 0;
    }
  }

  /** The round the transition waiter repeats. */
  function TransitionStep(ids: seq<Id>, from: Option<int>, to: Option<int>): Round<Cloud> {
    (w: Cloud, attempt: nat) => if Valid(w, ids) then TransitionRound(w, ids, from, to) else (w, false)
  }

  /**
   * `_wait_for_transition(instances, state_code, new_state_code)`: nothing at
   * all for an empty list, otherwise a bounded poll of transition rounds that
   * never raises.
   */
  function WaitTransition(lineage: Lineage, c: Cloud, ids: seq<Id>, from: Option<int>, to: Option<int>, tries: int): (r: Poll<Cloud>)
    requires Valid(c, ids)
    ensures ids == [] ==> r == Poll(c, 0, true, 0)
    ensures |r.world.instances| == |c.instances| && r.world.limit == c.limit && r.world.script == c.script
    ensures TagsKept(c, r.world) && HealthKept(c, r.world, [])
    ensures Unscripted(c) ==> Unscripted(r.world)
    ensures Refreshed(c, r.world, [])
  {
    if ids == [] then Poll(c, 0, true, 0)
    else
      var p := Run(lineage, TransitionStep(ids, from, to), c, tries);
      RunSpec(lineage, TransitionStep(ids, from, to), c, tries);
      AfterShape(TransitionStep(ids, from, to), ids, c, p.rounds);
      AfterKeepsTags(TransitionStep(ids, from, to), ids, c, p.rounds);
      AfterRefreshed(TransitionStep(ids, from, to), ids, c, p.rounds);
      p
  }

  /** A round that refreshes the listed instances and changes nothing else. */
  ghost predicate Refreshes(step: Round<Cloud>, ids: seq<Id>) {
    forall w: Cloud, k: nat :: step(w, k).0 == if Valid(w, ids) then Apply(w, ids, DoUpdate) else w
  }

  /** Refreshing rounds keep the table's size, limit and script. */
  lemma {:induction false} AfterShape(step: Round<Cloud>, ids: seq<Id>, c: Cloud, n: nat)
    requires Refreshes(step, ids)
    ensures var w := After(step, c, n);
      |w.instances| == |c.instances| && w.limit == c.limit && w.script == c.script
    decreases n
  {
    if n > 0 {
      AfterShape(step, ids, c, n - 1);
      assert step(After(step, c, n - 1), n - 1).0 == After(step, c, n);
    }
  }

  /**
   * Refreshing rounds never change tags, nor the health of an instance that
   * follows no script.
   */
  lemma {:induction false} AfterKeepsTags(step: Round<Cloud>, ids: seq<Id>, c: Cloud, n: nat)
    requires Refreshes(step, ids)
    ensures TagsKept(c, After(step, c, n))
    ensures HealthKept(c, After(step, c, n), [])
    ensures Unscripted(c) ==> Unscripted(After(step, c, n))
    decreases n
  {
    if n > 0 {
      AfterKeepsTags(step, ids, c, n - 1);
      AfterShape(step, ids, c, n - 1);
      var w := After(step, c, n - 1);
      assert step(w, n - 1).0 == After(step, c, n);
      if Valid(w, ids) {
        ApplyKeepsHealth(w, ids, DoUpdate);
        forall j | 0 <= j < |c.instances|
          ensures TagsOf(After(step, c, n), j) == TagsOf(c, j)
        {
          ApplyKeepsTags(w, ids, DoUpdate, j);
        }
      }
    }
  }

  /** Refreshing rounds, however many, only refresh. */
  lemma {:induction false} AfterRefreshed(step: Round<Cloud>, ids: seq<Id>, c: Cloud, n: nat)
    requires Refreshes(step, ids)
    ensures Refreshed(c, After(step, c, n), [])
    decreases n
  {
    if n > 0 {
      AfterRefreshed(step, ids, c, n - 1);
      var w := After(step, c, n - 1);
      assert step(w, n - 1).0 == After(step, c, n);
      if Valid(w, ids) {
        ApplyRefreshes(w, ids);
      }
      RefreshedTrans(c, w, After(step, c, n), []);
    }
  }

  /**
   * The waiter gives up only after its full budget of rounds, each of which
   * found some listed instance still blocking; it never fails.
   */
  lemma WaitTransitionSpec(lineage: Lineage, c: Cloud, ids: seq<Id>, from: Option<int>, to: Option<int>, tries: int)
    requires Valid(c, ids) && ids != []
    ensures var p := WaitTransition(lineage, c, ids, from, to, tries);
      var step := TransitionStep(ids, from, to);
      && p.rounds <= Budget(tries)
      && p.world == After(step, c, p.rounds)
      && (p.cleared <==> exists k :: 0 <= k < Budget(tries) && ClearAt(step, c, k))
      && (!p.cleared ==> p.rounds == Budget(tries))
      && p.sleeps == Sleeps(lineage, p.rounds, p.cleared)
  {
    RunSpec(lineage, TransitionStep(ids, from, to), c, tries);
  }

  /**
   * A scriptless instance on its way out holds up every round of a wait for
   * a healthy state: refreshing never makes it healthy again.
   */
  lemma RoundBlocked(c: Cloud, ids: seq<Id>, from: Option<int>, to: Option<int>, j: Id)
    requires Valid(c, ids) && Distinct(ids) && j in ids
    requires c.instances[j].mode == Natural && !Healthy(c.instances[j].code)
    requires to.Some? && Healthy(to.value)
    ensures !TransitionRound(c, ids, from, to).1
  {
    TransitionRoundClear(c, ids, from, to);
    ApplyKeepsHealth(c, ids, DoUpdate);
    var k :| 0 <= k < |ids| && ids[k] == j;
  }

  /**
   * A round waiting for running over scriptless instances that are all
   * pending or running is clear: one refresh brings each of them to running.
   */
  lemma RoundClears(c: Cloud, ids: seq<Id>)
    requires Valid(c, ids) && Distinct(ids)
    requires forall k :: 0 <= k < |ids| ==>
               c.instances[ids[k]].mode == Natural && (CodeOf(c, ids[k]) == Pending || CodeOf(c, ids[k]) == Running)
    ensures TransitionRound(c, ids, None, Some(Running)).1
  {
    TransitionRoundClear(c, ids, None, Some(Running));
    forall k | 0 <= k < |ids|
      ensures CodeOf(Apply(c, ids, DoUpdate), ids[k]) == Running
    {
      RefreshOnce(c, ids, ids[k]);
    }
  }

  /**
   * A wait for a healthy state over a list holding a scriptless instance on
   * its way out never clears: it spends its whole budget, sleeping after
   * every round in the top-level lineage.
   */
  lemma WaitNeverClears(lineage: Lineage, c: Cloud, ids: seq<Id>, from: Option<int>, to: Option<int>, tries: int, j: Id)
    requires Valid(c, ids) && Distinct(ids) && j in ids
    requires c.instances[j].mode == Natural && !Healthy(c.instances[j].code)
    requires to.Some? && Healthy(to.value)
    ensures var p := WaitTransition(lineage, c, ids, from, to, tries);
      && !p.cleared && p.rounds == Budget(tries) && p.sleeps == Sleeps(lineage, Budget(tries), false)
  {
    var step := TransitionStep(ids, from, to);
    forall k: nat | k < Budget(tries)
      ensures !ClearAt(step, c, k)
    {
      var w := After(step, c, k);
      AfterShape(step, ids, c, k);
      AfterKeepsTags(step, ids, c, k);
      RoundBlocked(w, ids, from, to, j);
    }
    WaitTransitionSpec(lineage, c, ids, from, to, tries);
  }

  /**
   * A wait for running over scriptless instances that are all pending or
   * running clears in its first round, without a sleep, given any budget.
   */
  lemma WaitClearsAtOnce(lineage: Lineage, c: Cloud, ids: seq<Id>, tries: int)
    requires Valid(c, ids) && Distinct(ids) && tries >= 1
    requires forall k :: 0 <= k < |ids| ==>
               c.instances[ids[k]].mode == Natural && (CodeOf(c, ids[k]) == Pending || CodeOf(c, ids[k]) == Running)
    ensures var p := WaitTransition(lineage, c, ids, None, Some(Running), tries);
      p.cleared && p.rounds <= 1 && p.sleeps == 0
  {
    if ids != [] {
      var step := TransitionStep(ids, None, Some(Running));
      RoundClears(c, ids);
      assert ClearAt(step, c, 0);
      RunSpec(lineage, step, c, tries);
    }
  }

  // ---- the SSH gate ----

  /** `_check_if_ssh_ready`: no address means not ready; otherwise the probe decides. */
  predicate SshReady(c: Cloud, id: Id, probe: (Id, nat) -> bool, attempt: nat) {
    IpOf(c, id) != "" && probe(id, attempt)
  }

  /** One round of `_check_instances_for_ssh`. */
  function SshRound(c: Cloud, ids: seq<Id>, probe: (Id, nat) -> bool, attempt: nat): (r: (Cloud, bool))
    requires Valid(c, ids)
    ensures r.0 == Apply(c, ids, DoUpdate)
    decreases |ids|
  {
    if |ids| == 0 then (c, true)
    else
      var c1 := Refresh(c, ids[0]);
      var (c2, ready) := SshRound(c1, ids[1..], probe, attempt);
      (c2, ready && SshReady(c1, ids[0], probe, attempt))
  }

  function SshStep(ids: seq<Id>, probe: (Id, nat) -> bool): Round<Cloud> {
    (w: Cloud, attempt: nat) => if Valid(w, ids) then SshRound(w, ids, probe, attempt) else (w, false)
  }

  /**
   * `_wait_for_ssh(instances)`: an empty list passes at once; otherwise the
   * bounded poll must find every instance ready within the budget, or the gate
   * raises `SSHTimeoutError`.
   */
  function SshGate(c: Cloud, ids: seq<Id>, probe: (Id, nat) -> bool, tries: int): (r: Result<Cloud>)
    requires Valid(c, ids)
    ensures ids == [] ==> r == Success(c)
    ensures r.Failure? ==> r.error == SshTimeout
    ensures r.Success? ==> |r.value.instances| == |c.instances| && r.value.limit == c.limit && r.value.script == c.script
    ensures r.Success? ==> TagsKept(c, r.value) && HealthKept(c, r.value, [])
    ensures r.Success? && Unscripted(c) ==> Unscripted(r.value)
    ensures r.Success? ==> Refreshed(c, r.value, [])
  {
    if ids == [] then Success(c)
    else
      var p := Run(TopLevel, SshStep(ids, probe), c, tries);
      RunSpec(TopLevel, SshStep(ids, probe), c, tries);
      AfterShape(SshStep(ids, probe), ids, c, p.rounds);
      AfterKeepsTags(SshStep(ids, probe), ids, c, p.rounds);
      AfterRefreshed(SshStep(ids, probe), ids, c, p.rounds);
      if p.cleared then Success(p.world) else Failure(SshTimeout)
  }

  /**
   * The gate raises exactly when the list is not empty and none of its
   * `tries` rounds found every instance ready; so a budget of zero or less
   * raises for any non-empty list.
   */
  lemma SshGateSpec(c: Cloud, ids: seq<Id>, probe: (Id, nat) -> bool, tries: int)
    requires Valid(c, ids)
    ensures SshGate(c, ids, probe, tries).Failure? <==>
              ids != [] && forall k :: 0 <= k < Budget(tries) ==> !ClearAt(SshStep(ids, probe), c, k)
    ensures ids != [] && tries <= 0 ==> SshGate(c, ids, probe, tries).Failure?
  {
    RunSpec(TopLevel, SshStep(ids, probe), c, tries);
  }

  /** No provider action changes an instance's address. */
  lemma {:induction false} IterateKeepsAddress(a: Action, i: Inst, n: nat)
    ensures Iterate(a, i, n).ip == i.ip
    decreases n
  {
    if n > 0 {
      IterateKeepsAddress(a, Act(a, i), n - 1);
    }
  }

  lemma ApplyKeepsAddress(c: Cloud, ids: seq<Id>, a: Action, j: Id)
    requires Valid(c, ids)
    ensures IpOf(Apply(c, ids, a), j) == IpOf(c, j)
  {
    if j < |c.instances| {
      IterateKeepsAddress(a, c.instances[j], multiset(ids)[j]);
    }
  }

  /** A round over a list holding an instance without an address is never clear. */
  lemma {:induction false} SshRoundNeedsAddress(c: Cloud, ids: seq<Id>, probe: (Id, nat) -> bool, attempt: nat, j: Id)
    requires Valid(c, ids) && j in ids && IpOf(c, j) == ""
    ensures !SshRound(c, ids, probe, attempt).1
    decreases |ids|
  {
    var c1 := Refresh(c, ids[0]);
    assert IpOf(c1, j) == "" by {
      if j < |c.instances| && j == ids[0] {
        assert c1.instances[j] == Act(DoUpdate, c.instances[j]);
        IterateKeepsAddress(DoUpdate, c.instances[j], 1);
      }
    }
    assert !SshReady(c1, j, probe, attempt);
    if ids[0] != j {
      assert j in ids[1..] && Valid(c1, ids[1..]);
      SshRoundNeedsAddress(c1, ids[1..], probe, attempt, j);
    }
  }

  /**
   * An instance that never got an address keeps the gate closed: the gate
   * raises whatever the probe answers.
   */
  lemma UnaddressedTimesOut(c: Cloud, ids: seq<Id>, probe: (Id, nat) -> bool, tries: int, j: Id)
    requires Valid(c, ids) && j in ids && IpOf(c, j) == ""
    ensures SshGate(c, ids, probe, tries) == Failure(SshTimeout)
  {
    SshGateSpec(c, ids, probe, tries);
    forall k | 0 <= k < Budget(tries)
      ensures !ClearAt(SshStep(ids, probe), c, k)
    {
      AfterKeepsAddress(c, ids, probe, k, j);
      SshRoundNeedsAddress(After(SshStep(ids, probe), c, k), ids, probe, k, j);
    }
  }

  lemma {:induction false} AfterKeepsAddress(c: Cloud, ids: seq<Id>, probe: (Id, nat) -> bool, n: nat, j: Id)
    requires Valid(c, ids)
    ensures var w := After(SshStep(ids, probe), c, n);
      |w.instances| == |c.instances| && IpOf(w, j) == IpOf(c, j)
    decreases n
  {
    if n > 0 {
      AfterKeepsAddress(c, ids, probe, n - 1, j);
      var w := After(SshStep(ids, probe), c, n - 1);
      ApplyKeepsAddress(w, ids, DoUpdate, j);
    }
  }
}
