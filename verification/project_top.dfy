/**
 * The top-level `WolphinProject` (`wolphin/project.py`): every operation as a
 * function from a provider state to the next one, with the instance records
 * `status()` returns represented by the ids of the instances it lists.
 * Exceptions are `Failure`s; the provider state they leave behind is not kept.
 */
module TopProject {

  import opened Wrappers
  import opened States
  import opened Text
  import opened Identity
  import opened MockEc2
  import opened Seqs
  import opened Polling
  import opened Waiting
  import opened Session
  import opened Selector
  import Reconcile

  /** The SSH probe `run("hostname")`: whether it succeeds for an instance in a given round. */
  type Probe = (Id, nat) -> bool

  // ---- listing and filtering ----

  /**
   * `_select_instances(selector)`: all of the project's instances, refreshed,
   * narrowed by the selector (no selector selects them all).
   */
  function SelectInstances(s: Settings, c: Cloud, sel: Selector): (r: Result<Step<seq<Id>>>)
    ensures r.Success? ==> Valid(r.value.cloud, r.value.value) && Distinct(r.value.value)
    ensures r.Success? ==> Keeps(c, r.value.cloud) && |r.value.cloud.instances| == |c.instances|
    ensures sel.Default? ==> r.Success?
    ensures r.Success? ==> forall k :: 0 <= k < |r.value.value| ==> InProject(s, c, r.value.value[k])
    ensures r.Success? ==> Refreshed(c, r.value.cloud, [])
    ensures r.Success? ==> forall j :: j in r.value.value ==> r.value.cloud.instances[j] == Update(c.instances[j])
  {
    var all := List(c, ProjectFilter(s));
    var chosen := Select(sel, all.cloud, all.value);
    if chosen.Failure? then Failure(chosen.error)
    else
      SubsequenceValid(all.cloud, chosen.value, all.value);
      SubsequenceDistinct(chosen.value, all.value);
      forall k | 0 <= k < |chosen.value|
        ensures InProject(s, c, chosen.value[k])
        ensures all.cloud.instances[chosen.value[k]] == Update(c.instances[chosen.value[k]])
      {
        SubsequenceElement(chosen.value, all.value, k);
        Listed(c, ProjectFilter(s), chosen.value[k]);
      }
      Success(Step(all.cloud, chosen.value))
  }

  /**
   * A later table whose instances carry the same tags selects the same
   * instances: every step of an operation sees the selection its first step saw.
   */
  lemma SelectStable(s: Settings, c: Cloud, d: Cloud, sel: Selector)
    requires |d.instances| == |c.instances| && TagsKept(c, d)
    ensures SelectInstances(s, d, sel).Success? == SelectInstances(s, c, sel).Success?
    ensures SelectInstances(s, c, sel).Success? ==>
              SelectInstances(s, d, sel).value.value == SelectInstances(s, c, sel).value.value
  {
    var a, b := List(c, ProjectFilter(s)), List(d, ProjectFilter(s));
    SelectUnfold(s, c, sel);
    SelectUnfold(s, d, sel);
    ListedTagsAgree(c, d, ProjectFilter(s));
    SelectAgree(sel, a.cloud, b.cloud, a.value);
  }

  /** The selection is the selector applied to the project's listing. */
  lemma SelectUnfold(s: Settings, c: Cloud, sel: Selector)
    ensures var all := List(c, ProjectFilter(s));
            var chosen := Select(sel, all.cloud, all.value);
              && SelectInstances(s, c, sel).Success? == chosen.Success?
              && (chosen.Success? ==> SelectInstances(s, c, sel).value.value == chosen.value)
  {
  }

  /** Without a selector every instance of the project is selected, and no other. */
  lemma SelectDefault(s: Settings, c: Cloud)
    ensures var r := SelectInstances(s, c, Default);
      r.Success? && forall j :: 0 <= j < |c.instances| ==> (j in r.value.value <==> InProject(s, c, j))
  {
    var all := List(c, ProjectFilter(s));
    assert Select(Default, all.cloud, all.value) == Success(all.value);
  }

  /**
   * `status(selector)`: one record per selected instance, here its id; without
   * a selector, one for every instance of the project and no other.
   */
  function Status(s: Settings, c: Cloud, sel: Selector): (r: Result<Step<seq<Id>>>)
    ensures r.Success? ==> Valid(r.value.cloud, r.value.value) && Distinct(r.value.value)
    ensures r.Success? ==> Keeps(c, r.value.cloud) && |r.value.cloud.instances| == |c.instances|
    ensures sel.Default? ==>
              r.Success? && forall j :: 0 <= j < |c.instances| ==> (j in r.value.value <==> InProject(s, c, j))
    ensures r.Success? ==> Refreshed(c, r.value.cloud, [])
    ensures r.Success? ==> forall j :: j in r.value.value ==> r.value.cloud.instances[j] == Update(c.instances[j])
  {
    SelectDefault(s, c);
    SelectInstances(s, c, sel)
  }

  /**
   * The status of number `n` lists exactly the instances of the project whose
   * name decodes to `n`, when every name in the project decodes.
   */
  lemma StatusByNumber(s: Settings, c: Cloud, n: int)
    requires forall j :: InProject(s, c, j) ==> Number(TopLevel, TagsOf(c, j)).Success?
    ensures var r := Status(s, c, ByNumbers([n]));
      r.Success? && forall j :: 0 <= j < |c.instances| ==>
        (j in r.value.value <==> InProject(s, c, j) && Number(TopLevel, TagsOf(c, j)) == Success(n))
  {
    var all := List(c, ProjectFilter(s));
    forall k | 0 <= k < |all.value|
      ensures NumberAt(all.cloud, all.value[k]).Success?
    {
      Listed(c, ProjectFilter(s), all.value[k]);
    }
    SelectOne(all.cloud, all.value, n);
    var chosen := Select(ByNumbers([n]), all.cloud, all.value).value;
    assert SelectInstances(s, c, ByNumbers([n])) == Success(Step(all.cloud, chosen));
    forall j | 0 <= j < |c.instances|
      ensures j in chosen <==> InProject(s, c, j) && Number(TopLevel, TagsOf(c, j)) == Success(n)
    {
      assert TagsOf(all.cloud, j) == TagsOf(c, j);
      assert j in all.value <==> InProject(s, c, j);
    }
  }

  /** Selecting one number keeps exactly the listed instances that carry it. */
  lemma SelectOne(c: Cloud, ids: seq<Id>, n: int)
    requires forall k :: 0 <= k < |ids| ==> NumberAt(c, ids[k]).Success?
    ensures var r := Select(ByNumbers([n]), c, ids);
      r.Success? && forall x :: x in r.value <==> x in ids && NumberAt(c, x) == Success(n)
  {
    var r := Select(ByNumbers([n]), c, ids);
    forall x
      ensures x in r.value <==> x in ids && NumberAt(c, x) == Success(n)
    {
      if x in r.value {
        SubsequenceMembers(r.value, ids);
      }
    }
  }

  /**
   * `get_instances_in_states(state_codes, inverse_select, selector)`: the
   * selected instances whose code is (or, inverted, is not) one of the codes,
   * in selection order, judged after the listing's refresh.
   */
  function InStates(s: Settings, c: Cloud, codes: set<int>, inverse: bool, sel: Selector): (r: Result<Step<seq<Id>>>)
    ensures r.Success? <==> SelectInstances(s, c, sel).Success?
    ensures r.Success? ==> Valid(r.value.cloud, r.value.value) && Distinct(r.value.value)
    ensures r.Success? ==> Keeps(c, r.value.cloud) && |r.value.cloud.instances| == |c.instances|
    ensures r.Success? ==>
              var chosen := SelectInstances(s, c, sel).value;
              && r.value.cloud == chosen.cloud
              && Subsequence(r.value.value, chosen.value)
              && forall k :: 0 <= k < |chosen.value| ==>
                   (chosen.value[k] in r.value.value <==> Wanted(CodeOf(chosen.cloud, chosen.value[k]), codes, inverse))
    ensures r.Success? ==>
              var chosen := SelectInstances(s, c, sel).value;
              forall j :: j in chosen.value ==> (j in r.value.value <==> Wanted(CodeOf(chosen.cloud, j), codes, inverse))
  {
    var chosen :- SelectInstances(s, c, sel);
    var kept := Keep(chosen.cloud, chosen.value, codes, inverse);
    SubsequenceValid(chosen.cloud, kept, chosen.value);
    SubsequenceDistinct(kept, chosen.value);
    forall k | 0 <= k < |chosen.value|
      ensures chosen.value[k] in kept <==> Wanted(CodeOf(chosen.cloud, chosen.value[k]), codes, inverse)
    {
      KeepMembers(chosen.cloud, chosen.value, codes, inverse, chosen.value[k]);
    }
    Success(Step(chosen.cloud, kept))
  }

  /**
   * The in-states query and its inverse split the same selection: each
   * selected instance is in exactly one of the two answers.
   */
  lemma InStatesPartition(s: Settings, c: Cloud, codes: set<int>, sel: Selector)
    requires SelectInstances(s, c, sel).Success?
    ensures var chosen := SelectInstances(s, c, sel).value.value;
      var yes := InStates(s, c, codes, false, sel).value.value;
      var no := InStates(s, c, codes, true, sel).value.value;
      && |yes| + |no| == |chosen|
      && forall k :: 0 <= k < |chosen| ==> (chosen[k] in yes <==> chosen[k] !in no)
  {
    var chosen := SelectInstances(s, c, sel).value;
    KeepPartition(chosen.cloud, chosen.value, codes);
  }

  /**
   * `_get_healthy_instances(selector)`: the selected instances that are
   * neither terminated nor shutting down.
   */
  function HealthyInstances(s: Settings, c: Cloud, sel: Selector): (r: Result<Step<seq<Id>>>)
    ensures r.Success? <==> SelectInstances(s, c, sel).Success?
    ensures r.Success? ==> Valid(r.value.cloud, r.value.value) && Distinct(r.value.value)
    ensures r.Success? ==> Keeps(c, r.value.cloud) && |r.value.cloud.instances| == |c.instances|
    ensures r.Success? ==> forall k :: 0 <= k < |r.value.value| ==> Healthy(CodeOf(r.value.cloud, r.value.value[k]))
    ensures r.Success? ==>
              var chosen := SelectInstances(s, c, sel).value;
              && r.value.cloud == chosen.cloud
              && Subsequence(r.value.value, chosen.value)
              && forall k :: 0 <= k < |chosen.value| ==>
                   (chosen.value[k] in r.value.value <==> Healthy(CodeOf(chosen.cloud, chosen.value[k])))
  {
    HealthyKept(s, c, sel);
    InStates(s, c, Unhealthy, true, sel)
  }

  /** `InStates` with the unhealthy codes inverted keeps exactly the healthy instances. */
  lemma HealthyKept(s: Settings, c: Cloud, sel: Selector)
    ensures var r := InStates(s, c, Unhealthy, true, sel);
            r.Success? ==>
              && (forall k :: 0 <= k < |r.value.value| ==> Healthy(CodeOf(r.value.cloud, r.value.value[k])))
              && var chosen := SelectInstances(s, c, sel).value;
                 forall k :: 0 <= k < |chosen.value| ==>
                   (chosen.value[k] in r.value.value <==> Healthy(CodeOf(chosen.cloud, chosen.value[k])))
  {
    var r := InStates(s, c, Unhealthy, true, sel);
    if r.Success? {
      var chosen := SelectInstances(s, c, sel).value;
      HealthyAmong(chosen, r.value);
    }
  }

  /**
   * A list drawn from `chosen` that keeps exactly the members not in the
   * unhealthy codes holds healthy instances only, and exactly the healthy ones.
   */
  lemma HealthyAmong(chosen: Step<seq<Id>>, kept: Step<seq<Id>>)
    requires kept.cloud == chosen.cloud && Subsequence(kept.value, chosen.value)
    requires forall j :: j in chosen.value ==> (j in kept.value <==> Wanted(CodeOf(chosen.cloud, j), Unhealthy, true))
    ensures forall k :: 0 <= k < |kept.value| ==> Healthy(CodeOf(kept.cloud, kept.value[k]))
    ensures forall k :: 0 <= k < |chosen.value| ==>
              (chosen.value[k] in kept.value <==> Healthy(CodeOf(chosen.cloud, chosen.value[k])))
  {
    forall k | 0 <= k < |kept.value|
      ensures Healthy(CodeOf(kept.cloud, kept.value[k]))
    {
      SubsequenceElement(kept.value, chosen.value, k);
    }
  }

  // ---- waiting ----

  /**
   * `_wait_for_starting/_shutting_down/_stopping_instances(instances, selector)`:
   * waits on the given instances or, when none are given, on the selected ones
   * currently in the state being left.
   */
  function WaitFor(s: Settings, c: Cloud, ids: seq<Id>, from: int, to: int, sel: Selector): (r: Result<Cloud>)
    requires Valid(c, ids)
    ensures r.Success? ==> Keeps(c, r.value) && |r.value.instances| == |c.instances|
    ensures r.Success? <==> ids != [] || SelectInstances(s, c, sel).Success?
    ensures ids != [] || sel.Default? ==> r.Success?
    ensures r.Success? ==> Refreshed(c, r.value, [])
  {
    var targets :- WaitTargets(s, c, ids, from, sel);
    var w := WaitTransition(TopLevel, targets.cloud, targets.value, Some(from), Some(to), s.tries).world;
    KeepsTrans(c, targets.cloud, w);
    RefreshedTrans(c, targets.cloud, w, []);
    Success(w)
  }

  /** The instances `WaitFor` waits on: the given ones, or the selected ones in state `from`. */
  function WaitTargets(s: Settings, c: Cloud, ids: seq<Id>, from: int, sel: Selector): (r: Result<Step<seq<Id>>>)
    requires Valid(c, ids)
    ensures r.Success? ==> Valid(r.value.cloud, r.value.value) && Keeps(c, r.value.cloud)
    ensures r.Success? ==> |r.value.cloud.instances| == |c.instances|
    ensures r.Success? <==> ids != [] || SelectInstances(s, c, sel).Success?
    ensures ids != [] || sel.Default? ==> r.Success?
    ensures r.Success? ==> Refreshed(c, r.value.cloud, [])
  {
    if ids != [] then Success(Step(c, ids)) else InStates(s, c, {from}, false, sel)
  }

  // ---- start, stop, reboot ----

  /** The codes `start` leaves alone: every known state but stopped. */
  const StartSkips: set<int> := {ShuttingDown, Terminated, Stopping, Pending, Running}

  /** The codes `stop` leaves alone: every known state but running. */
  const StopSkips: set<int> := {ShuttingDown, Terminated, Pending, Stopping, Stopped}

  /**
   * Among instances in a known state, `start` picks exactly the stopped ones
   * and `stop` exactly the running ones.
   */
  lemma TargetRules(c: Cloud, ids: seq<Id>, id: Id)
    requires id in ids && CodeOf(c, id) in Known
    ensures id in Keep(c, ids, StartSkips, true) <==> CodeOf(c, id) == Stopped
    ensures id in Keep(c, ids, StopSkips, true) <==> CodeOf(c, id) == Running
  {
    KeepMembers(c, ids, StartSkips, true, id);
    KeepMembers(c, ids, StopSkips, true, id);
  }

  /** The SSH gate `start` and `create` end with. */
  function SshOnRunning(s: Settings, probe: Probe, c: Cloud, sel: Selector): (r: Result<Cloud>)
    ensures r.Success? ==> Keeps(c, r.value) && Refreshed(c, r.value, [])
  {
    var running :- InStates(s, c, {Running}, false, sel);
    var r := SshGate(running.cloud, running.value, probe, s.tries);
    if r.Success? then
      KeepsTrans(c, running.cloud, r.value);
      RefreshedTrans(c, running.cloud, r.value, []);
      r
    else r
  }

  /**
   * `start(selector, wait_for_ssh)`: waits out stopping instances, starts
   * the selected instances in no state but stopped, waits for them (or any
   * pending instance) to run, optionally gates on SSH, and reports the status.
   */
  function Start(s: Settings, probe: Probe, c: Cloud, sel: Selector, waitSsh: bool): (r: Result<Step<seq<Id>>>)
    ensures r.Success? ==> Grows(c, r.value.cloud) && |r.value.cloud.instances| == |c.instances| && TagsKept(c, r.value.cloud)
    ensures r.Success? && Unscripted(c) ==> Unscripted(r.value.cloud)
  {
    var c1 :- WaitFor(s, c, [], Stopping, Stopped, sel);
    var targets :- InStates(s, c1, StartSkips, true, sel);
    var c2 := Apply(targets.cloud, targets.value, DoStart);
    ApplyKeepsAll(targets.cloud, targets.value, DoStart);
    ApplyKeepsHealth(targets.cloud, targets.value, DoStart);
    var c3 := WaitFor(s, c2, targets.value, Pending, Running, Default).value;
    var c4 :- if waitSsh then SshOnRunning(s, probe, c3, sel) else Success(c3);
    Status(s, c4, sel)
  }

  /**
   * `stop(selector)`: waits out pending instances, stops the selected
   * instances in no state but running, waits for them (or any stopping
   * instance) to stop, and reports the status.
   */
  function Stop(s: Settings, c: Cloud, sel: Selector): (r: Result<Step<seq<Id>>>)
    ensures r.Success? ==> Grows(c, r.value.cloud) && |r.value.cloud.instances| == |c.instances| && TagsKept(c, r.value.cloud)
    ensures r.Success? && Unscripted(c) ==> Unscripted(r.value.cloud)
  {
    var c1 :- WaitFor(s, c, [], Pending, Running, sel);
    var targets :- InStates(s, c1, StopSkips, true, sel);
    var c2 := Apply(targets.cloud, targets.value, DoStop);
    ApplyKeepsAll(targets.cloud, targets.value, DoStop);
    ApplyKeepsHealth(targets.cloud, targets.value, DoStop);
    var c3 := WaitFor(s, c2, targets.value, Stopping, Stopped, Default).value;
    Status(s, c3, sel)
  }

  /** `reboot(selector)`: `stop`, then `start` (waiting for SSH), then the status. */
  function Reboot(s: Settings, probe: Probe, c: Cloud, sel: Selector): (r: Result<Step<seq<Id>>>)
    ensures r.Success? ==> Grows(c, r.value.cloud) && |r.value.cloud.instances| == |c.instances| && TagsKept(c, r.value.cloud)
    ensures r.Success? && Unscripted(c) ==> Unscripted(r.value.cloud)
  {
    var stopped :- Stop(s, c, sel);
    var started :- Start(s, probe, stopped.cloud, sel, true);
    Status(s, started.cloud, sel)
  }

  /** Between running and stopped, `start` picks the stopped and `stop` the running. */
  lemma SettledTargets(code: int)
    requires code == Running || code == Stopped
    ensures Wanted(code, StartSkips, true) <==> code == Stopped
    ensures Wanted(code, StopSkips, true) <==> code == Running
  {
  }

  /**
   * The action step of `start`: the instances outside the selection are
   * left alone, and every selected instance heading for running or for
   * stopped heads, once `start` is issued, for running.
   */
  lemma StartStep(s: Settings, c: Cloud, sel: Selector)
    requires SelectInstances(s, c, sel).Success?
    ensures var chosen, t := SelectInstances(s, c, sel).value.value, InStates(s, c, StartSkips, true, sel).value;
              && Refreshed(c, Apply(t.cloud, t.value, DoStart), chosen)
              && forall j :: j in chosen && (HeadsFor(c, j, Running) || HeadsFor(c, j, Stopped)) ==>
                   HeadsFor(Apply(t.cloud, t.value, DoStart), j, Running)
  {
    var chosen := SelectInstances(s, c, sel).value;
    var t := InStates(s, c, StartSkips, true, sel).value;
    forall j | j in chosen.value && (HeadsFor(c, j, Running) || HeadsFor(c, j, Stopped))
      ensures t.cloud.instances[j] == Update(c.instances[j])
      ensures j in t.value <==> CodeOf(t.cloud, j) != Running
    {
      assert j in t.value <==> Wanted(CodeOf(t.cloud, j), StartSkips, true);
      SettledTargets(CodeOf(t.cloud, j));
    }
    ActOnSelection(c, t.cloud, chosen.value, t.value, DoStart, Running);
  }

  /**
   * The action step of `stop`: the instances outside the selection are
   * left alone, and every selected instance heading for running or for
   * stopped heads, once `stop` is issued, for stopped.
   */
  lemma StopStep(s: Settings, c: Cloud, sel: Selector)
    requires SelectInstances(s, c, sel).Success?
    ensures var chosen, t := SelectInstances(s, c, sel).value.value, InStates(s, c, StopSkips, true, sel).value;
              && Refreshed(c, Apply(t.cloud, t.value, DoStop), chosen)
              && forall j :: j in chosen && (HeadsFor(c, j, Running) || HeadsFor(c, j, Stopped)) ==>
                   HeadsFor(Apply(t.cloud, t.value, DoStop), j, Stopped)
  {
    var chosen := SelectInstances(s, c, sel).value;
    var t := InStates(s, c, StopSkips, true, sel).value;
    forall j | j in chosen.value && (HeadsFor(c, j, Running) || HeadsFor(c, j, Stopped))
      ensures t.cloud.instances[j] == Update(c.instances[j])
      ensures j in t.value <==> CodeOf(t.cloud, j) != Stopped
    {
      assert j in t.value <==> Wanted(CodeOf(t.cloud, j), StopSkips, true);
      SettledTargets(CodeOf(t.cloud, j));
    }
    ActOnSelection(c, t.cloud, chosen.value, t.value, DoStop, Stopped);
  }

  /**
   * The closing status of `start` and `stop`: once the selection of `c`
   * was refreshed (`c1`), acted on so that each instance heading for running
   * or stopped heads for `goal` (`c2`), and refreshed again (`c3`), the status
   * reports the same selection, leaves every other instance as it was or
   * refreshed, and finds every selected instance that was pending, running,
   * stopping or stopped at `goal`.
   */
  lemma ClosingStatus(s: Settings, c: Cloud, c1: Cloud, c2: Cloud, c3: Cloud, sel: Selector, goal: int)
    requires Unscripted(c) && SelectInstances(s, c, sel).Success? && Status(s, c3, sel).Success?
    requires |c3.instances| == |c.instances| && TagsKept(c, c3)
    requires Refreshed(c, c1, []) && Refreshed(c1, c2, SelectInstances(s, c, sel).value.value) && Refreshed(c2, c3, [])
    requires forall j :: j in SelectInstances(s, c, sel).value.value && (HeadsFor(c1, j, Running) || HeadsFor(c1, j, Stopped)) ==>
               HeadsFor(c2, j, goal)
    ensures var r, chosen := Status(s, c3, sel).value, SelectInstances(s, c, sel).value.value;
              && r.value == chosen
              && Refreshed(c, r.cloud, chosen)
              && forall j :: j in chosen && CodeOf(c, j) in Settling ==> CodeOf(r.cloud, j) == goal
  {
    var chosen := SelectInstances(s, c, sel).value;
    SelectStable(s, c, c3, sel);
    var r := Status(s, c3, sel).value;
    forall j | j in chosen.value
      ensures j < |c.instances|
    {
      var k :| 0 <= k < |chosen.value| && chosen.value[k] == j;
    }
    Settles(c, c1, c2, c3, r.cloud, chosen.value, goal);
  }

  /**
   * On a provider without scripts a `start` that succeeds reports exactly
   * the selection, leaves every other instance as it was or refreshed, and
   * leaves every selected instance that was pending, running, stopping or
   * stopped running.
   */
  lemma StartRuns(s: Settings, probe: Probe, c: Cloud, sel: Selector, waitSsh: bool)
    requires Unscripted(c) && Start(s, probe, c, sel, waitSsh).Success?
    ensures SelectInstances(s, c, sel).Success?
    ensures var r, chosen := Start(s, probe, c, sel, waitSsh).value, SelectInstances(s, c, sel).value.value;
              && r.value == chosen
              && Refreshed(c, r.cloud, chosen)
              && forall j :: j in chosen && CodeOf(c, j) in Settling ==> CodeOf(r.cloud, j) == Running
  {
    var c1 := WaitFor(s, c, [], Stopping, Stopped, sel).value;
    var chosen := SelectInstances(s, c, sel).value.value;
    SelectStable(s, c, c1, sel);
    var t := InStates(s, c1, StartSkips, true, sel).value;
    var c2 := Apply(t.cloud, t.value, DoStart);
    StartStep(s, c1, sel);
    var c3 := WaitFor(s, c2, t.value, Pending, Running, Default).value;
    var c4 := if waitSsh then SshOnRunning(s, probe, c3, sel).value else c3;
    RefreshedTrans(c2, c3, c4, []);
    var r := Start(s, probe, c, sel, waitSsh).value;
    assert r == Status(s, c4, sel).value;
    TagsKeptBack(c, c4, r.cloud);
    ClosingStatus(s, c, c1, c2, c4, sel, Running);
  }

  /**
   * On a provider without scripts a `stop` that succeeds reports exactly the
   * selection, leaves every other instance as it was or refreshed, and
   * leaves every selected instance that was pending, running, stopping or
   * stopped stopped.
   */
  lemma StopStops(s: Settings, c: Cloud, sel: Selector)
    requires Unscripted(c) && Stop(s, c, sel).Success?
    ensures SelectInstances(s, c, sel).Success?
    ensures var r, chosen := Stop(s, c, sel).value, SelectInstances(s, c, sel).value.value;
              && r.value == chosen
              && Refreshed(c, r.cloud, chosen)
              && forall j :: j in chosen && CodeOf(c, j) in Settling ==> CodeOf(r.cloud, j) == Stopped
  {
    var c1 := WaitFor(s, c, [], Pending, Running, sel).value;
    var chosen := SelectInstances(s, c, sel).value.value;
    SelectStable(s, c, c1, sel);
    var t := InStates(s, c1, StopSkips, true, sel).value;
    var c2 := Apply(t.cloud, t.value, DoStop);
    StopStep(s, c1, sel);
    var c3 := WaitFor(s, c2, t.value, Stopping, Stopped, Default).value;
    var r := Stop(s, c, sel).value;
    assert r == Status(s, c3, sel).value;
    TagsKeptBack(c, c3, r.cloud);
    ClosingStatus(s, c, c1, c2, c3, sel, Stopped);
  }

  /**
   * On a provider without scripts a `reboot` that succeeds reports exactly
   * the selection, leaves every other instance as it was or refreshed, and
   * leaves every selected instance that was pending, running, stopping or
   * stopped running.
   */
  lemma RebootRuns(s: Settings, probe: Probe, c: Cloud, sel: Selector)
    requires Unscripted(c) && Reboot(s, probe, c, sel).Success?
    ensures SelectInstances(s, c, sel).Success?
    ensures var r, chosen := Reboot(s, probe, c, sel).value, SelectInstances(s, c, sel).value.value;
              && r.value == chosen
              && Refreshed(c, r.cloud, chosen)
              && forall j :: j in chosen && CodeOf(c, j) in Settling ==> CodeOf(r.cloud, j) == Running
  {
    var stopped := Stop(s, c, sel).value;
    StopStops(s, c, sel);
    var chosen := SelectInstances(s, c, sel).value.value;
    SelectStable(s, c, stopped.cloud, sel);
    var started := Start(s, probe, stopped.cloud, sel, true).value;
    StartRuns(s, probe, stopped.cloud, sel, true);
    var r := Reboot(s, probe, c, sel).value;
    assert r == Status(s, started.cloud, sel).value;
    TagsKeptBack(c, started.cloud, r.cloud);
    SelectStable(s, c, started.cloud, sel);
    SettlesTwice(c, stopped.cloud, started.cloud, r.cloud, chosen);
  }

  // ---- terminate ----

  /** `instances or self._get_healthy_instances(selector)`. */
  function TerminateTargets(s: Settings, c: Cloud, ids: seq<Id>, sel: Selector): (r: Result<Step<seq<Id>>>)
    requires Valid(c, ids)
    ensures r.Success? ==> Valid(r.value.cloud, r.value.value) && Keeps(c, r.value.cloud)
    ensures ids != [] ==> r == Success(Step(c, ids))
    ensures ids == [] ==> r == HealthyInstances(s, c, sel)
  {
    if ids != [] then Success(Step(c, ids)) else HealthyInstances(s, c, sel)
  }

  /**
   * `terminate(instances, selector)`: the given instances or, when none are
   * given, the selected healthy ones, are terminated and waited for; the
   * status of the selection follows. Every scriptless instance given is left
   * unhealthy, and every other keeps its health.
   */
  function Terminate(s: Settings, c: Cloud, ids: seq<Id>, sel: Selector): (r: Result<Step<seq<Id>>>)
    requires Valid(c, ids)
    ensures r.Success? ==> Grows(c, r.value.cloud) && TagsKept(c, r.value.cloud)
    ensures r.Success? && ids != [] ==> Retires(c, r.value.cloud, ids)
    ensures r.Success? && ids == [] ==>
              HealthyInstances(s, c, sel).Success? && Retires(c, r.value.cloud, HealthyInstances(s, c, sel).value.value)
    ensures r.Success? && Unscripted(c) ==> Unscripted(r.value.cloud)
    ensures sel.Default? ==> r.Success?
  {
    var targets :- TerminateTargets(s, c, ids, sel);
    var c1 := Apply(targets.cloud, targets.value, DoTerminate);
    ApplyRetires(targets.cloud, targets.value);
    var c2 := WaitFor(s, c1, targets.value, ShuttingDown, Terminated, Default).value;
    RetiresThenKeeps(targets.cloud, c1, c2, targets.value);
    var r :- Status(s, c2, sel);
    RetiresThenKeeps(targets.cloud, c2, r.cloud, targets.value);
    KeepsThenRetires(c, targets.cloud, r.cloud, targets.value);
    Success(r)
  }

  // ---- create ----

  /**
   * `for instance in healthy: if instance.state != 'running': instance.start()`:
   * every listed instance ends up started once, however often it is listed.
   */
  function StartNotRunning(c: Cloud, ids: seq<Id>): (r: Cloud)
    requires Valid(c, ids)
    ensures |r.instances| == |c.instances| && r.limit == c.limit && r.script == c.script
    ensures forall j :: 0 <= j < |c.instances| ==>
              r.instances[j] == if j in ids then Started(c.instances[j]) else c.instances[j]
    ensures Grows(c, r) && TagsKept(c, r) && (Unscripted(c) ==> Unscripted(r))
    decreases |ids|
  {
    if |ids| == 0 then c
    else
      var c1 := if CodeOf(c, ids[0]) != Running then ActAt(c, ids[0], DoStart) else c;
      assert ids == [ids[0]] + ids[1..];
      StartNotRunning(c1, ids[1..])
  }

  /** The guard on `running` changes nothing: the loop is the provider's start applied to the list. */
  lemma StartNotRunningIsApply(c: Cloud, ids: seq<Id>)
    requires Valid(c, ids)
    ensures StartNotRunning(c, ids) == Apply(c, ids, DoStart)
  {
    var r, d := StartNotRunning(c, ids), Apply(c, ids, DoStart);
    forall j | 0 <= j < |c.instances|
      ensures r.instances[j] == d.instances[j]
    {
      ApplyEffect(c, ids, DoStart, j);
    }
  }

  /**
   * What `_satisfy_config_requirements(healthy)` leaves behind: the provider
   * state, the instances it kept and started, and the caller's `healthy` list
   * afterwards. Trimming rebinds a local name, so the caller's list still
   * holds the terminated surplus; reserving extends it in place.
   */
  datatype Satisfied = Satisfied(cloud: Cloud, kept: seq<Id>, seen: seq<Id>)

  /** Every listed instance is healthy. */
  predicate AllHealthy(c: Cloud, ids: seq<Id>) {
    forall k :: 0 <= k < |ids| ==> Healthy(CodeOf(c, ids[k]))
  }

  /**
   * Without scripts, every kept instance is pending or running, and every
   * instance of `seen` past the kept prefix is on its way out.
   */
  predicate Lively(r: Satisfied) {
    && Unscripted(r.cloud)
    && (forall k :: 0 <= k < |r.kept| ==> CodeOf(r.cloud, r.kept[k]) == Pending || CodeOf(r.cloud, r.kept[k]) == Running)
    && (forall k :: |r.kept| <= k < |r.seen| ==> !Healthy(CodeOf(r.cloud, r.seen[k])))
  }

  /**
   * `_satisfy_config_requirements(healthy)`: a surplus over `max` is
   * terminated and the rest kept; a shortfall is made up by new instances
   * appended to the list; then every kept instance not running is started.
   */
  function Satisfy(s: Settings, c: Cloud, healthy: seq<Id>): (r: Result<Satisfied>)
    requires Valid(c, healthy) && Distinct(healthy)
    ensures r.Success? ==> Valid(r.value.cloud, r.value.seen) && Distinct(r.value.seen)
    ensures r.Success? ==> |r.value.kept| <= |r.value.seen| && r.value.kept == r.value.seen[..|r.value.kept|]
    ensures r.Success? ==> Grows(c, r.value.cloud) && TagsKept(c, r.value.cloud)
    ensures r.Success? && Unscripted(c) && AllHealthy(c, healthy) ==> Lively(r.value)
    ensures var p := Reconcile.TopPlan(|healthy|, s.minCount, s.maxCount);
      && (p.Trim? ==> r.Success? && r.value.seen == healthy && |r.value.kept| == p.keep)
      && (p.Leave? ==> r.Success? && r.value.seen == healthy && r.value.kept == healthy)
      && (p.Reserve? && r.Success? ==>
            && r.value.kept == r.value.seen
            && |healthy| <= |r.value.seen| && r.value.seen[..|healthy|] == healthy
            && p.lo <= |r.value.seen| - |healthy| <= p.hi)
  {
    match Reconcile.TopPlan(|healthy|, s.minCount, s.maxCount)
    case Trim(keep) => Success(SatisfyTrim(s, c, healthy, keep))
    case Reserve(lo, hi) => SatisfyReserve(s, c, healthy, lo, hi)
    case Leave => Success(SatisfyLeave(c, healthy))
  }

  /** Trimming to `keep`: the surplus `healthy[keep:]` is terminated and the prefix started. */
  function SatisfyTrim(s: Settings, c: Cloud, healthy: seq<Id>, keep: nat): (r: Satisfied)
    requires Valid(c, healthy) && Distinct(healthy) && (keep < |healthy| || keep == |healthy| == 0)
    ensures Valid(r.cloud, r.seen) && r.seen == healthy && r.kept == healthy[..keep]
    ensures Grows(c, r.cloud) && TagsKept(c, r.cloud)
    ensures Unscripted(c) && AllHealthy(c, healthy) ==> Lively(r)
  {
    var t := Terminate(s, c, healthy[keep..], Default).value;
    var d := StartNotRunning(t.cloud, healthy[..keep]);
    GrowsTrans(c, t.cloud, d);
    TrimLively(c, t.cloud, healthy, keep);
    Satisfied(d, healthy[..keep], healthy)
  }

  /** The reasoning behind `SatisfyTrim`'s liveliness. */
  lemma TrimLively(c: Cloud, t: Cloud, healthy: seq<Id>, keep: nat)
    requires Valid(c, healthy) && Distinct(healthy) && (keep < |healthy| || keep == |healthy| == 0)
    requires Grows(c, t) && (Unscripted(c) ==> Unscripted(t))
    requires keep < |healthy| ==> Retires(c, t, healthy[keep..])
    ensures Valid(t, healthy[..keep])
    ensures Unscripted(c) && AllHealthy(c, healthy) ==>
              Lively(Satisfied(StartNotRunning(t, healthy[..keep]), healthy[..keep], healthy))
  {
    if Unscripted(c) && AllHealthy(c, healthy) {
      var d := StartNotRunning(t, healthy[..keep]);
      forall k | 0 <= k < keep
        ensures CodeOf(d, healthy[k]) == Pending || CodeOf(d, healthy[k]) == Running
      {
        assert healthy[k] in healthy[..keep];
        assert healthy[k] !in healthy[keep..];
      }
      forall k | keep <= k < |healthy|
        ensures !Healthy(CodeOf(d, healthy[k]))
      {
        assert healthy[k] in healthy[keep..];
        assert healthy[k] !in healthy[..keep];
      }
    }
  }

  /** Reserving between `lo` and `hi` more: the new instances join the list, and all are started. */
  function SatisfyReserve(s: Settings, c: Cloud, healthy: seq<Id>, lo: int, hi: int): (r: Result<Satisfied>)
    requires Valid(c, healthy) && Distinct(healthy) && 1 <= lo && 1 <= hi
    ensures r.Success? ==> Valid(r.value.cloud, r.value.seen) && Distinct(r.value.seen) && r.value.kept == r.value.seen
    ensures r.Success? ==> |healthy| <= |r.value.seen| && r.value.seen[..|healthy|] == healthy
    ensures r.Success? ==> lo <= |r.value.seen| - |healthy| <= hi
    ensures r.Success? ==> Grows(c, r.value.cloud) && TagsKept(c, r.value.cloud)
    ensures r.Success? && Unscripted(c) && AllHealthy(c, healthy) ==> Lively(r.value)
  {
    var extra :- CreateExtra(TopLevel, s, c, lo, hi);
    ExtendLively(c, extra.cloud, healthy, extra.value);
    var all := healthy + extra.value;
    var d := StartNotRunning(extra.cloud, all);
    GrowsTrans(c, extra.cloud, d);
    Success(Satisfied(d, all, all))
  }

  /** Appending fresh pending instances to a healthy list and starting them all. */
  lemma ExtendLively(c: Cloud, d: Cloud, healthy: seq<Id>, extra: seq<Id>)
    requires Valid(c, healthy) && Distinct(healthy)
    requires Keeps(c, d) && extra == Range(|c.instances|, |extra|) && |d.instances| == |c.instances| + |extra|
    requires forall k :: 0 <= k < |extra| ==> CodeOf(d, extra[k]) == Pending
    ensures var all := healthy + extra;
      && Valid(d, all) && Distinct(all) && all[..|healthy|] == healthy
      && (Unscripted(c) && AllHealthy(c, healthy) ==> Lively(Satisfied(StartNotRunning(d, all), all, all)))
  {
    var all := healthy + extra;
    forall p, q | 0 <= p < q < |all|
      ensures all[p] != all[q]
    {
      if q >= |healthy| && p < |healthy| {
        assert all[p] == healthy[p] < |c.instances| <= all[q];
      }
    }
    assert all[..|healthy|] == healthy;
    if Unscripted(c) && AllHealthy(c, healthy) {
      var r := StartNotRunning(d, all);
      forall k | 0 <= k < |all|
        ensures CodeOf(r, all[k]) == Pending || CodeOf(r, all[k]) == Running
      {
        assert all[k] in all;
        if k < |healthy| {
          assert all[k] == healthy[k];
        } else {
          assert all[k] == extra[k - |healthy|];
        }
      }
    }
  }

  /** Already `max`: every instance is kept and started. */
  function SatisfyLeave(c: Cloud, healthy: seq<Id>): (r: Satisfied)
    requires Valid(c, healthy)
    ensures Valid(r.cloud, r.seen) && r.seen == healthy && r.kept == healthy
    ensures Grows(c, r.cloud) && TagsKept(c, r.cloud)
    ensures Unscripted(c) && AllHealthy(c, healthy) ==> Lively(r)
  {
    var d := StartNotRunning(c, healthy);
    assert forall k :: 0 <= k < |healthy| ==> healthy[k] in healthy;
    Satisfied(d, healthy, healthy)
  }

  /**
   * With `0 < min <= max`, `create` ends up keeping between `min` and `max`
   * instances whenever its reconciliation succeeds.
   */
  lemma SatisfyCounts(s: Settings, c: Cloud, healthy: seq<Id>)
    requires Valid(c, healthy) && Distinct(healthy) && 0 < s.minCount <= s.maxCount
    ensures var r := Satisfy(s, c, healthy);
      r.Success? ==> s.minCount <= |r.value.kept| <= s.maxCount
  {
    Reconcile.TopRequestValid(|healthy|, s.minCount, s.maxCount);
  }

  /**
   * The first half of `create`: waits out shutting-down and stopping
   * instances, lists the healthy ones and reconciles their number with the
   * configured range.
   */
  function Prepare(s: Settings, c: Cloud): (r: Result<Satisfied>)
    ensures r.Success? ==> Valid(r.value.cloud, r.value.seen) && Distinct(r.value.seen)
    ensures r.Success? ==> |r.value.kept| <= |r.value.seen| && r.value.kept == r.value.seen[..|r.value.kept|]
    ensures r.Success? && Unscripted(c) ==> Lively(r.value)
  {
    var c1 := WaitFor(s, c, [], ShuttingDown, Terminated, Default).value;
    var c2 := WaitFor(s, c1, [], Stopping, Stopped, Default).value;
    var h := HealthyInstances(s, c2, Default).value;
    KeepsTrans(c, c1, c2);
    KeepsTrans(c, c2, h.cloud);
    Satisfy(s, h.cloud, h.value)
  }

  /**
   * The second half of `create`, over the list it waits on: a wait for
   * running that gives up silently, the optional SSH gate (the only step
   * that can raise), the running count it logs, and the project's status.
   */
  function Finish(s: Settings, probe: Probe, c: Cloud, targets: seq<Id>, waitSsh: bool): (r: Result<Step<Created>>)
    requires Valid(c, targets)
    ensures r.Failure? ==> waitSsh && targets != [] && r.error == SshTimeout
    ensures !waitSsh ==> r.Success?
  {
    var w := WaitTransition(TopLevel, c, targets, None, Some(Running), s.tries);
    var c1 :- if waitSsh then SshGate(w.world, targets, probe, s.tries) else Success(w.world);
    var running := InStates(s, c1, {Running}, false, Default).value;
    var st := Status(s, running.cloud, Default).value;
    Success(Step(st.cloud, Created(st.value, |running.value|, !w.cleared, w.sleeps)))
  }

  /**
   * `create(wait_for_ssh)` as written: after reconciliation it waits (and
   * gates) on the caller's `healthy` list, which still holds the instances
   * it has just terminated when it trimmed.
   */
  function Create(s: Settings, probe: Probe, c: Cloud, waitSsh: bool): (r: Result<Step<Created>>)
    ensures r.Failure? ==> Prepare(s, c).Failure? || (waitSsh && r.error == SshTimeout)
  {
    var p :- Prepare(s, c);
    Finish(s, probe, p.cloud, p.seen, waitSsh)
  }

  /** `create` waiting on the instances it kept, as the nested lineage does. */
  function CreateTrimmed(s: Settings, probe: Probe, c: Cloud, waitSsh: bool): (r: Result<Step<Created>>)
    ensures r.Failure? ==> Prepare(s, c).Failure? || (waitSsh && r.error == SshTimeout)
  {
    var p :- Prepare(s, c);
    Finish(s, probe, p.cloud, p.kept, waitSsh)
  }

  /**
   * As written, whenever `create` has terminated a surplus, its wait for
   * running can never clear: the terminated instances are in the list it
   * waits on. It spends the whole budget, sleeping after every round, and
   * logs that it timed out.
   */
  lemma CreateWaitsOnRetired(s: Settings, probe: Probe, c: Cloud, waitSsh: bool)
    requires Unscripted(c)
    requires Prepare(s, c).Success? && |Prepare(s, c).value.kept| < |Prepare(s, c).value.seen|
    ensures var r := Create(s, probe, c, waitSsh);
      r.Success? ==> r.value.value.timedOut && r.value.value.sleeps == Budget(s.tries)
  {
    var p := Prepare(s, c).value;
    var j := p.seen[|p.kept|];
    assert Create(s, probe, c, waitSsh) == Finish(s, probe, p.cloud, p.seen, waitSsh);
    FinishReports(s, probe, p.cloud, p.seen, waitSsh);
    WaitNeverClears(TopLevel, p.cloud, p.seen, None, Some(Running), s.tries, j);
  }

  /**
   * Waiting on the kept instances instead, the wait clears in its first
   * round without a sleep, given any budget at all.
   */
  lemma CreateTrimmedClears(s: Settings, probe: Probe, c: Cloud, waitSsh: bool)
    requires Unscripted(c) && s.tries >= 1
    requires Prepare(s, c).Success?
    ensures var r := CreateTrimmed(s, probe, c, waitSsh);
      r.Success? ==> !r.value.value.timedOut && r.value.value.sleeps == 0
  {
    var p := Prepare(s, c).value;
    KeptReady(p);
    assert CreateTrimmed(s, probe, c, waitSsh) == Finish(s, probe, p.cloud, p.kept, waitSsh);
    FinishReports(s, probe, p.cloud, p.kept, waitSsh);
    WaitClearsAtOnce(TopLevel, p.cloud, p.kept, s.tries);
  }

  /** The kept instances are issued, listed once each, scriptless, and pending or running. */
  lemma KeptReady(p: Satisfied)
    requires Valid(p.cloud, p.seen) && Distinct(p.seen)
    requires |p.kept| <= |p.seen| && p.kept == p.seen[..|p.kept|]
    requires Lively(p)
    ensures Valid(p.cloud, p.kept) && Distinct(p.kept)
    ensures forall k :: 0 <= k < |p.kept| ==>
              p.cloud.instances[p.kept[k]].mode == Natural && (CodeOf(p.cloud, p.kept[k]) == Pending || CodeOf(p.cloud, p.kept[k]) == Running)
  {
    forall k | 0 <= k < |p.kept|
      ensures p.kept[k] == p.seen[k]
    {
    }
  }

  /** What `create` reports about its wait for running is what the wait did. */
  lemma FinishReports(s: Settings, probe: Probe, c: Cloud, targets: seq<Id>, waitSsh: bool)
    requires Valid(c, targets)
    ensures var r, w := Finish(s, probe, c, targets, waitSsh), WaitTransition(TopLevel, c, targets, None, Some(Running), s.tries);
      r.Success? ==> r.value.value.timedOut == !w.cleared && r.value.value.sleeps == w.sleeps
  {
  }

  /** When nothing was trimmed the two versions are the same. */
  lemma CreateVersionsAgree(s: Settings, probe: Probe, c: Cloud, waitSsh: bool)
    requires Prepare(s, c).Success? && |Prepare(s, c).value.kept| == |Prepare(s, c).value.seen|
    ensures Create(s, probe, c, waitSsh) == CreateTrimmed(s, probe, c, waitSsh)
  {
    var p := Prepare(s, c).value;
    assert p.kept == p.seen;
  }

  // ---- revert ----

  /**
   * `_revert(instances)`: reads the instances' numbers (an instance whose
   * name does not decode raises before anything happens), terminates them,
   * reserves exactly as many new instances, gives each the number of the
   * instance it replaces, and waits for them to run. The new instances are
   * the result.
   */
  function RevertGroup(s: Settings, c: Cloud, ids: seq<Id>): (r: Result<Step<seq<Id>>>)
    requires Valid(c, ids)
    ensures Numbers(TopLevel, c, ids).Failure? ==> r.Failure?
    ensures r.Success? ==> Grows(c, r.value.cloud) && TagsKept(c, r.value.cloud)
    ensures r.Success? && Unscripted(c) ==> Unscripted(r.value.cloud)
    ensures r.Success? && ids != [] ==> Retires(c, r.value.cloud, ids)
    ensures r.Success? ==> Valid(r.value.cloud, r.value.value) && |r.value.value| == |ids|
    ensures r.Success? ==> Distinct(r.value.value)
    ensures r.Success? ==> forall k :: 0 <= k < |r.value.value| ==> r.value.value[k] >= |c.instances|
    ensures r.Success? ==> Carries(s, r.value.cloud, r.value.value, Numbers(TopLevel, c, ids).value)
  {
    var numbers :- Numbers(TopLevel, c, ids);
    var t := Terminate(s, c, ids, Default).value;
    if numbers == [] then Success(Step(t.cloud, []))
    else
      var made :- Replace(s, t.cloud, numbers);
      RetiresThenKeeps(c, t.cloud, made.cloud, ids);
      Success(made)
  }

  /**
   * The second half of `_revert`: `_reserve(n, n)` for the `n` numbers,
   * each new instance tagged with its number, then the wait for them to run.
   */
  function Replace(s: Settings, c: Cloud, numbers: seq<int>): (r: Result<Step<seq<Id>>>)
    requires numbers != []
    ensures r.Success? ==> Keeps(c, r.value.cloud) && Valid(r.value.cloud, r.value.value)
    ensures r.Success? ==> Distinct(r.value.value)
    ensures r.Success? ==> forall k :: 0 <= k < |r.value.value| ==> r.value.value[k] >= |c.instances|
    ensures r.Success? ==> Carries(s, r.value.cloud, r.value.value, numbers)
  {
    var made :- ReserveTagged(s, c, numbers);
    var w := WaitFor(s, made.cloud, made.value, Pending, Running, Default).value;
    KeepsTrans(c, made.cloud, w);
    CarriesKept(s, made.cloud, w, made.value, numbers);
    Success(Step(w, made.value))
  }


  /**
   * `for instance in instances: self._revert([instance])`: each instance is
   * replaced on its own, in order; the replacements are the result.
   */
  function RevertEach(s: Settings, c: Cloud, ids: seq<Id>): (r: Result<Step<seq<Id>>>)
    requires Valid(c, ids)
    ensures r.Success? ==> Reverted(s, c, ids, r.value)
    decreases |ids|, 1
  {
    if ids == [] then Success(Step(c, []))
    else
      var first :- RevertGroup(s, c, [ids[0]]);
      GroupReverted(s, c, [ids[0]]);
      RevertRest(s, c, ids, first)
  }

  /**
   * `ids` are terminated (and stay unhealthy) in the final cloud, and the
   * replacements in `r`, all of them new and no two the same, carry their
   * numbers, position by position.
   */
  predicate Reverted(s: Settings, c: Cloud, ids: seq<Id>, r: Step<seq<Id>>) {
    && Retires(c, r.cloud, ids) && Valid(r.cloud, r.value) && Distinct(r.value)
    && Numbers(TopLevel, c, ids).Success? && Carries(s, r.cloud, r.value, Numbers(TopLevel, c, ids).value)
    && forall k :: 0 <= k < |r.value| ==> r.value[k] >= |c.instances|
  }

  /** A group replaced at once is reverted. */
  lemma GroupReverted(s: Settings, c: Cloud, ids: seq<Id>)
    requires Valid(c, ids) && ids != []
    ensures RevertGroup(s, c, ids).Success? ==> Reverted(s, c, ids, RevertGroup(s, c, ids).value)
  {
  }

  /** `RevertEach` once the first instance has been replaced by `first`. */
  function RevertRest(s: Settings, c: Cloud, ids: seq<Id>, first: Step<seq<Id>>): (r: Result<Step<seq<Id>>>)
    requires Valid(c, ids) && ids != [] && Reverted(s, c, [ids[0]], first)
    ensures r.Success? ==> Reverted(s, c, ids, r.value)
    decreases |ids|, 0
  {
    var rest :- RevertEach(s, first.cloud, ids[1..]);
    RevertJoin(s, c, ids, first, rest);
    Success(Step(rest.cloud, first.value + rest.value))
  }

  /** Replacing the first instance, then the rest, replaces them all. */
  lemma RevertJoin(s: Settings, c: Cloud, ids: seq<Id>, first: Step<seq<Id>>, rest: Step<seq<Id>>)
    requires Valid(c, ids) && ids != []
    requires Reverted(s, c, [ids[0]], first) && Reverted(s, first.cloud, ids[1..], rest)
    ensures Reverted(s, c, ids, Step(rest.cloud, first.value + rest.value))
  {
    RetiresSplit(c, first.cloud, rest.cloud, ids);
    GrowsValid(first.cloud, rest.cloud, first.value);
    ValidJoin(rest.cloud, first.value, rest.value);
    RevertCarries(s, c, first.cloud, rest.cloud, ids, first.value, rest.value);
    FreshJoinDistinct(first.cloud, first.value, rest.value);
    forall k | 0 <= k < |first.value + rest.value|
      ensures (first.value + rest.value)[k] >= |c.instances|
    {
      if k >= |first.value| {
        assert (first.value + rest.value)[k] == rest.value[k - |first.value|];
      }
    }
  }

  /** Instances already in `c`, then instances issued after it, never repeat one another. */
  lemma FreshJoinDistinct(c: Cloud, a: seq<Id>, b: seq<Id>)
    requires Valid(c, a) && Distinct(a) && Distinct(b)
    requires forall k :: 0 <= k < |b| ==> b[k] >= |c.instances|
    ensures Distinct(a + b)
  {
    DistinctJoin(a, b);
  }

  /** Retiring the head and then the tail retires the whole list. */
  lemma RetiresSplit(c: Cloud, d: Cloud, e: Cloud, ids: seq<Id>)
    requires ids != [] && Retires(c, d, [ids[0]]) && Retires(d, e, ids[1..])
    ensures Retires(c, e, ids)
  {
    assert [ids[0]] + ids[1..] == ids;
    RetiresChain(c, d, e, [ids[0]], ids[1..]);
  }

  /** The names carried by the first replacement and by the rest join up. */
  lemma RevertCarries(s: Settings, c: Cloud, d: Cloud, e: Cloud, ids: seq<Id>, first: seq<Id>, rest: seq<Id>)
    requires Valid(c, ids) && ids != [] && TagsKept(c, d) && TagsKept(d, e) && Valid(d, first)
    requires Numbers(TopLevel, c, [ids[0]]).Success? && Carries(s, d, first, Numbers(TopLevel, c, [ids[0]]).value)
    requires Numbers(TopLevel, d, ids[1..]).Success? && Carries(s, e, rest, Numbers(TopLevel, d, ids[1..]).value)
    ensures Numbers(TopLevel, c, ids).Success? && Carries(s, e, first + rest, Numbers(TopLevel, c, ids).value)
  {
    NumbersKept(TopLevel, c, d, ids[1..]);
    EachSplit(NumberOf(TopLevel, c), ids);
    CarriesKept(s, d, e, first, Numbers(TopLevel, c, [ids[0]]).value);
    CarriesJoin(s, e, first, rest, Numbers(TopLevel, c, [ids[0]]).value, Numbers(TopLevel, c, ids[1..]).value);
  }

  /**
   * Replacing one by one or all at once hands the same numbers to the
   * replacements, in the same order.
   */
  lemma RevertModesAgree(s: Settings, c: Cloud, ids: seq<Id>)
    requires Valid(c, ids) && ids != []
    requires RevertEach(s, c, ids).Success? && RevertGroup(s, c, ids).Success?
    ensures var each, group := RevertEach(s, c, ids).value, RevertGroup(s, c, ids).value;
      && |each.value| == |group.value| == |ids|
      && forall k :: 0 <= k < |ids| ==> TagsOf(each.cloud, each.value[k])["Name"] == TagsOf(group.cloud, group.value[k])["Name"]
  {
  }

  /**
   * `revert(sequential, selector)`: the selected healthy instances are
   * replaced, one by one or all at once, and the selection's status follows.
   */
  function Revert(s: Settings, c: Cloud, sequential: bool, sel: Selector): (r: Result<Step<seq<Id>>>)
    ensures r.Success? ==> Grows(c, r.value.cloud) && TagsKept(c, r.value.cloud)
    ensures r.Success? ==> HealthyInstances(s, c, sel).Success?
    ensures r.Success? ==>
              var h := HealthyInstances(s, c, sel).value.value;
              && Retires(c, r.value.cloud, h)
              && Numbers(TopLevel, c, h).Success?
              && exists news: seq<Id> ::
                   && Distinct(news)
                   && Carries(s, r.value.cloud, news, Numbers(TopLevel, c, h).value)
                   && forall k :: 0 <= k < |news| ==> news[k] >= |c.instances|
  {
    var h :- HealthyInstances(s, c, sel);
    var done :- RevertChosen(s, h.cloud, h.value, sequential);
    var r :- Status(s, done.cloud, sel);
    RevertedFrame(s, c, h.cloud, h.value, done, r.cloud);
    Success(r)
  }

  /**
   * The replacing part of `revert`: nothing to do for no instances, else
   * one instance at a time or all at once.
   */
  function RevertChosen(s: Settings, c: Cloud, ids: seq<Id>, sequential: bool): (r: Result<Step<seq<Id>>>)
    requires Valid(c, ids)
    ensures r.Success? ==> Reverted(s, c, ids, r.value)
  {
    if ids == [] then
      assert Reverted(s, c, [], Step(c, []));
      Success(Step(c, []))
    else if sequential then RevertEach(s, c, ids)
    else
      GroupReverted(s, c, ids);
      RevertGroup(s, c, ids)
  }

  /**
   * A revert framed by calls that keep everything: the instances are still
   * retired, and the replacements, new instances, still carry their numbers.
   */
  lemma RevertedFrame(s: Settings, c: Cloud, b: Cloud, ids: seq<Id>, done: Step<seq<Id>>, d: Cloud)
    requires Valid(c, ids) && Keeps(c, b) && Reverted(s, b, ids, done) && Keeps(done.cloud, d)
    ensures Retires(c, d, ids) && Numbers(TopLevel, c, ids).Success?
    ensures exists news: seq<Id> ::
              && Distinct(news)
              && Carries(s, d, news, Numbers(TopLevel, c, ids).value)
              && forall k :: 0 <= k < |news| ==> news[k] >= |c.instances|
  {
    KeepsThenRetires(c, b, done.cloud, ids);
    RetiresThenKeeps(c, done.cloud, d, ids);
    NumbersKept(TopLevel, c, b, ids);
    CarriesKept(s, done.cloud, d, done.value, Numbers(TopLevel, c, ids).value);
  }
}
