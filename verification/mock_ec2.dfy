/**
 * The mock EC2 provider of the test suite, as a state machine over an
 * immutable provider state: the instance table, the account's instance limit
 * and the scripted update sequence new instances are given.
 */
module MockEc2 {

  import opened Wrappers
  import opened States
  import opened Identity
  import opened Seqs
  import Text

  /** A state name the `STATES` table knows. */
  type StateName = s: string | Code(s).Some? witness "pending"

  /** A custom update sequence; the mock indexes its first element, so it is never empty. */
  type Script = s: seq<StateName> | |s| > 0 witness ["pending"]

  /** How `update()` moves an instance: the natural transitions, or a scripted cycle. */
  datatype UpdateMode = Natural | Scripted(steps: Script, loc: nat)

  /** A mock instance; `code` is `state_code`, and `state` is always its `States.Name`. */
  datatype Inst = Inst(code: int, tags: Tags, ip: string, mode: UpdateMode)

  /** The provider's state. An instance's id is its position in `instances` (creation order). */
  datatype Cloud = Cloud(instances: seq<Inst>, limit: nat, script: Option<Script>)

  type Id = nat

  /** The errors `run_instances` raises. */
  datatype Ec2Fault = InvalidParameters | LimitExceeded

  datatype Launch = Launched(cloud: Cloud, ids: seq<Id>) | Rejected(fault: Ec2Fault)

  /** The provider actions on one instance. */
  datatype Action = DoStart | DoStop | DoTerminate | DoReboot | DoUpdate

  const DefaultLimit: nat := 20
  const MockIp: string := "100.100.100.100"

  /** `MockEC2Connection()`: no instances, a limit of 20. */
  function Empty(script: Option<Script>): Cloud {
    Cloud([], DefaultLimit, script)
  }

  /** `Instance.update()`. */
  function Update(i: Inst): Inst {
    match i.mode
    case Scripted(steps, loc) =>
      // the mock wraps an index equal to the length; `loc` never exceeds it
      var index := if loc >= |steps| then 0 else loc;
      i.(code := Code(steps[index]).value, mode := Scripted(steps, index + 1))
    case Natural =>
      if i.code == Pending then i.(code := Running)
      else if i.code == Stopping then i.(code := Stopped)
      else if i.code == ShuttingDown then i.(code := Terminated)
      else i
  }

  /** `Instance.start()`. */
  function Started(i: Inst): Inst {
    if i.code != Terminated && i.code != Running then i.(code := Pending) else i
  }

  /** `Instance.start/stop/terminate/reboot/update`; `reboot` calls `start`. */
  function Act(a: Action, i: Inst): Inst {
    match a
    case DoStart => Started(i)
    case DoStop => if i.code != Terminated && i.code != Stopped then i.(code := Stopping) else i
    case DoTerminate => if i.code != Terminated then i.(code := ShuttingDown) else i
    case DoReboot => Started(i)
    case DoUpdate => Update(i)
  }

  /**
   * What each action does to each state: start, stop and terminate move every
   * state except their own target and terminated into pending, stopping and
   * shutting-down, reboot is start, and no action but update touches tags,
   * address or update mode.
   */
  lemma ActionTable(a: Action, i: Inst)
    requires a != DoUpdate
    ensures Act(a, i).tags == i.tags && Act(a, i).ip == i.ip && Act(a, i).mode == i.mode
    ensures i.code == Terminated ==> Act(a, i) == i
    ensures a == DoStart || a == DoReboot ==>
              Act(a, i).code == (if i.code == Terminated || i.code == Running then i.code else Pending)
    ensures a == DoStop ==>
              Act(a, i).code == (if i.code == Terminated || i.code == Stopped then i.code else Stopping)
    ensures a == DoTerminate ==> !Healthy(Act(a, i).code)
    ensures Act(DoReboot, i) == Act(DoStart, i)
  {
  }

  /** Applying start, stop, terminate or reboot twice is applying it once. */
  lemma ActionIdempotent(a: Action, i: Inst)
    requires a != DoUpdate
    ensures Act(a, Act(a, i)) == Act(a, i)
  {
  }

  /**
   * Without a script, `update` finishes any transition (pending, stopping and
   * shutting-down become running, stopped and terminated), leaves stable states
   * alone, and a second update changes nothing.
   */
  lemma NaturalUpdateSettles(i: Inst)
    requires i.mode == Natural
    ensures Stable(Update(i).code)
    ensures Stable(i.code) ==> Update(i) == i
    ensures Update(Update(i)) == Update(i)
    ensures i.code in Known ==> Update(i).code in Known
    ensures Update(i).tags == i.tags
    ensures Update(i).mode == Natural && Healthy(Update(i).code) == Healthy(i.code)
  {
  }

  /** `n` successive updates. */
  function Updates(i: Inst, n: nat): Inst
    decreases n
  {
    if n == 0 then i else Update(Updates(i, n - 1))
  }

  /** The position (1 to `len`) a cycle of length `len` is at after `n >= 1` steps. */
  function CyclePos(n: nat, len: nat): (p: nat)
    requires n >= 1 && len >= 1
    ensures 1 <= p <= len
    decreases n
  {
    if n <= len then n else CyclePos(n - len, len)
  }

  /** The cycle advances by one each step and wraps from `len` back to 1. */
  lemma {:induction false} CyclePosStep(n: nat, len: nat)
    requires n >= 2 && len >= 1
    ensures CyclePos(n, len) == if CyclePos(n - 1, len) == len then 1 else CyclePos(n - 1, len) + 1
    decreases n
  {
    if n - 1 > len {
      CyclePosStep(n - len, len);
    }
  }

  /**
   * A scripted instance's `n`-th update takes the element at position
   * `CyclePos(n)` of its script: the script is replayed cyclically.
   */
  lemma ScriptedUpdateCycles(i: Inst, steps: Script, n: nat)
    requires i.mode == Scripted(steps, 0)
    requires n >= 1
    ensures Updates(i, n).code == Code(steps[CyclePos(n, |steps|) - 1]).value
    ensures Updates(i, n).mode == Scripted(steps, CyclePos(n, |steps|))
    ensures Updates(i, n).tags == i.tags
  {
    UpdatesKeepTags(i, n);
    ScriptedModeCycles(i, steps, n);
    var p := if n == 1 then 0 else CyclePos(n - 1, |steps|);
    if n > 1 {
      ScriptedModeCycles(i, steps, n - 1);
      CyclePosStep(n, |steps|);
    }
    ScriptedUpdateOnce(Updates(i, n - 1), steps, p);
  }

  /** The position a scripted instance is at after `n >= 1` updates. */
  lemma {:induction false} ScriptedModeCycles(i: Inst, steps: Script, n: nat)
    requires i.mode == Scripted(steps, 0)
    requires n >= 1
    ensures Updates(i, n).mode == Scripted(steps, CyclePos(n, |steps|))
    decreases n
  {
    var p := if n == 1 then 0 else CyclePos(n - 1, |steps|);
    if n > 1 {
      ScriptedModeCycles(i, steps, n - 1);
      CyclePosStep(n, |steps|);
    }
    ScriptedUpdateOnce(Updates(i, n - 1), steps, p);
  }

  /** One scripted update from position `p` takes the next element, wrapping after the last. */
  lemma ScriptedUpdateOnce(j: Inst, steps: Script, p: nat)
    requires j.mode == Scripted(steps, p) && p <= |steps|
    ensures Update(j).code == Code(steps[if p == |steps| then 0 else p]).value
    ensures Update(j).mode == Scripted(steps, if p == |steps| then 1 else p + 1)
  {
  }

  /** No number of updates changes an instance's tags. */
  lemma {:induction false} UpdatesKeepTags(i: Inst, n: nat)
    ensures Updates(i, n).tags == i.tags
    decreases n
  {
    if n > 0 {
      UpdatesKeepTags(i, n - 1);
    }
  }

  // ---- the instance table ----

  predicate Valid(c: Cloud, ids: seq<Id>) {
    forall k :: 0 <= k < |ids| ==> ids[k] < |c.instances|
  }

  /** The state code of an instance; an id the provider never issued reads as -1. */
  function CodeOf(c: Cloud, id: Id): int {
    if id < |c.instances| then c.instances[id].code else -1
  }

  function TagsOf(c: Cloud, id: Id): Tags {
    if id < |c.instances| then c.instances[id].tags else map[]
  }

  function IpOf(c: Cloud, id: Id): string {
    if id < |c.instances| then c.instances[id].ip else ""
  }

  /** An action on one instance of the table. */
  function ActAt(c: Cloud, id: Id, a: Action): (r: Cloud)
    ensures |r.instances| == |c.instances| && r.limit == c.limit && r.script == c.script
    ensures forall j :: 0 <= j < |c.instances| && j != id ==> r.instances[j] == c.instances[j]
    ensures id < |c.instances| ==> r.instances[id] == Act(a, c.instances[id])
  {
    if id < |c.instances| then c.(instances := c.instances[id := Act(a, c.instances[id])]) else c
  }

  /** `instance.update()` on one instance. */
  function Refresh(c: Cloud, id: Id): Cloud {
    ActAt(c, id, DoUpdate)
  }

  /** `a` applied `n` times. */
  function Iterate(a: Action, i: Inst, n: nat): Inst
    decreases n
  {
    if n == 0 then i else Iterate(a, Act(a, i), n - 1)
  }

  /** `for instance in ids: instance.<action>()`. */
  function Apply(c: Cloud, ids: seq<Id>, a: Action): (r: Cloud)
    requires Valid(c, ids)
    ensures |r.instances| == |c.instances| && r.limit == c.limit && r.script == c.script
    ensures forall j :: 0 <= j < |c.instances| ==>
              r.instances[j] == Iterate(a, c.instances[j], multiset(ids)[j])
    decreases |ids|
  {
    if |ids| == 0 then c
    else
      var r := Apply(ActAt(c, ids[0], a), ids[1..], a);
      assert ids == [ids[0]] + ids[1..];
      assert multiset(ids) == multiset{ids[0]} + multiset(ids[1..]);
      r
  }

  /** Applying actions never changes tags. */
  lemma {:induction false} IterateKeepsTags(a: Action, i: Inst, n: nat)
    ensures Iterate(a, i, n).tags == i.tags
    decreases n
  {
    if n > 0 {
      IterateKeepsTags(a, Act(a, i), n - 1);
    }
  }

  /** A later state in which every instance of the earlier one carries the same tags. */
  predicate TagsKept(c: Cloud, d: Cloud) {
    forall j :: 0 <= j < |c.instances| ==> TagsOf(d, j) == TagsOf(c, j)
  }

  /** Applying an action to a list keeps every instance's tags. */
  lemma ApplyKeepsAll(c: Cloud, ids: seq<Id>, a: Action)
    requires Valid(c, ids)
    ensures TagsKept(c, Apply(c, ids, a))
  {
    forall j | 0 <= j < |c.instances|
      ensures TagsOf(Apply(c, ids, a), j) == TagsOf(c, j)
    {
      ApplyKeepsTags(c, ids, a, j);
    }
  }

  lemma ApplyKeepsTags(c: Cloud, ids: seq<Id>, a: Action, j: Id)
    requires Valid(c, ids)
    ensures TagsOf(Apply(c, ids, a), j) == TagsOf(c, j)
  {
    if j < |c.instances| {
      IterateKeepsTags(a, c.instances[j], multiset(ids)[j]);
    }
  }

  // ---- health of instances without a script ----

  /** No instance follows a script, and none will be launched on one. */
  predicate Unscripted(c: Cloud) {
    c.script.None? && forall j :: 0 <= j < |c.instances| ==> c.instances[j].mode == Natural
  }

  /**
   * Every instance of `c` that follows no script and is not in `except` is,
   * in `d`, still without a script and exactly as healthy as it was.
   */
  predicate HealthKept(c: Cloud, d: Cloud, except: seq<Id>) {
    && |d.instances| >= |c.instances|
    && forall j :: 0 <= j < |c.instances| && j !in except && c.instances[j].mode == Natural ==>
         d.instances[j].mode == Natural && Healthy(d.instances[j].code) == Healthy(c.instances[j].code)
  }

  /** No action gives a scriptless instance a script; updates never change its health. */
  lemma {:induction false} IterateNatural(a: Action, i: Inst, n: nat)
    requires i.mode == Natural
    ensures Iterate(a, i, n).mode == Natural
    ensures a == DoUpdate ==> Healthy(Iterate(a, i, n).code) == Healthy(i.code)
    decreases n
  {
    if n > 0 {
      NaturalUpdateSettles(i);
      IterateNatural(a, Act(a, i), n - 1);
    }
  }

  /**
   * Refreshing keeps the health of every scriptless instance; any other action
   * keeps it for every instance it is not applied to.
   */
  lemma ApplyKeepsHealth(c: Cloud, ids: seq<Id>, a: Action)
    requires Valid(c, ids)
    ensures HealthKept(c, Apply(c, ids, a), if a == DoUpdate then [] else ids)
    ensures Unscripted(c) ==> Unscripted(Apply(c, ids, a))
  {
    var d := Apply(c, ids, a);
    forall j | 0 <= j < |c.instances| && c.instances[j].mode == Natural
      ensures d.instances[j].mode == Natural
      ensures (a == DoUpdate || j !in ids) ==> Healthy(d.instances[j].code) == Healthy(c.instances[j].code)
    {
      IterateNatural(a, c.instances[j], multiset(ids)[j]);
      if j !in ids {
        assert multiset(ids)[j] == 0;
      }
    }
  }

  /** Terminating instances leaves none of them healthy. */
  lemma ApplyTerminate(c: Cloud, ids: seq<Id>, j: Id)
    requires Valid(c, ids) && j in ids
    ensures !Healthy(CodeOf(Apply(c, ids, DoTerminate), j))
    ensures Apply(c, ids, DoTerminate).instances[j].mode == c.instances[j].mode
  {
    ApplyEffect(c, ids, DoTerminate, j);
    ActionTable(DoTerminate, c.instances[j]);
  }

  /** Every action but update settles after one application. */
  lemma {:induction false} IterateSettles(a: Action, i: Inst, n: nat)
    requires a != DoUpdate
    ensures Iterate(a, i, n) == (if n == 0 then i else Act(a, i))
    decreases n
  {
    if n > 1 {
      ActionIdempotent(a, i);
      IterateSettles(a, Act(a, i), n - 1);
    }
  }

  /**
   * Issuing start, stop, terminate or reboot to a list of instances changes
   * exactly the listed ones, each as one call would.
   */
  lemma ApplyEffect(c: Cloud, ids: seq<Id>, a: Action, j: Id)
    requires Valid(c, ids) && a != DoUpdate && j < |c.instances|
    ensures Apply(c, ids, a).instances[j] == (if j in ids then Act(a, c.instances[j]) else c.instances[j])
  {
    IterateSettles(a, c.instances[j], multiset(ids)[j]);
  }

  /** Refreshing a repetition-free list updates each listed instance exactly once. */
  lemma RefreshOnce(c: Cloud, ids: seq<Id>, j: Id)
    requires Valid(c, ids) && j < |c.instances|
    requires forall p, q :: 0 <= p < q < |ids| ==> ids[p] != ids[q]
    ensures Apply(c, ids, DoUpdate).instances[j] == (if j in ids then Update(c.instances[j]) else c.instances[j])
  {
    OccursOnce(ids, j);
  }

  /** In a repetition-free list an element occurs once, anything else never. */
  lemma {:induction false} OccursOnce(ids: seq<Id>, j: Id)
    requires forall p, q :: 0 <= p < q < |ids| ==> ids[p] != ids[q]
    ensures multiset(ids)[j] == if j in ids then 1 else 0
    decreases |ids|
  {
    if |ids| > 0 {
      assert ids == [ids[0]] + ids[1..];
      assert multiset(ids) == multiset{ids[0]} + multiset(ids[1..]);
      OccursOnce(ids[1..], j);
      assert ids[0] !in ids[1..];
    }
  }

  // ---- refreshes ----

  /**
   * `d` follows `c` by refreshes alone as far as the instances outside
   * `except` go: the same table and account, and every scriptless one of
   * them as it was or updated once (a second update changes nothing).
   */
  predicate Refreshed(c: Cloud, d: Cloud, except: seq<Id>) {
    && |d.instances| == |c.instances| && d.limit == c.limit && d.script == c.script
    && forall j :: 0 <= j < |c.instances| && j !in except && c.instances[j].mode == Natural ==>
         d.instances[j] == c.instances[j] || d.instances[j] == Update(c.instances[j])
  }

  /** Refreshes after refreshes are refreshes. */
  lemma RefreshedTrans(a: Cloud, b: Cloud, c: Cloud, except: seq<Id>)
    requires Refreshed(a, b, except) && Refreshed(b, c, except)
    ensures Refreshed(a, c, except)
  {
    forall j | 0 <= j < |a.instances| && j !in except && a.instances[j].mode == Natural
      ensures c.instances[j] == a.instances[j] || c.instances[j] == Update(a.instances[j])
    {
      NaturalUpdateSettles(a.instances[j]);
    }
  }

  /** Any number of updates of a scriptless instance is none or one. */
  lemma {:induction false} IterateUpdate(i: Inst, n: nat)
    requires i.mode == Natural
    ensures Iterate(DoUpdate, i, n) == if n == 0 then i else Update(i)
    decreases n
  {
    if n > 1 {
      NaturalUpdateSettles(i);
      IterateUpdate(Update(i), n - 1);
    }
  }

  /** Refreshing a list, repetitions and all, only refreshes. */
  lemma ApplyRefreshes(c: Cloud, ids: seq<Id>)
    requires Valid(c, ids)
    ensures Refreshed(c, Apply(c, ids, DoUpdate), [])
  {
    forall j | 0 <= j < |c.instances| && c.instances[j].mode == Natural
      ensures Apply(c, ids, DoUpdate).instances[j] == c.instances[j] ||
              Apply(c, ids, DoUpdate).instances[j] == Update(c.instances[j])
    {
      IterateUpdate(c.instances[j], multiset(ids)[j]);
    }
  }

  /** A scriptless instance that one refresh brings to `code`. */
  predicate HeadsFor(c: Cloud, j: Id, code: int) {
    j < |c.instances| && c.instances[j].mode == Natural && Update(c.instances[j]).code == code
  }

  /** Refreshing an instance never turns it from where it is heading. */
  lemma HeadsForKept(c: Cloud, d: Cloud, except: seq<Id>, j: Id, code: int)
    requires Refreshed(c, d, except) && j !in except && HeadsFor(c, j, code)
    ensures HeadsFor(d, j, code)
  {
    NaturalUpdateSettles(c.instances[j]);
  }

  /** Refreshes that leave alone every instance outside `x` leave alone every instance outside a wider `y`. */
  lemma RefreshedWiden(c: Cloud, d: Cloud, x: seq<Id>, y: seq<Id>)
    requires Refreshed(c, d, x) && forall i :: i in x ==> i in y
    ensures Refreshed(c, d, y)
  {
  }

  /** Start, stop, terminate and reboot leave alone every instance they are not issued to. */
  lemma ApplyRefreshedExcept(c: Cloud, ids: seq<Id>, a: Action)
    requires Valid(c, ids) && a != DoUpdate
    ensures Refreshed(c, Apply(c, ids, a), ids)
  {
    forall j | 0 <= j < |c.instances| && j !in ids
      ensures Apply(c, ids, a).instances[j] == c.instances[j]
    {
      ApplyEffect(c, ids, a, j);
    }
  }

  /** The codes from which a scriptless instance settles as running or as stopped. */
  const Settling: set<int> := {Pending, Running, Stopping, Stopped}

  /** A scriptless instance in a settling state heads for running or for stopped. */
  lemma SettlingHeads(c: Cloud, j: Id)
    requires j < |c.instances| && c.instances[j].mode == Natural && CodeOf(c, j) in Settling
    ensures HeadsFor(c, j, Running) || HeadsFor(c, j, Stopped)
  {
  }

  /**
   * Starting a running-or-stopped instance exactly when it is not running
   * leaves it heading for running; stopping one exactly when it is not
   * stopped leaves it heading for stopped.
   */
  lemma ActHeadsFor(c: Cloud, ids: seq<Id>, a: Action, goal: int, j: Id)
    requires Valid(c, ids) && ((a == DoStart && goal == Running) || (a == DoStop && goal == Stopped))
    requires j < |c.instances| && c.instances[j].mode == Natural
    requires CodeOf(c, j) == Running || CodeOf(c, j) == Stopped
    requires j in ids <==> CodeOf(c, j) != goal
    ensures HeadsFor(Apply(c, ids, a), j, goal)
  {
    ApplyEffect(c, ids, a, j);
  }

  /**
   * Issuing start or stop to some instances `ids` of a selection `chosen`
   * just refreshed from `c` leaves alone everything outside the selection;
   * a selected instance that is issued the action exactly when it has not
   * reached the goal heads, afterwards, for the goal.
   */
  lemma ActOnMembers(c: Cloud, b: Cloud, chosen: seq<Id>, ids: seq<Id>, a: Action, goal: int)
    requires (a == DoStart && goal == Running) || (a == DoStop && goal == Stopped)
    requires Refreshed(c, b, []) && Valid(b, ids) && forall x :: x in ids ==> x in chosen
    requires forall j :: j in chosen && (HeadsFor(c, j, Running) || HeadsFor(c, j, Stopped)) ==>
               b.instances[j] == Update(c.instances[j]) && (j in ids <==> CodeOf(b, j) != goal)
    ensures Refreshed(c, Apply(b, ids, a), chosen)
    ensures forall j :: j in chosen && (HeadsFor(c, j, Running) || HeadsFor(c, j, Stopped)) ==>
              HeadsFor(Apply(b, ids, a), j, goal)
  {
    var d := Apply(b, ids, a);
    ApplyRefreshedExcept(b, ids, a);
    RefreshedWiden(b, d, ids, chosen);
    RefreshedWiden(c, b, [], chosen);
    RefreshedTrans(c, b, d, chosen);
    forall j | j in chosen && (HeadsFor(c, j, Running) || HeadsFor(c, j, Stopped))
      ensures HeadsFor(d, j, goal)
    {
      ActHeadsFor(b, ids, a, goal, j);
    }
  }

  /** `ActOnMembers` for a subsequence of the selection. */
  lemma ActOnSelection(c: Cloud, b: Cloud, chosen: seq<Id>, ids: seq<Id>, a: Action, goal: int)
    requires (a == DoStart && goal == Running) || (a == DoStop && goal == Stopped)
    requires Refreshed(c, b, []) && Valid(b, ids) && Subsequence(ids, chosen)
    requires forall j :: j in chosen && (HeadsFor(c, j, Running) || HeadsFor(c, j, Stopped)) ==>
               b.instances[j] == Update(c.instances[j]) && (j in ids <==> CodeOf(b, j) != goal)
    ensures Refreshed(c, Apply(b, ids, a), chosen)
    ensures forall j :: j in chosen && (HeadsFor(c, j, Running) || HeadsFor(c, j, Stopped)) ==>
              HeadsFor(Apply(b, ids, a), j, goal)
  {
    SubsequenceMembers(ids, chosen);
    ActOnMembers(c, b, chosen, ids, a, goal);
  }

  /**
   * An operation that refreshes, issues its action to part of a selection
   * `chosen`, refreshes again and lists the selection once more: everything
   * outside the selection is only refreshed, and every selected scriptless
   * instance in a settling state ends at the goal the action headed it for.
   */
  lemma Settles(c: Cloud, c1: Cloud, c2: Cloud, c3: Cloud, d: Cloud, chosen: seq<Id>, goal: int)
    requires Refreshed(c, c1, []) && Refreshed(c1, c2, chosen) && Refreshed(c2, c3, []) && Refreshed(c3, d, [])
    requires forall j :: j in chosen && (HeadsFor(c1, j, Running) || HeadsFor(c1, j, Stopped)) ==> HeadsFor(c2, j, goal)
    requires forall j :: j in chosen ==> j < |c3.instances| && d.instances[j] == Update(c3.instances[j])
    ensures Refreshed(c, d, chosen)
    ensures forall j :: j in chosen && j < |c.instances| && c.instances[j].mode == Natural && CodeOf(c, j) in Settling ==>
              CodeOf(d, j) == goal
  {
    RefreshedWiden(c, c1, [], chosen);
    RefreshedWiden(c2, c3, [], chosen);
    RefreshedWiden(c3, d, [], chosen);
    RefreshedTrans(c, c1, c2, chosen);
    RefreshedTrans(c, c2, c3, chosen);
    RefreshedTrans(c, c3, d, chosen);
    forall j | j in chosen && j < |c.instances| && c.instances[j].mode == Natural && CodeOf(c, j) in Settling
      ensures CodeOf(d, j) == goal
    {
      HeadsForKept(c, c1, [], j, Update(c.instances[j]).code);
      HeadsForKept(c2, c3, [], j, goal);
    }
  }

  /**
   * A stop that leaves the selection stopped, a start that leaves it running
   * and a last listing of the selection leave it running, and everything
   * outside it only refreshed.
   */
  lemma SettlesTwice(c: Cloud, m: Cloud, e: Cloud, d: Cloud, chosen: seq<Id>)
    requires Unscripted(m) && Unscripted(e)
    requires Refreshed(c, m, chosen) && Refreshed(m, e, chosen) && Refreshed(e, d, [])
    requires forall j :: j in chosen && CodeOf(c, j) in Settling ==> CodeOf(m, j) == Stopped
    requires forall j :: j in chosen && CodeOf(m, j) in Settling ==> CodeOf(e, j) == Running
    requires forall j :: j in chosen ==> j < |e.instances| && d.instances[j] == Update(e.instances[j])
    ensures Refreshed(c, d, chosen)
    ensures forall j :: j in chosen && CodeOf(c, j) in Settling ==> CodeOf(d, j) == Running
  {
    RefreshedTrans(c, m, e, chosen);
    RefreshedWiden(e, d, [], chosen);
    RefreshedTrans(c, e, d, chosen);
  }

  /**
   * `SettlesTwice` for a selection listed three times over, as `x`, `y` and
   * `z`, each time with the same members.
   */
  lemma SettlesTwiceListed(c: Cloud, m: Cloud, e: Cloud, d: Cloud, x: seq<Id>, y: seq<Id>, z: seq<Id>)
    requires Unscripted(m) && Unscripted(e)
    requires forall j :: j in y ==> j in x
    requires forall j :: j in x ==> j in y && j in z
    requires forall j :: j in z ==> j in x
    requires Refreshed(c, m, x) && Refreshed(m, e, y) && Refreshed(e, d, [])
    requires forall j :: j in x && CodeOf(c, j) in Settling ==> CodeOf(m, j) == Stopped
    requires forall j :: j in y && CodeOf(m, j) in Settling ==> CodeOf(e, j) == Running
    requires forall j :: j in z ==> j < |e.instances| && d.instances[j] == Update(e.instances[j])
    ensures Refreshed(c, d, z)
    ensures forall j :: j in z && CodeOf(c, j) in Settling ==> CodeOf(d, j) == Running
  {
    RefreshedWiden(m, e, y, x);
    SettlesTwice(c, m, e, d, x);
    RefreshedWiden(c, d, x, z);
  }

  /** The instances a filter matches are decided by the tags alone. */
  lemma {:induction false} MatchingSame(c: Cloud, d: Cloud, filters: map<string, string>, from: nat)
    requires from <= |c.instances| == |d.instances|
    requires forall j :: from <= j < |c.instances| ==> d.instances[j].tags == c.instances[j].tags
    ensures Matching(d, filters, from) == Matching(c, filters, from)
    decreases |c.instances| - from
  {
    if from < |c.instances| {
      MatchingSame(c, d, filters, from + 1);
    }
  }

  // ---- connection calls ----

  /** The number of instances not in state terminated. */
  function NonTerminated(s: seq<Inst>): nat
    ensures NonTerminated(s) <= |s|
    decreases |s|
  {
    if |s| == 0 then 0
    else NonTerminated(s[..|s| - 1]) + (if s[|s| - 1].code != Terminated then 1 else 0)
  }

  /** A freshly launched instance: pending, untagged, on the connection's script. */
  function NewInstance(script: Option<Script>): Inst {
    Inst(Pending, map[], MockIp, if script.Some? then Scripted(script.value, 0) else Natural)
  }

  function Range(lo: nat, count: nat): (ids: seq<Id>)
    ensures |ids| == count && forall k :: 0 <= k < count ==> ids[k] == lo + k
  {
    seq(count, k => lo + k)
  }

  lemma {:induction false} NonTerminatedAppendPending(s: seq<Inst>, n: nat, i: Inst)
    requires i.code == Pending
    ensures NonTerminated(s + seq(n, _ => i)) == NonTerminated(s) + n
    decreases n
  {
    if n > 0 {
      var t := s + seq(n, _ => i);
      assert t[..|t| - 1] == s + seq(n - 1, _ => i);
      NonTerminatedAppendPending(s, n - 1, i);
    } else {
      assert s + seq(n, _ => i) == s;
    }
  }

  /**
   * `run_instances`: rejects a request unless `1 <= min <= max`, rejects it when
   * even `min` more would pass the limit, and otherwise launches as many as the
   * limit allows up to `max`, all pending and untagged, after the existing ones.
   */
  function RunInstances(c: Cloud, minCount: int, maxCount: int): (r: Launch)
    ensures r == Rejected(InvalidParameters) <==> !(1 <= minCount <= maxCount)
    ensures r == Rejected(LimitExceeded) <==>
              1 <= minCount <= maxCount && NonTerminated(c.instances) + minCount > c.limit
    ensures r.Launched? ==>
              && minCount <= |r.ids| <= maxCount
              && |r.ids| == (if maxCount > c.limit - NonTerminated(c.instances)
                             then c.limit - NonTerminated(c.instances) else maxCount)
              && r.ids == Range(|c.instances|, |r.ids|)
              && |r.cloud.instances| == |c.instances| + |r.ids|
              && r.cloud.instances[..|c.instances|] == c.instances
              && (forall k :: |c.instances| <= k < |r.cloud.instances| ==>
                    r.cloud.instances[k] == NewInstance(c.script))
              && r.cloud.limit == c.limit && r.cloud.script == c.script
              && NonTerminated(r.cloud.instances) == NonTerminated(c.instances) + |r.ids|
              && NonTerminated(r.cloud.instances) <= c.limit
  {
    if !(1 <= minCount <= maxCount) then Rejected(InvalidParameters)
    else
      var live := NonTerminated(c.instances);
      if live + minCount > c.limit then Rejected(LimitExceeded)
      else
        var margin := c.limit - live;
        var count: nat := if maxCount > margin then margin else maxCount;
        Launched(AppendNew(c, count), Range(|c.instances|, count))
  }

  /** The cloud with `count` fresh pending instances appended after the existing ones. */
  function AppendNew(c: Cloud, count: nat): (d: Cloud)
    ensures |d.instances| == |c.instances| + count
    ensures d.instances[..|c.instances|] == c.instances
    ensures forall k :: |c.instances| <= k < |d.instances| ==> d.instances[k] == NewInstance(c.script)
    ensures d.limit == c.limit && d.script == c.script
    ensures NonTerminated(d.instances) == NonTerminated(c.instances) + count
  {
    var added := seq(count, _ => NewInstance(c.script));
    NonTerminatedAppendPending(c.instances, count, NewInstance(c.script));
    assert (c.instances + added)[..|c.instances|] == c.instances;
    c.(instances := c.instances + added)
  }

  /** `create_tags`: sets the given keys and leaves every other tag and instance alone. */
  function CreateTags(c: Cloud, id: Id, tags: Tags): (r: Cloud)
    requires id < |c.instances|
    ensures |r.instances| == |c.instances| && r.limit == c.limit && r.script == c.script
    ensures forall j :: 0 <= j < |c.instances| && j != id ==> r.instances[j] == c.instances[j]
    ensures r.instances[id] == c.instances[id].(tags := r.instances[id].tags)
    ensures forall k :: k in tags ==> k in r.instances[id].tags && r.instances[id].tags[k] == tags[k]
    ensures forall k :: k !in tags ==>
              (k in r.instances[id].tags <==> k in c.instances[id].tags) &&
              (k in c.instances[id].tags ==> r.instances[id].tags[k] == c.instances[id].tags[k])
  {
    var i := c.instances[id];
    c.(instances := c.instances[id := i.(tags := i.tags + tags)])
  }

  /**
   * `k.split(":")[1]`: the tag a filter key such as `"tag:Name"` names; a key
   * without a colon raises `IndexError`.
   */
  function FilterTag(k: string): (r: Result<string>)
    ensures r.Success? <==> ':' in k
    ensures r.Success? ==> ':' !in r.value
  {
    var parts := Text.Split(k, ':');
    Text.SplitsIffSeparator(k, ':');
    if |parts| < 2 then Failure(IndexError) else Success(parts[1])
  }

  /**
   * The keys every caller passes, `"tag:" + t`, name the tag `t`: the filters
   * below are keyed by that tag.
   */
  lemma FilterTagOfPrefixed(t: string)
    requires ':' !in t
    ensures FilterTag("tag:" + t) == Success(t)
  {
    assert "tag:" + t == "tag" + [':'] + t;
    Text.SplitJoin("tag", ':', t);
    Text.SplitWhole(t, ':');
  }

  /** An instance passes the filter when one of the filter's tags has the filter's value. */
  predicate Matches(tags: Tags, filters: map<string, string>) {
    exists k | k in filters :: k in tags && tags[k] == filters[k]
  }

  function Matching(c: Cloud, filters: map<string, string>, from: nat): (ids: seq<Id>)
    requires from <= |c.instances|
    ensures forall k :: 0 <= k < |ids| ==> from <= ids[k] < |c.instances|
    ensures forall p, q :: 0 <= p < q < |ids| ==> ids[p] < ids[q]
    ensures forall j :: from <= j < |c.instances| ==>
              (j in ids <==> Matches(c.instances[j].tags, filters))
    decreases |c.instances| - from
  {
    if from == |c.instances| then []
    else
      var rest := Matching(c, filters, from + 1);
      if Matches(c.instances[from].tags, filters) then [from] + rest else rest
  }

  /**
   * `get_all_instances(filters)`, flattened: every instance (in id order) one of
   * whose tags equals the filter's value for it, and nothing else.
   */
  function GetAllInstances(c: Cloud, filters: map<string, string>): (ids: seq<Id>)
    ensures Valid(c, ids)
    ensures forall p, q :: 0 <= p < q < |ids| ==> ids[p] < ids[q]
    ensures forall j :: 0 <= j < |c.instances| ==>
              (j in ids <==> Matches(c.instances[j].tags, filters))
  {
    Matching(c, filters, 0)
  }
}
