/**
 * What both lineages of `WolphinProject` share: the project's settings, the
 * listing that refreshes what it lists, the state filters, the tags an
 * instance is given and the reservation with its error mapping.
 */
module Session {

  import opened Wrappers
  import opened States
  import opened Text
  import opened Identity
  import opened MockEc2
  import opened Seqs

  /**
   * The configuration values the project logic reads: the project name, the
   * owner's e-mail, the instance count bounds and the waiters' budget.
   */
  datatype Settings = Settings(project: string, email: string, minCount: int, maxCount: int, tries: int)

  /** A provider state together with what an operation produced. */
  datatype Step<T> = Step(cloud: Cloud, value: T)

  /** The later state keeps every instance (by id) and the same account. */
  predicate Grows(c: Cloud, d: Cloud) {
    |d.instances| >= |c.instances| && d.limit == c.limit && d.script == c.script
  }

  /**
   * What a provider call that issues no start, stop or terminate keeps: every
   * instance, its tags, the health of each scriptless instance, and the absence
   * of scripts.
   */
  predicate Keeps(c: Cloud, d: Cloud) {
    Grows(c, d) && TagsKept(c, d) && HealthKept(c, d, []) && (Unscripted(c) ==> Unscripted(d))
  }

  /**
   * `d` follows `c` with the instances `ids` retired: every scriptless one
   * of them is left unhealthy, and everything else is kept.
   */
  predicate Retires(c: Cloud, d: Cloud, ids: seq<Id>) {
    && Grows(c, d) && TagsKept(c, d) && HealthKept(c, d, ids) && (Unscripted(c) ==> Unscripted(d))
    && forall x :: x in ids && 0 <= x < |c.instances| && c.instances[x].mode == Natural ==>
         d.instances[x].mode == Natural && !Healthy(d.instances[x].code)
  }

  /** Terminating instances retires them. */
  lemma ApplyRetires(c: Cloud, ids: seq<Id>)
    requires Valid(c, ids)
    ensures Retires(c, Apply(c, ids, DoTerminate), ids)
  {
    ApplyKeepsAll(c, ids, DoTerminate);
    ApplyKeepsHealth(c, ids, DoTerminate);
    forall x | x in ids
      ensures Apply(c, ids, DoTerminate).instances[x].mode == c.instances[x].mode
      ensures !Healthy(Apply(c, ids, DoTerminate).instances[x].code)
    {
      ApplyTerminate(c, ids, x);
    }
  }

  /** Two retirements in a row retire both lists. */
  lemma RetiresChain(a: Cloud, b: Cloud, c: Cloud, x: seq<Id>, y: seq<Id>)
    requires Retires(a, b, x) && Retires(b, c, y)
    ensures Retires(a, c, x + y)
  {
    forall j | 0 <= j < |a.instances| && j !in x + y && a.instances[j].mode == Natural
      ensures c.instances[j].mode == Natural && Healthy(c.instances[j].code) == Healthy(a.instances[j].code)
    {
      assert j !in x && j !in y;
    }
    forall j | j in x + y && 0 <= j < |a.instances| && a.instances[j].mode == Natural
      ensures c.instances[j].mode == Natural && !Healthy(c.instances[j].code)
    {
      if j in x && j !in y {
        assert c.instances[j].mode == Natural && Healthy(c.instances[j].code) == Healthy(b.instances[j].code);
      }
    }
  }

  /** A retirement followed by a call that keeps everything is still that retirement. */
  lemma RetiresThenKeeps(a: Cloud, b: Cloud, c: Cloud, ids: seq<Id>)
    requires Retires(a, b, ids) && Keeps(b, c)
    ensures Retires(a, c, ids)
  {
  }

  /** Calls that keep everything, then a retirement, retire the same instances. */
  lemma KeepsThenRetires(a: Cloud, b: Cloud, c: Cloud, ids: seq<Id>)
    requires Keeps(a, b) && Retires(b, c, ids)
    ensures Retires(a, c, ids)
  {
  }

  /** Growing with the tags kept is transitive. */
  lemma GrowsTrans(a: Cloud, b: Cloud, c: Cloud)
    requires Grows(a, b) && TagsKept(a, b) && Grows(b, c) && TagsKept(b, c)
    ensures Grows(a, c) && TagsKept(a, c)
  {
  }

  /** Keeping is transitive, so a chain of calls keeps what each call keeps. */
  lemma KeepsTrans(a: Cloud, b: Cloud, c: Cloud)
    requires Keeps(a, b) && Keeps(b, c)
    ensures Keeps(a, c)
  {
  }

  /** Two tables of one size whose tags a third kept carry the same tags. */
  lemma TagsKeptBack(c: Cloud, d: Cloud, e: Cloud)
    requires |d.instances| == |c.instances| && TagsKept(c, e) && TagsKept(d, e)
    ensures TagsKept(c, d)
  {
  }

  lemma GrowsValid(c: Cloud, d: Cloud, ids: seq<Id>)
    requires Grows(c, d) && Valid(c, ids)
    ensures Valid(d, ids)
  {
  }

  /** Two lists of issued ids joined are issued ids. */
  lemma ValidJoin(c: Cloud, a: seq<Id>, b: seq<Id>)
    requires Valid(c, a) && Valid(c, b)
    ensures Valid(c, a + b)
  {
    forall k | 0 <= k < |a + b|
      ensures (a + b)[k] < |c.instances|
    {
      if k >= |a| {
        assert (a + b)[k] == b[k - |a|];
      }
    }
  }

  /** Leaving ids out of a list of issued ids leaves issued ids. */
  lemma SubsequenceValid(c: Cloud, a: seq<Id>, b: seq<Id>)
    requires Subsequence(a, b) && Valid(c, b)
    ensures Valid(c, a)
  {
    SubsequenceMembers(a, b);
    forall k | 0 <= k < |a|
      ensures a[k] < |c.instances|
    {
      assert a[k] in b;
    }
  }

  /** `{"tag:ProjectName": "wolphin.<project>"}`. */
  function ProjectFilter(s: Settings): map<string, string> {
    map["ProjectName" := ProjectTag(s.project)]
  }

  /** `{"tag:Name": "wolphin.<project>.<suffix>"}`. */
  function NameFilter(s: Settings, suffix: string): map<string, string> {
    map["Name" := NameTag(s.project, suffix)]
  }

  /**
   * `_get_instances_from_reservations(conn.get_all_instances(filters))`: the
   * matching instances in id order, each refreshed once by `update()`.
   */
  function List(c: Cloud, filters: map<string, string>): (r: Step<seq<Id>>)
    ensures Valid(r.cloud, r.value) && Distinct(r.value)
    ensures |r.cloud.instances| == |c.instances| && r.cloud.limit == c.limit && r.cloud.script == c.script
    ensures forall j :: 0 <= j < |c.instances| ==> (j in r.value <==> Matches(c.instances[j].tags, filters))
    ensures forall j :: 0 <= j < |c.instances| ==>
              r.cloud.instances[j] == if j in r.value then Update(c.instances[j]) else c.instances[j]
    ensures TagsKept(c, r.cloud) && HealthKept(c, r.cloud, [])
    ensures Unscripted(c) ==> Unscripted(r.cloud)
    ensures Refreshed(c, r.cloud, [])
  {
    var ids := GetAllInstances(c, filters);
    RefreshAll(c, ids);
    Step(Apply(c, ids, DoUpdate), ids)
  }

  /**
   * Refreshing a repetition-free list updates each listed instance once,
   * leaves the others alone, and keeps every tag and every scriptless
   * instance's health.
   */
  lemma RefreshAll(c: Cloud, ids: seq<Id>)
    requires Valid(c, ids) && forall p, q :: 0 <= p < q < |ids| ==> ids[p] < ids[q]
    ensures var d := Apply(c, ids, DoUpdate);
      && Distinct(ids)
      && (forall j :: 0 <= j < |c.instances| ==>
            d.instances[j] == if j in ids then Update(c.instances[j]) else c.instances[j])
      && TagsKept(c, d) && HealthKept(c, d, [])
      && (Unscripted(c) ==> Unscripted(d))
  {
    forall j | 0 <= j < |c.instances|
      ensures Apply(c, ids, DoUpdate).instances[j] == if j in ids then Update(c.instances[j]) else c.instances[j]
    {
      RefreshOnce(c, ids, j);
    }
    ApplyKeepsAll(c, ids, DoUpdate);
    ApplyKeepsHealth(c, ids, DoUpdate);
  }

  /** Two tables with the same tags list the same ids, and the listings agree on their tags. */
  lemma ListedTagsAgree(c: Cloud, d: Cloud, filters: map<string, string>)
    requires |d.instances| == |c.instances| && TagsKept(c, d)
    ensures var a, b := List(c, filters), List(d, filters);
              && b.value == a.value
              && forall k :: 0 <= k < |a.value| ==> TagsOf(b.cloud, a.value[k]) == TagsOf(a.cloud, a.value[k])
  {
    var a, b := List(c, filters), List(d, filters);
    ListSame(c, d, filters);
    forall k | 0 <= k < |a.value|
      ensures TagsOf(b.cloud, a.value[k]) == TagsOf(a.cloud, a.value[k])
    {
      assert TagsOf(d, a.value[k]) == TagsOf(c, a.value[k]);
    }
  }

  lemma ListSame(c: Cloud, d: Cloud, filters: map<string, string>)
    requires |d.instances| == |c.instances| && TagsKept(c, d)
    ensures List(d, filters).value == List(c, filters).value
  {
    forall j | 0 <= j < |c.instances|
      ensures d.instances[j].tags == c.instances[j].tags
    {
      assert TagsOf(d, j) == TagsOf(c, j);
    }
    MatchingSame(c, d, filters, 0);
  }

  /** A listed instance is one the provider issued, and one the filters match. */
  lemma Listed(c: Cloud, filters: map<string, string>, j: Id)
    requires j in List(c, filters).value
    ensures j < |c.instances| && Matches(TagsOf(c, j), filters)
  {
    var r := List(c, filters);
    var p :| 0 <= p < |r.value| && r.value[p] == j;
  }

  // ---- state filters ----

  /** `instance.state_code in state_codes`, or `not in` when inverted. */
  predicate Wanted(code: int, codes: set<int>, inverse: bool) {
    (code in codes) != inverse
  }

  /** `filter(in_state or not_in_state, instances)`. */
  function Keep(c: Cloud, ids: seq<Id>, codes: set<int>, inverse: bool): (r: seq<Id>)
    ensures Subsequence(r, ids)
    ensures forall k :: 0 <= k < |r| ==> Wanted(CodeOf(c, r[k]), codes, inverse)
    ensures forall k :: 0 <= k < |ids| && Wanted(CodeOf(c, ids[k]), codes, inverse) ==> ids[k] in r
    decreases |ids|
  {
    if |ids| == 0 then []
    else
      var rest := Keep(c, ids[1..], codes, inverse);
      assert forall k :: 1 <= k < |ids| ==> ids[k] == ids[1..][k - 1];
      if Wanted(CodeOf(c, ids[0]), codes, inverse) then
        SubsequenceTake(rest, ids[0], ids[1..]);
        assert ids == [ids[0]] + ids[1..];
        [ids[0]] + rest
      else
        SubsequenceSkip(rest, ids[0], ids[1..]);
        assert ids == [ids[0]] + ids[1..];
        rest
  }

  /** An instance of the list is kept exactly when its state code is wanted. */
  lemma KeepMembers(c: Cloud, ids: seq<Id>, codes: set<int>, inverse: bool, id: Id)
    requires id in ids
    ensures id in Keep(c, ids, codes, inverse) <==> Wanted(CodeOf(c, id), codes, inverse)
  {
    var r := Keep(c, ids, codes, inverse);
    if id in r {
      var p :| 0 <= p < |r| && r[p] == id;
    }
  }

  /**
   * The in-states and not-in-states filters split a list: every instance goes
   * to exactly one side, and the sides' lengths add up to the list's.
   */
  lemma {:induction false} KeepPartition(c: Cloud, ids: seq<Id>, codes: set<int>)
    ensures |Keep(c, ids, codes, false)| + |Keep(c, ids, codes, true)| == |ids|
    ensures forall k :: 0 <= k < |ids| ==>
              (ids[k] in Keep(c, ids, codes, false) <==> ids[k] !in Keep(c, ids, codes, true))
    decreases |ids|
  {
    if |ids| > 0 {
      KeepPartition(c, ids[1..], codes);
    }
    forall k | 0 <= k < |ids|
      ensures ids[k] in Keep(c, ids, codes, false) <==> ids[k] !in Keep(c, ids, codes, true)
    {
      KeepMembers(c, ids, codes, false, ids[k]);
      KeepMembers(c, ids, codes, true, ids[k]);
    }
  }

  /** Healthy: neither terminated nor shutting down. */
  const Unhealthy: set<int> := {Terminated, ShuttingDown}

  lemma HealthyFilter(c: Cloud, ids: seq<Id>, id: Id)
    requires id in ids
    ensures id in Keep(c, ids, Unhealthy, true) <==> Healthy(CodeOf(c, id))
  {
    KeepMembers(c, ids, Unhealthy, true, id);
  }

  // ---- tagging and reserving ----

  /** The three tags `_tag_instance` writes. */
  function ProjectTags(s: Settings, suffix: string): Tags {
    map["Name" := NameTag(s.project, suffix), "ProjectName" := ProjectTag(s.project), "OwnerEmail" := s.email]
  }

  /**
   * `_tag_instance(instance, suffix)`: the instance is named
   * `wolphin.<project>.<suffix>`, joins the project and records its owner;
   * its state and every other instance stay as they were.
   */
  function TagInstance(s: Settings, c: Cloud, id: Id, suffix: string): (r: Cloud)
    requires id < |c.instances|
    ensures |r.instances| == |c.instances| && r.limit == c.limit && r.script == c.script
    ensures "Name" in TagsOf(r, id) && TagsOf(r, id)["Name"] == NameTag(s.project, suffix)
    ensures Matches(TagsOf(r, id), ProjectFilter(s))
    ensures CodeOf(r, id) == CodeOf(c, id)
    ensures r.instances[id].mode == c.instances[id].mode
    ensures forall j :: 0 <= j < |c.instances| && j != id ==> r.instances[j] == c.instances[j]
  {
    var r := CreateTags(c, id, ProjectTags(s, suffix));
    assert "ProjectName" in ProjectFilter(s);
    r
  }

  /** `x or default`: zero is falsy. */
  function OrDefault(x: int, default: int): int {
    if x == 0 then default else x
  }

  /**
   * `_reserve(min, max)`: an absent (zero) bound falls back to the configured
   * one; the provider's limit refusal becomes `EC2InstanceLimitExceeded`, any
   * other refusal a plain `WolphinException`; a success launches between the
   * two bounds of fresh pending instances after the existing ones.
   */
  function Reserve(s: Settings, c: Cloud, lo: int, hi: int): (r: Result<Step<seq<Id>>>)
    ensures var lo', hi' := OrDefault(lo, s.minCount), OrDefault(hi, s.maxCount);
      && (r == Failure(WolphinError) <==> !(1 <= lo' <= hi'))
      && (r == Failure(InstanceLimitExceeded) <==> 1 <= lo' <= hi' && NonTerminated(c.instances) + lo' > c.limit)
      && (r.Failure? ==> r.error == WolphinError || r.error == InstanceLimitExceeded)
      && (r.Success? ==>
            && Grows(c, r.value.cloud)
            && lo' <= |r.value.value| <= hi'
            && r.value.value == Range(|c.instances|, |r.value.value|)
            && |r.value.cloud.instances| == |c.instances| + |r.value.value|
            && r.value.cloud.instances[..|c.instances|] == c.instances
            && (forall k :: 0 <= k < |r.value.value| ==> CodeOf(r.value.cloud, r.value.value[k]) == Pending)
            && NonTerminated(r.value.cloud.instances) <= c.limit
            && HealthKept(c, r.value.cloud, [])
            && (Unscripted(c) ==> Unscripted(r.value.cloud)))
  {
    match RunInstances(c, OrDefault(lo, s.minCount), OrDefault(hi, s.maxCount))
    case Rejected(LimitExceeded) => Failure(InstanceLimitExceeded)
    case Rejected(InvalidParameters) => Failure(WolphinError)
    case Launched(d, ids) =>
      LaunchedPending(c, OrDefault(lo, s.minCount), OrDefault(hi, s.maxCount));
      Success(Step(d, ids))
  }

  /** A launch keeps every earlier instance and adds pending ones that follow the provider's script. */
  lemma LaunchedPending(c: Cloud, lo: int, hi: int)
    requires RunInstances(c, lo, hi).Launched?
    ensures var r := RunInstances(c, lo, hi);
      && Grows(c, r.cloud)
      && (forall k :: 0 <= k < |r.ids| ==> CodeOf(r.cloud, r.ids[k]) == Pending)
      && HealthKept(c, r.cloud, [])
      && (Unscripted(c) ==> Unscripted(r.cloud))
  {
    var r := RunInstances(c, lo, hi);
    var n := |c.instances|;
    forall j | 0 <= j < n
      ensures r.cloud.instances[j] == c.instances[j]
    {
      assert r.cloud.instances[j] == r.cloud.instances[..n][j];
    }
    forall k | 0 <= k < |r.ids|
      ensures CodeOf(r.cloud, r.ids[k]) == Pending
    {
      assert r.ids[k] == n + k && r.cloud.instances[n + k] == NewInstance(c.script);
    }
  }

  /** The tags of the listed instances, in list order. */
  function TagsList(c: Cloud, ids: seq<Id>): (names: seq<Tags>)
    ensures |names| == |ids|
    ensures forall k :: 0 <= k < |ids| ==> names[k] == TagsOf(c, ids[k])
  {
    seq(|ids|, k requires 0 <= k < |ids| => TagsOf(c, ids[k]))
  }

  /** An instance the provider issued that carries the project's tag. */
  predicate InProject(s: Settings, c: Cloud, j: Id) {
    j < |c.instances| && Matches(TagsOf(c, j), ProjectFilter(s))
  }

  /**
   * `_max_allocated_number()` (and the counter of the nested `create`): lists
   * the project and returns the largest number in use, or 0; an instance of
   * the project whose number does not decode makes it raise.
   */
  function MaxInUse(lineage: Lineage, s: Settings, c: Cloud): (r: Result<Step<int>>)
    ensures r.Success? ==> Grows(c, r.value.cloud) && TagsKept(c, r.value.cloud) && HealthKept(c, r.value.cloud, [])
    ensures r.Success? ==> |r.value.cloud.instances| == |c.instances| && r.value.value >= 0
    ensures r.Success? && Unscripted(c) ==> Unscripted(r.value.cloud)
    ensures r.Success? ==> forall j :: InProject(s, c, j) ==>
              Number(lineage, TagsOf(c, j)).Success? && Number(lineage, TagsOf(c, j)).value <= r.value.value
    ensures r.Success? && r.value.value > 0 ==>
              exists j :: InProject(s, c, j) && Number(lineage, TagsOf(c, j)) == Success(r.value.value)
    ensures r.Failure? <==> exists j :: InProject(s, c, j) && Number(lineage, TagsOf(c, j)).Failure?
  {
    var all := List(c, ProjectFilter(s));
    var names := TagsList(all.cloud, all.value);
    var m := MaxAllocated(lineage, names);
    forall k | 0 <= k < |names|
      ensures InProject(s, c, all.value[k]) && names[k] == TagsOf(c, all.value[k])
    {
      Listed(c, ProjectFilter(s), all.value[k]);
    }
    forall j | InProject(s, c, j)
      ensures exists k :: 0 <= k < |names| && all.value[k] == j
    {
      assert j in all.value;
    }
    if m.Failure? then Failure(m.error) else Success(Step(all.cloud, m.value))
  }

  /** Reading the largest number refreshes instances and does nothing else to them. */
  lemma MaxInUseRefreshes(lineage: Lineage, s: Settings, c: Cloud, j: Id)
    requires MaxInUse(lineage, s, c).Success? && j < |c.instances|
    ensures var d := MaxInUse(lineage, s, c).value.cloud;
      d.instances[j] == c.instances[j] || d.instances[j] == Update(c.instances[j])
  {
  }

  /** The list's first element decides first, then the rest. */
  lemma EachSplit(number: Id -> Result<int>, ids: seq<Id>)
    requires ids != []
    ensures Each(number, ids).Success? <==> Each(number, [ids[0]]).Success? && Each(number, ids[1..]).Success?
    ensures Each(number, ids).Success? ==>
              Each(number, ids).value == Each(number, [ids[0]]).value + Each(number, ids[1..]).value
  {
    assert forall k :: 1 <= k < |ids| ==> ids[k] == ids[1..][k - 1];
  }

  /** Two decodings that agree on every listed instance collect the same result, errors included. */
  lemma {:induction false} EachAgree(f: Id -> Result<int>, g: Id -> Result<int>, ids: seq<Id>)
    requires forall k :: 0 <= k < |ids| ==> f(ids[k]) == g(ids[k])
    ensures Each(f, ids) == Each(g, ids)
    decreases |ids|
  {
    if |ids| > 0 {
      assert forall k :: 0 <= k < |ids| - 1 ==> ids[1..][k] == ids[k + 1];
      EachAgree(f, g, ids[1..]);
    }
  }

  /** How `lineage` decodes an instance's number in the provider state `c`. */
  function NumberOf(lineage: Lineage, c: Cloud): Id -> Result<int> {
    (id: Id) => Number(lineage, TagsOf(c, id))
  }

  /**
   * `[number(instance) for instance in instances]`: the listed instances'
   * numbers in order as `lineage` decodes them, or the first decoding failure.
   */
  function Numbers(lineage: Lineage, c: Cloud, ids: seq<Id>): Result<seq<int>> {
    Each(NumberOf(lineage, c), ids)
  }

  /** Numbers read in a later state that kept the listed instances' tags are the same. */
  lemma NumbersKept(lineage: Lineage, c: Cloud, d: Cloud, ids: seq<Id>)
    requires Valid(c, ids) && TagsKept(c, d)
    ensures Numbers(lineage, d, ids) == Numbers(lineage, c, ids)
  {
    forall k | 0 <= k < |ids|
      ensures NumberOf(lineage, d)(ids[k]) == NumberOf(lineage, c)(ids[k])
    {
      assert TagsOf(d, ids[k]) == TagsOf(c, ids[k]);
    }
    EachAgree(NumberOf(lineage, d), NumberOf(lineage, c), ids);
  }

  /**
   * `for instance, number in zip(instances, numbers): _tag_instance(instance, number)`:
   * pairs up the two lists, as far as the shorter one goes, naming each
   * instance after its number; no state changes.
   */
  function TagZip(s: Settings, c: Cloud, ids: seq<Id>, numbers: seq<int>): (r: Cloud)
    requires Valid(c, ids)
    ensures |r.instances| == |c.instances| && r.limit == c.limit && r.script == c.script
    ensures forall j :: 0 <= j < |c.instances| ==> CodeOf(r, j) == CodeOf(c, j)
    ensures forall j :: 0 <= j < |c.instances| ==> r.instances[j].mode == c.instances[j].mode
    ensures forall j :: 0 <= j < |c.instances| && j !in ids ==> r.instances[j] == c.instances[j]
    ensures Distinct(ids) ==> forall k :: 0 <= k < |ids| && k < |numbers| ==>
              && "Name" in TagsOf(r, ids[k]) && TagsOf(r, ids[k])["Name"] == LiveName(s.project, numbers[k])
              && Matches(TagsOf(r, ids[k]), ProjectFilter(s))
    decreases |ids|
  {
    if |ids| == 0 || |numbers| == 0 then c
    else
      var c1 := TagInstance(s, c, ids[0], IntToString(numbers[0]));
      var r := TagZip(s, c1, ids[1..], numbers[1..]);
      assert forall k :: 1 <= k < |ids| ==> ids[k] == ids[1..][k - 1];
      assert Distinct(ids) ==> ids[0] !in ids[1..];
      r
  }

  /**
   * Every instance paired with a number decodes back to that number, in
   * either lineage.
   */
  lemma TagZipNumbers(lineage: Lineage, s: Settings, c: Cloud, ids: seq<Id>, numbers: seq<int>)
    requires Valid(c, ids) && Distinct(ids)
    ensures forall k :: 0 <= k < |ids| && k < |numbers| ==>
              Number(lineage, TagsOf(TagZip(s, c, ids, numbers), ids[k])) == Success(numbers[k])
  {
    var r := TagZip(s, c, ids, numbers);
    forall k | 0 <= k < |ids| && k < |numbers|
      ensures Number(lineage, TagsOf(r, ids[k])) == Success(numbers[k])
    {
      LiveNameRoundTrip(lineage, TagsOf(r, ids[k]), s.project, numbers[k]);
    }
  }

  // ---- what create reserves and reports ----

  /**
   * `_create_extra_instances(min, max)`, and the same steps inside the nested
   * `create`: reads the largest number in use, reserves between `min` and
   * `max` new instances and tags them with the numbers that follow it, in
   * reservation order; nothing that existed changes.
   */
  function CreateExtra(lineage: Lineage, s: Settings, c: Cloud, lo: int, hi: int): (r: Result<Step<seq<Id>>>)
    ensures r.Success? ==> Keeps(c, r.value.cloud) && Provided(s, c, r.value, lo, hi)
    ensures r.Success? ==> exists base :: Counted(lineage, s, c, r.value, base)
    ensures r.Success? ==> LiveKept(c, r.value.cloud)
  {
    var top :- MaxInUse(lineage, s, c);
    MaxInUseLive(lineage, s, c);
    CountOn(lineage, s, c, top, lo, hi)
  }

  /** A scriptless instance that is pending or running. */
  predicate Live(i: Inst) {
    i.mode == Natural && (i.code == Pending || i.code == Running)
  }

  /** Every live instance of `c` is still live in `d`. */
  predicate LiveKept(c: Cloud, d: Cloud) {
    |d.instances| >= |c.instances| && forall j :: 0 <= j < |c.instances| && Live(c.instances[j]) ==> Live(d.instances[j])
  }

  lemma LiveKeptTrans(a: Cloud, b: Cloud, c: Cloud)
    requires LiveKept(a, b) && LiveKept(b, c)
    ensures LiveKept(a, c)
  {
  }

  /** Reading the largest number in use leaves every live instance live. */
  lemma MaxInUseLive(lineage: Lineage, s: Settings, c: Cloud)
    requires MaxInUse(lineage, s, c).Success?
    ensures LiveKept(c, MaxInUse(lineage, s, c).value.cloud)
  {
    var d := MaxInUse(lineage, s, c).value.cloud;
    forall j | 0 <= j < |c.instances| && Live(c.instances[j])
      ensures Live(d.instances[j])
    {
      MaxInUseRefreshes(lineage, s, c, j);
      UpdateKeepsLive(c.instances[j]);
    }
  }

  /** Refreshing a live instance leaves it live: pending becomes running, running stays. */
  lemma UpdateKeepsLive(i: Inst)
    requires Live(i)
    ensures Live(Update(i))
  {
  }

  /**
   * Every number of the project in `c` is at most `base`, and the instances
   * `made` lists carry `base + 1`, `base + 2`, and so on.
   */
  ghost predicate Counted(lineage: Lineage, s: Settings, c: Cloud, made: Step<seq<Id>>, base: int) {
    && (forall j :: InProject(s, c, j) ==>
          Number(lineage, TagsOf(c, j)).Success? && Number(lineage, TagsOf(c, j)).value <= base)
    && (forall k :: 0 <= k < |made.value| ==> Number(lineage, TagsOf(made.cloud, made.value[k])) == Success(base + 1 + k))
  }

  /** `CreateExtra` once the largest number in use, `top.value`, has been read. */
  function CountOn(lineage: Lineage, s: Settings, c: Cloud, top: Step<int>, lo: int, hi: int): (r: Result<Step<seq<Id>>>)
    requires Keeps(c, top.cloud) && |top.cloud.instances| == |c.instances| && LiveKept(c, top.cloud)
    requires forall j :: InProject(s, c, j) ==>
               Number(lineage, TagsOf(c, j)).Success? && Number(lineage, TagsOf(c, j)).value <= top.value
    ensures r.Success? ==> Keeps(c, r.value.cloud) && Provided(s, c, r.value, lo, hi)
    ensures r.Success? ==> Counted(lineage, s, c, r.value, top.value)
    ensures r.Success? ==> LiveKept(c, r.value.cloud)
  {
    var made :- ReserveNumbered(lineage, s, top.cloud, lo, hi, top.value);
    KeepsTrans(c, top.cloud, made.cloud);
    LiveKeptTrans(c, top.cloud, made.cloud);
    Success(made)
  }

  /**
   * Instances numbered by counting up from the largest number in use are
   * numbered consecutively, in reservation order, above every number the
   * project had in use.
   */
  lemma CountedFresh(lineage: Lineage, s: Settings, c: Cloud, made: Step<seq<Id>>)
    requires exists base :: Counted(lineage, s, c, made, base)
    ensures forall k :: 0 <= k < |made.value| ==> Number(lineage, TagsOf(made.cloud, made.value[k])).Success?
    ensures forall k :: 0 <= k < |made.value| ==>
              Number(lineage, TagsOf(made.cloud, made.value[k])).value
              == Number(lineage, TagsOf(made.cloud, made.value[0])).value + k
    ensures forall k, j :: 0 <= k < |made.value| && InProject(s, c, j) ==>
              Number(lineage, TagsOf(c, j)).Success? &&
              Number(lineage, TagsOf(c, j)).value < Number(lineage, TagsOf(made.cloud, made.value[k])).value
  {
    var base :| Counted(lineage, s, c, made, base);
  }

  /**
   * The reservation `create` makes: between the two bounds of
   * new instances after the existing ones, pending and carrying the project tag.
   */
  predicate Provided(s: Settings, c: Cloud, made: Step<seq<Id>>, lo: int, hi: int) {
    var n := |made.value|;
    && OrDefault(lo, s.minCount) <= n <= OrDefault(hi, s.maxCount)
    && made.value == Range(|c.instances|, n)
    && |made.cloud.instances| == |c.instances| + n
    && (forall k :: 0 <= k < n ==> CodeOf(made.cloud, made.value[k]) == Pending)
    && (forall k :: 0 <= k < n ==> InProject(s, made.cloud, made.value[k]))
  }

  /** `_reserve(min, max)` followed by tagging the instances `base + 1`, `base + 2`, and so on. */
  function ReserveNumbered(lineage: Lineage, s: Settings, c: Cloud, lo: int, hi: int, base: int): (r: Result<Step<seq<Id>>>)
    ensures r.Success? ==> Keeps(c, r.value.cloud) && Provided(s, c, r.value, lo, hi)
    ensures r.Success? ==> forall k :: 0 <= k < |r.value.value| ==>
              Number(lineage, TagsOf(r.value.cloud, r.value.value[k])) == Success(base + 1 + k)
    ensures r.Success? ==> LiveKept(c, r.value.cloud)
  {
    var made :- Reserve(s, c, lo, hi);
    ReserveAppended(s, c, lo, hi);
    AppendedNumbered(lineage, s, c, lo, hi, base, made);
    Success(Step(TagZip(s, made.cloud, made.value, Allocation(base, |made.value|)), made.value))
  }

  /** A successful reservation appends between the two bounds of pending instances. */
  lemma ReserveAppended(s: Settings, c: Cloud, lo: int, hi: int)
    requires Reserve(s, c, lo, hi).Success?
    ensures var made := Reserve(s, c, lo, hi).value;
      && Appended(c, made)
      && OrDefault(lo, s.minCount) <= |made.value| <= OrDefault(hi, s.maxCount)
      && HealthKept(c, made.cloud, [])
  {
  }

  /** Tagging appended instances with consecutive numbers after `base`. */
  lemma AppendedNumbered(lineage: Lineage, s: Settings, c: Cloud, lo: int, hi: int, base: int, made: Step<seq<Id>>)
    requires Appended(c, made) && OrDefault(lo, s.minCount) <= |made.value| <= OrDefault(hi, s.maxCount)
    ensures Valid(made.cloud, made.value)
    ensures var d := TagZip(s, made.cloud, made.value, Allocation(base, |made.value|));
      && Keeps(c, d) && Provided(s, c, Step(d, made.value), lo, hi) && LiveKept(c, d)
      && forall k :: 0 <= k < |made.value| ==> Number(lineage, TagsOf(d, made.value[k])) == Success(base + 1 + k)
  {
    var numbers := Allocation(base, |made.value|);
    AppendedFresh(c, made);
    TagZipNumbers(lineage, s, made.cloud, made.value, numbers);
    AppendedTagged(s, c, made, numbers);
  }

  /**
   * `made` holds `c`'s instances followed by the new ones it lists, all
   * pending, none with a script unless `c` had one.
   */
  predicate Appended(c: Cloud, made: Step<seq<Id>>) {
    && made.value == Range(|c.instances|, |made.value|)
    && |made.cloud.instances| == |c.instances| + |made.value|
    && made.cloud.instances[..|c.instances|] == c.instances
    && made.cloud.limit == c.limit && made.cloud.script == c.script
    && (forall k :: 0 <= k < |made.value| ==> CodeOf(made.cloud, made.value[k]) == Pending)
    && (Unscripted(c) ==> Unscripted(made.cloud))
  }

  /** Appended instances are distinct and none existed before. */
  lemma AppendedFresh(c: Cloud, made: Step<seq<Id>>)
    requires Appended(c, made)
    ensures Valid(made.cloud, made.value) && Distinct(made.value)
    ensures forall k :: 0 <= k < |made.value| ==> made.value[k] >= |c.instances|
  {
  }

  /** Tagging appended instances keeps every earlier instance and gives each new one the project tag. */
  lemma AppendedTagged(s: Settings, c: Cloud, made: Step<seq<Id>>, numbers: seq<int>)
    requires Appended(c, made) && |numbers| == |made.value|
    ensures Valid(made.cloud, made.value)
    ensures var d := TagZip(s, made.cloud, made.value, numbers);
      && Keeps(c, d)
      && |d.instances| == |c.instances| + |made.value|
      && (forall k :: 0 <= k < |made.value| ==> CodeOf(d, made.value[k]) == Pending)
      && (forall k :: 0 <= k < |made.value| ==> InProject(s, d, made.value[k]))
      && LiveKept(c, d)
  {
    AppendedFresh(c, made);
    var n := |c.instances|;
    var d := TagZip(s, made.cloud, made.value, numbers);
    forall j | 0 <= j < n
      ensures d.instances[j] == c.instances[j]
    {
      assert j !in made.value;
      assert made.cloud.instances[j] == made.cloud.instances[..n][j];
    }
    PrefixKept(c, d);
    assert Unscripted(c) ==> Unscripted(d) by {
      if Unscripted(c) {
        assert Unscripted(made.cloud);
        assert forall j :: 0 <= j < |d.instances| ==> d.instances[j].mode == made.cloud.instances[j].mode;
      }
    }
  }

  /** A state that keeps every earlier instance as it was keeps their tags, health and liveness. */
  lemma PrefixKept(c: Cloud, d: Cloud)
    requires |d.instances| >= |c.instances| && d.limit == c.limit && d.script == c.script
    requires forall j :: 0 <= j < |c.instances| ==> d.instances[j] == c.instances[j]
    ensures Grows(c, d) && TagsKept(c, d) && HealthKept(c, d, []) && LiveKept(c, d)
  {
  }

  /**
   * What `create` reports: the status of the project, the number of running
   * instances it logs, whether the wait for running gave up (the warning it
   * logs), and the sleeps that wait took.
   */
  datatype Created = Created(status: seq<Id>, running: nat, timedOut: bool, sleeps: nat)


  // ---- names carried by replacements ----

  /** The instance carries exactly this "Name" tag. */
  predicate Named(c: Cloud, j: Id, name: string) {
    "Name" in TagsOf(c, j) && TagsOf(c, j)["Name"] == name
  }

  /** Each listed instance is named after the number at the same position. */
  predicate Carries(s: Settings, c: Cloud, ids: seq<Id>, numbers: seq<int>) {
    && |ids| == |numbers|
    && forall k :: 0 <= k < |ids| ==> Named(c, ids[k], LiveName(s.project, numbers[k]))
  }

  /** An instance named after a number decodes back to it, in either lineage. */
  lemma CarriesNumbers(lineage: Lineage, s: Settings, c: Cloud, ids: seq<Id>, numbers: seq<int>)
    requires Carries(s, c, ids, numbers)
    ensures forall k :: 0 <= k < |ids| ==> Number(lineage, TagsOf(c, ids[k])) == Success(numbers[k])
  {
    forall k | 0 <= k < |ids|
      ensures Number(lineage, TagsOf(c, ids[k])) == Success(numbers[k])
    {
      LiveNameRoundTrip(lineage, TagsOf(c, ids[k]), s.project, numbers[k]);
    }
  }

  /** A later state that keeps the tags keeps the names. */
  lemma CarriesKept(s: Settings, c: Cloud, d: Cloud, ids: seq<Id>, numbers: seq<int>)
    requires Valid(c, ids) && Carries(s, c, ids, numbers) && TagsKept(c, d)
    ensures Carries(s, d, ids, numbers)
  {
    assert forall k :: 0 <= k < |ids| ==> TagsOf(d, ids[k]) == TagsOf(c, ids[k]);
  }

  /** Two lists that carry their numbers carry them together. */
  lemma CarriesJoin(s: Settings, c: Cloud, a: seq<Id>, b: seq<Id>, x: seq<int>, y: seq<int>)
    requires Carries(s, c, a, x) && Carries(s, c, b, y)
    ensures Carries(s, c, a + b, x + y)
  {
    forall k | 0 <= k < |a + b|
      ensures Named(c, (a + b)[k], LiveName(s.project, (x + y)[k]))
    {
      if k >= |a| {
        assert (a + b)[k] == b[k - |a|] && (x + y)[k] == y[k - |a|];
      }
    }
  }

  /** `_reserve(n, n)` for `n` numbers, each of the exactly `n` new instances tagged with its number. */
  function ReserveTagged(s: Settings, c: Cloud, numbers: seq<int>): (r: Result<Step<seq<Id>>>)
    requires numbers != []
    ensures r.Success? ==> Keeps(c, r.value.cloud) && Valid(r.value.cloud, r.value.value) && |r.value.value| == |numbers|
    ensures r.Success? ==> Distinct(r.value.value)
    ensures r.Success? ==> forall k :: 0 <= k < |r.value.value| ==> r.value.value[k] >= |c.instances|
    ensures r.Success? ==> Carries(s, r.value.cloud, r.value.value, numbers)
  {
    var made :- Reserve(s, c, |numbers|, |numbers|);
    ReserveAppended(s, c, |numbers|, |numbers|);
    AppendedFresh(c, made);
    AppendedTagged(s, c, made, numbers);
    Success(Step(TagZip(s, made.cloud, made.value, numbers), made.value))
  }

}
