/**
 * The nested `WolphinProject` (`wolphin/wolphin/project.py`): the older
 * lineage, addressed by name suffixes rather than a selector. Every operation
 * is a function from a provider state to the next one; the records `status()`
 * returns are represented by the ids of the instances it lists. The
 * `instance_numbers` argument is a list of suffixes, the empty list standing
 * for both `None` and `[]` (`_select_instances` tests it with
 * `if instance_numbers:`).
 */
module NestedProject {

  import opened Wrappers
  import opened States
  import opened Text
  import opened Identity
  import opened MockEc2
  import opened Seqs
  import opened Polling
  import opened Waiting
  import opened Session
  import Reconcile
  import TopProject
  import Config

  // ---- construction ----

  /**
   * `WolphinProject.__init__`: unpacks `config.validate()` as a pair
   * `valid, err_msg`. `validate` raises on a rejected configuration and
   * returns `None` on an accepted one, and unpacking `None` raises
   * `TypeError`, so no configuration yields a project.
   */
  function Construct(c: Config.Attributes): (r: Outcome)
    ensures r.Fail?
    ensures Config.Validate(c).Pass? ==> r == Fail(TypeError)
    ensures Config.Validate(c).Fail? ==> r == Config.Validate(c)
  {
    match Config.Validate(c)
    case Fail(e) => Fail(e)
    case Pass => Fail(TypeError)
  }

  /**
   * The constructor as the unpack evidently means it: `validate` itself is
   * the check, as in the top-level `new`, so exactly the accepted
   * configurations yield a project.
   */
  function ConstructChecked(c: Config.Attributes): (r: Outcome)
    ensures r.Pass? <==> Config.Validate(c).Pass?
    ensures r.Fail? ==> r == Config.Validate(c)
  {
    Config.Validate(c)
  }

  /**
   * Keywords for `Configuration` that give every attribute the constructor
   * leaves as `None` a value and keep the default counts of one.
   */
  const AcceptedKeywords: map<string, Config.Value> := map[
    "project" := Config.VStr("demo"),
    "email" := Config.VStr("a@b.cd"),
    "amazon_keypair_name" := Config.VStr("demo-key"),
    "pem_file" := Config.VStr("demo.pem"),
    "pem_path" := Config.VStr("keys"),
    "aws_access_key_id" := Config.VStr("key-id"),
    "aws_secret_key" := Config.VStr("secret")
  ]

  /** The keywords name known attributes, cover every `None` default and leave the counts alone. */
  lemma AcceptedKeywordsKnown()
    ensures AcceptedKeywords.Keys <= Config.Defaults.Keys
    ensures forall k :: k in Config.Defaults && Config.Falsy(Config.Defaults[k]) ==> k in AcceptedKeywords
    ensures "min_instance_count" !in AcceptedKeywords && "max_instance_count" !in AcceptedKeywords
  {
  }

  /** Every keyword is true, and the email matches the pattern. */
  lemma AcceptedKeywordsTrue()
    ensures forall k :: k in AcceptedKeywords ==> !Config.Falsy(AcceptedKeywords[k])
    ensures "email" in AcceptedKeywords && AcceptedKeywords["email"] == Config.VStr("a@b.cd")
    ensures Config.EmailPattern("a@b.cd")
  {
    assert "a@b.cd"[1] == '@' && "a@b.cd"[3] == '.';
  }

  /**
   * The configuration built from those keywords is one `validate` accepts,
   * yet the constructor raises `TypeError` on it, while the checked form
   * builds a project.
   */
  lemma ConstructRejectsAccepted()
    ensures Config.New(AcceptedKeywords).Success?
    ensures var c := Config.New(AcceptedKeywords).value;
      Config.Validate(c).Pass? && Construct(c) == Fail(TypeError) && ConstructChecked(c) == Pass
  {
    AcceptedKeywordsKnown();
    AcceptedKeywordsTrue();
    Config.NewValidates(AcceptedKeywords);
  }

  // ---- listing ----

  /** The instance is named `wolphin.<project>.<suffix>` for one of the suffixes. */
  predicate NamedAfter(s: Settings, c: Cloud, j: Id, suffixes: seq<string>) {
    exists i :: 0 <= i < |suffixes| && Named(c, j, NameTag(s.project, suffixes[i]))
  }

  /**
   * The loop of `_select_instances` over `get_instances(suffix)`: the
   * instances named after each suffix in turn, each lookup refreshing what
   * it finds.
   */
  function Lookup(s: Settings, c: Cloud, suffixes: seq<string>): (r: Step<seq<Id>>)
    ensures Valid(r.cloud, r.value)
    ensures Keeps(c, r.cloud) && |r.cloud.instances| == |c.instances|
    ensures forall j :: 0 <= j < |c.instances| ==> (j in r.value <==> NamedAfter(s, c, j, suffixes))
    ensures Refreshed(c, r.cloud, [])
    ensures forall j :: 0 <= j < |c.instances| && j in r.value && c.instances[j].mode == Natural ==>
              r.cloud.instances[j] == Update(c.instances[j])
    decreases |suffixes|
  {
    if suffixes == [] then Step(c, [])
    else
      var first := List(c, NameFilter(s, suffixes[0]));
      var rest := Lookup(s, first.cloud, suffixes[1..]);
      LookupJoin(s, c, first, rest, suffixes);
      Step(rest.cloud, first.value + rest.value)
  }

  /** The first lookup and the rest together find what the whole list names. */
  lemma LookupJoin(s: Settings, c: Cloud, first: Step<seq<Id>>, rest: Step<seq<Id>>, suffixes: seq<string>)
    requires suffixes != [] && first == List(c, NameFilter(s, suffixes[0]))
    requires Valid(rest.cloud, rest.value)
    requires Keeps(first.cloud, rest.cloud) && |rest.cloud.instances| == |first.cloud.instances|
    requires forall j :: 0 <= j < |first.cloud.instances| ==>
               (j in rest.value <==> NamedAfter(s, first.cloud, j, suffixes[1..]))
    requires Refreshed(first.cloud, rest.cloud, [])
    requires forall j :: 0 <= j < |first.cloud.instances| && j in rest.value && first.cloud.instances[j].mode == Natural ==>
               rest.cloud.instances[j] == Update(first.cloud.instances[j])
    ensures Valid(rest.cloud, first.value + rest.value)
    ensures Keeps(c, rest.cloud) && |rest.cloud.instances| == |c.instances|
    ensures forall j :: 0 <= j < |c.instances| ==>
              (j in first.value + rest.value <==> NamedAfter(s, c, j, suffixes))
    ensures Refreshed(c, rest.cloud, [])
    ensures forall j :: 0 <= j < |c.instances| && j in first.value + rest.value && c.instances[j].mode == Natural ==>
              rest.cloud.instances[j] == Update(c.instances[j])
  {
    RefreshedTrans(c, first.cloud, rest.cloud, []);
    forall j | 0 <= j < |c.instances| && j in first.value + rest.value && c.instances[j].mode == Natural
      ensures rest.cloud.instances[j] == Update(c.instances[j])
    {
      NaturalUpdateSettles(c.instances[j]);
    }
    assert Keeps(c, first.cloud);
    KeepsTrans(c, first.cloud, rest.cloud);
    assert Valid(rest.cloud, first.value) by {
      GrowsValid(first.cloud, rest.cloud, first.value);
    }
    ValidJoin(rest.cloud, first.value, rest.value);
    ListNamed(s, c, suffixes[0]);
    forall j | 0 <= j < |c.instances|
      ensures j in first.value + rest.value <==> NamedAfter(s, c, j, suffixes)
    {
      assert TagsOf(first.cloud, j) == TagsOf(c, j);
      NamedAfterCons(s, c, first.cloud, j, suffixes);
    }
  }

  /** A lookup by one suffix lists exactly the instances carrying that name. */
  lemma ListNamed(s: Settings, c: Cloud, suffix: string)
    ensures forall j :: 0 <= j < |c.instances| ==>
              (j in List(c, NameFilter(s, suffix)).value <==> Named(c, j, NameTag(s.project, suffix)))
  {
    assert "Name" in NameFilter(s, suffix);
  }

  /** Being named after a list is being named after its head or after its tail. */
  lemma NamedAfterCons(s: Settings, c: Cloud, d: Cloud, j: Id, suffixes: seq<string>)
    requires suffixes != [] && TagsOf(d, j) == TagsOf(c, j)
    ensures NamedAfter(s, c, j, suffixes) <==>
              Named(c, j, NameTag(s.project, suffixes[0])) || NamedAfter(s, d, j, suffixes[1..])
  {
    if NamedAfter(s, d, j, suffixes[1..]) {
      var i :| 0 <= i < |suffixes[1..]| && Named(d, j, NameTag(s.project, suffixes[1..][i]));
      assert Named(c, j, NameTag(s.project, suffixes[i + 1]));
    }
    if NamedAfter(s, c, j, suffixes) {
      var i :| 0 <= i < |suffixes| && Named(c, j, NameTag(s.project, suffixes[i]));
      if i > 0 {
        assert Named(d, j, NameTag(s.project, suffixes[1..][i - 1]));
      }
    }
  }

  /** Looking up distinct suffixes lists no instance twice. */
  lemma {:induction false} LookupDistinct(s: Settings, c: Cloud, suffixes: seq<string>)
    ensures Distinct(suffixes) ==> Distinct(Lookup(s, c, suffixes).value)
    decreases |suffixes|
  {
    if suffixes != [] && Distinct(suffixes) {
      var first := List(c, NameFilter(s, suffixes[0]));
      var rest := Lookup(s, first.cloud, suffixes[1..]);
      assert Distinct(suffixes[1..]);
      LookupDistinct(s, first.cloud, suffixes[1..]);
      ListNamed(s, c, suffixes[0]);
      forall j | j in first.value
        ensures j !in rest.value
      {
        LookupApart(s, c, first.cloud, j, suffixes);
      }
      DistinctJoin(first.value, rest.value);
    }
  }

  /** An instance named after the head of distinct suffixes is named after none of the rest. */
  lemma LookupApart(s: Settings, c: Cloud, d: Cloud, j: Id, suffixes: seq<string>)
    requires suffixes != [] && Distinct(suffixes) && TagsOf(d, j) == TagsOf(c, j)
    requires Named(c, j, NameTag(s.project, suffixes[0]))
    ensures !NamedAfter(s, d, j, suffixes[1..])
  {
    if NamedAfter(s, d, j, suffixes[1..]) {
      var i :| 0 <= i < |suffixes[1..]| && Named(d, j, NameTag(s.project, suffixes[1..][i]));
      NameTagInjective(s.project, suffixes[0], suffixes[i + 1]);
    }
  }

  /** Which instances `_select_instances(instance_numbers)` lists. */
  predicate Selected(s: Settings, c: Cloud, j: Id, numbers: seq<string>) {
    if numbers == [] then InProject(s, c, j) else NamedAfter(s, c, j, numbers)
  }

  /**
   * `_select_instances(instance_numbers)`: without suffixes every instance of
   * the project, otherwise every instance named after one of them.
   */
  function SelectInstances(s: Settings, c: Cloud, numbers: seq<string>): (r: Step<seq<Id>>)
    ensures Valid(r.cloud, r.value)
    ensures Keeps(c, r.cloud) && |r.cloud.instances| == |c.instances|
    ensures forall j :: 0 <= j < |c.instances| ==> (j in r.value <==> Selected(s, c, j, numbers))
    ensures numbers == [] || Distinct(numbers) ==> Distinct(r.value)
    ensures Refreshed(c, r.cloud, [])
    ensures forall j :: 0 <= j < |c.instances| && Selected(s, c, j, numbers) && c.instances[j].mode == Natural ==>
              r.cloud.instances[j] == Update(c.instances[j])
  {
    if numbers == [] then
      var all := List(c, ProjectFilter(s));
      forall j | 0 <= j < |c.instances|
        ensures j in all.value <==> InProject(s, c, j)
      {
      }
      all
    else
      LookupDistinct(s, c, numbers);
      Lookup(s, c, numbers)
  }

  /**
   * `status(instance_numbers=...)`: one record per selected instance, here its
   * id; the listing refreshes them and changes nothing else.
   */
  function Status(s: Settings, c: Cloud, numbers: seq<string>): (r: Step<seq<Id>>)
    ensures Valid(r.cloud, r.value)
    ensures Keeps(c, r.cloud) && |r.cloud.instances| == |c.instances|
    ensures forall j :: 0 <= j < |c.instances| ==> (j in r.value <==> Selected(s, c, j, numbers))
    ensures Refreshed(c, r.cloud, [])
    ensures forall j :: 0 <= j < |c.instances| && Selected(s, c, j, numbers) && c.instances[j].mode == Natural ==>
              r.cloud.instances[j] == Update(c.instances[j])
  {
    SelectInstances(s, c, numbers)
  }

  /**
   * The status of number `n` lists exactly the instances named after `n`, and
   * each of them decodes back to `n`.
   */
  lemma StatusByNumber(s: Settings, c: Cloud, n: int)
    ensures var st := Status(s, c, [IntToString(n)]);
      && (forall j :: 0 <= j < |c.instances| ==> (j in st.value <==> Named(c, j, LiveName(s.project, n))))
      && (forall k :: 0 <= k < |st.value| ==> Number(Nested, TagsOf(st.cloud, st.value[k])) == Success(n))
  {
    var st := Status(s, c, [IntToString(n)]);
    forall j | 0 <= j < |c.instances|
      ensures j in st.value <==> Named(c, j, LiveName(s.project, n))
    {
      assert NamedAfter(s, c, j, [IntToString(n)]) <==> Named(c, j, NameTag(s.project, IntToString(n)));
    }
    forall k | 0 <= k < |st.value|
      ensures Number(Nested, TagsOf(st.cloud, st.value[k])) == Success(n)
    {
      var j := st.value[k];
      assert NamedAfter(s, c, j, [IntToString(n)]) <==> Named(c, j, NameTag(s.project, IntToString(n)));
      LiveNameRoundTrip(Nested, TagsOf(st.cloud, j), s.project, n);
    }
  }

  /**
   * `get_instances_in_state(code, instance_numbers)`: nothing for a code no
   * state has; otherwise the selected instances in that state after the
   * listing's refresh, in listing order.
   */
  function InState(s: Settings, c: Cloud, code: int, numbers: seq<string>): (r: Step<seq<Id>>)
    ensures Valid(r.cloud, r.value)
    ensures Keeps(c, r.cloud) && |r.cloud.instances| == |c.instances|
    ensures code !in Known ==> r == Step(c, [])
    ensures code in Known ==> forall j :: 0 <= j < |c.instances| ==>
              (j in r.value <==> Selected(s, c, j, numbers) && CodeOf(r.cloud, j) == code)
    ensures numbers == [] || Distinct(numbers) ==> Distinct(r.value)
    ensures Refreshed(c, r.cloud, [])
  {
    if code !in Known then Step(c, [])
    else
      var chosen := SelectInstances(s, c, numbers);
      var kept := Keep(chosen.cloud, chosen.value, {code}, false);
      KeepFacts(s, c, chosen, {code}, false, numbers);
      Step(chosen.cloud, kept)
  }

  /**
   * `get_healthy_instances(instance_numbers)`: the selected instances that are
   * neither terminated nor shutting down.
   */
  function HealthyInstances(s: Settings, c: Cloud, numbers: seq<string>): (r: Step<seq<Id>>)
    ensures Valid(r.cloud, r.value)
    ensures Keeps(c, r.cloud) && |r.cloud.instances| == |c.instances|
    ensures forall j :: 0 <= j < |c.instances| ==>
              (j in r.value <==> Selected(s, c, j, numbers) && Healthy(CodeOf(r.cloud, j)))
    ensures forall k :: 0 <= k < |r.value| ==> Healthy(CodeOf(r.cloud, r.value[k]))
    ensures numbers == [] || Distinct(numbers) ==> Distinct(r.value)
    ensures Refreshed(c, r.cloud, [])
    ensures forall j :: 0 <= j < |c.instances| && Selected(s, c, j, numbers) && c.instances[j].mode == Natural ==>
              r.cloud.instances[j] == Update(c.instances[j])
    ensures r.cloud == SelectInstances(s, c, numbers).cloud && Subsequence(r.value, SelectInstances(s, c, numbers).value)
  {
    var chosen := SelectInstances(s, c, numbers);
    var kept := Keep(chosen.cloud, chosen.value, Unhealthy, true);
    KeepFacts(s, c, chosen, Unhealthy, true, numbers);
    HealthyFacts(s, c, chosen, kept, numbers);
    Step(chosen.cloud, kept)
  }

  /** Keeping what is not in `Unhealthy` is keeping what is healthy. */
  lemma HealthyFacts(s: Settings, c: Cloud, chosen: Step<seq<Id>>, kept: seq<Id>, numbers: seq<string>)
    requires |chosen.cloud.instances| == |c.instances| && Valid(chosen.cloud, kept)
    requires forall j :: 0 <= j < |c.instances| ==>
               (j in kept <==> Selected(s, c, j, numbers) && Wanted(CodeOf(chosen.cloud, j), Unhealthy, true))
    ensures forall j :: 0 <= j < |c.instances| ==>
              (j in kept <==> Selected(s, c, j, numbers) && Healthy(CodeOf(chosen.cloud, j)))
    ensures forall k :: 0 <= k < |kept| ==> Healthy(CodeOf(chosen.cloud, kept[k]))
  {
    forall k | 0 <= k < |kept|
      ensures Healthy(CodeOf(chosen.cloud, kept[k]))
    {
      assert kept[k] in kept;
    }
  }

  /** What filtering a selection by state codes keeps. */
  lemma KeepFacts(s: Settings, c: Cloud, chosen: Step<seq<Id>>, codes: set<int>, inverse: bool, numbers: seq<string>)
    requires chosen == SelectInstances(s, c, numbers)
    ensures var kept := Keep(chosen.cloud, chosen.value, codes, inverse);
      && Valid(chosen.cloud, kept)
      && (forall j :: 0 <= j < |c.instances| ==>
            (j in kept <==> Selected(s, c, j, numbers) && Wanted(CodeOf(chosen.cloud, j), codes, inverse)))
      && (numbers == [] || Distinct(numbers) ==> Distinct(kept))
  {
    var kept := Keep(chosen.cloud, chosen.value, codes, inverse);
    SubsequenceValid(chosen.cloud, kept, chosen.value);
    SubsequenceMembers(kept, chosen.value);
    if numbers == [] || Distinct(numbers) {
      SubsequenceDistinct(kept, chosen.value);
    }
    forall j | 0 <= j < |c.instances| && j in chosen.value
      ensures j in kept <==> Wanted(CodeOf(chosen.cloud, j), codes, inverse)
    {
      KeepMembers(chosen.cloud, chosen.value, codes, inverse, j);
    }
  }

  // ---- waiting ----

  /**
   * `_wait_for_starting/_shutting_down/_stopping_instances(instances,
   * instance_numbers)`: waits on the given instances or, when none are given,
   * on the selected ones now in the state being left.
   */
  function WaitFor(s: Settings, c: Cloud, ids: seq<Id>, from: int, to: int, numbers: seq<string>): (r: Cloud)
    requires Valid(c, ids)
    ensures Keeps(c, r) && |r.instances| == |c.instances|
    ensures Refreshed(c, r, [])
  {
    var targets := if ids != [] then Step(c, ids) else InState(s, c, from, numbers);
    var w := WaitTransition(Nested, targets.cloud, targets.value, Some(from), Some(to), s.tries).world;
    KeepsTrans(c, targets.cloud, w);
    RefreshedTrans(c, targets.cloud, w, []);
    w
  }

  // ---- start, stop, reboot ----

  /** The codes the nested `start` leaves alone. */
  const StartSkips: set<int> := {Stopping, Running, Pending}

  /** The codes the nested `stop` leaves alone. */
  const StopSkips: set<int> := {Pending, Stopping, Stopped}

  /**
   * `for instance in instances: if instance.state_code not in skips:
   * instance.<action>()`: each instance's code is read just before its turn,
   * so an instance listed twice is acted on once.
   */
  function ActUnless(c: Cloud, ids: seq<Id>, skips: set<int>, a: Action): (r: Cloud)
    requires Valid(c, ids) && a != DoUpdate
    ensures |r.instances| == |c.instances| && r.limit == c.limit && r.script == c.script
    ensures forall j :: 0 <= j < |c.instances| ==>
              r.instances[j] == if j in ids && CodeOf(c, j) !in skips then Act(a, c.instances[j]) else c.instances[j]
    decreases |ids|
  {
    if ids == [] then c
    else
      var c1 := if CodeOf(c, ids[0]) !in skips then ActAt(c, ids[0], a) else c;
      var r := ActUnless(c1, ids[1..], skips, a);
      forall j | 0 <= j < |c.instances|
        ensures r.instances[j] == if j in ids && CodeOf(c, j) !in skips then Act(a, c.instances[j]) else c.instances[j]
      {
        assert j in ids <==> j == ids[0] || j in ids[1..];
        if j == ids[0] && CodeOf(c, j) !in skips {
          ActionIdempotent(a, c.instances[j]);
        }
      }
      r
  }

  /**
   * The reference the loop meets: issuing the action to the instances the
   * state filter keeps, all at once.
   */
  lemma ActUnlessIsApply(c: Cloud, ids: seq<Id>, skips: set<int>, a: Action)
    requires Valid(c, ids) && a != DoUpdate
    ensures Valid(c, Keep(c, ids, skips, true))
    ensures ActUnless(c, ids, skips, a) == Apply(c, Keep(c, ids, skips, true), a)
  {
    var kept := Keep(c, ids, skips, true);
    SubsequenceValid(c, kept, ids);
    SubsequenceMembers(kept, ids);
    var r, d := ActUnless(c, ids, skips, a), Apply(c, kept, a);
    forall j | 0 <= j < |c.instances|
      ensures r.instances[j] == d.instances[j]
    {
      ApplyEffect(c, kept, a, j);
      if j in ids {
        KeepMembers(c, ids, skips, true, j);
      }
    }
  }

  /**
   * Among healthy instances the nested skip lists pick what the top-level
   * ones pick: `start` acts exactly on the stopped (or unknown) codes and
   * `stop` exactly on the running (or unknown) ones.
   */
  lemma SkipsAgree(code: int)
    requires Healthy(code)
    ensures code !in StartSkips <==> code !in TopProject.StartSkips
    ensures code !in StopSkips <==> code !in TopProject.StopSkips
    ensures code in Known ==> (code !in StartSkips <==> code == Stopped)
    ensures code in Known ==> (code !in StopSkips <==> code == Running)
  {
  }

  /** Filters that agree on every listed instance keep the same instances. */
  lemma {:induction false} KeepAgree(c: Cloud, ids: seq<Id>, a: set<int>, b: set<int>)
    requires forall k :: 0 <= k < |ids| ==> (CodeOf(c, ids[k]) in a <==> CodeOf(c, ids[k]) in b)
    ensures Keep(c, ids, a, true) == Keep(c, ids, b, true)
    decreases |ids|
  {
    if |ids| > 0 {
      assert forall k :: 0 <= k < |ids| - 1 ==> ids[1..][k] == ids[k + 1];
      KeepAgree(c, ids[1..], a, b);
    }
  }

  /**
   * On a healthy list the nested start and stop loops do what the top-level
   * filters followed by a bulk action do.
   */
  lemma ActUnlessLineagesAgree(c: Cloud, ids: seq<Id>)
    requires Valid(c, ids)
    requires forall k :: 0 <= k < |ids| ==> Healthy(CodeOf(c, ids[k]))
    ensures Valid(c, Keep(c, ids, TopProject.StartSkips, true)) && Valid(c, Keep(c, ids, TopProject.StopSkips, true))
    ensures ActUnless(c, ids, StartSkips, DoStart) == Apply(c, Keep(c, ids, TopProject.StartSkips, true), DoStart)
    ensures ActUnless(c, ids, StopSkips, DoStop) == Apply(c, Keep(c, ids, TopProject.StopSkips, true), DoStop)
  {
    forall k | 0 <= k < |ids|
      ensures CodeOf(c, ids[k]) in StartSkips <==> CodeOf(c, ids[k]) in TopProject.StartSkips
      ensures CodeOf(c, ids[k]) in StopSkips <==> CodeOf(c, ids[k]) in TopProject.StopSkips
    {
      SkipsAgree(CodeOf(c, ids[k]));
    }
    KeepAgree(c, ids, StartSkips, TopProject.StartSkips);
    KeepAgree(c, ids, StopSkips, TopProject.StopSkips);
    ActUnlessIsApply(c, ids, StartSkips, DoStart);
    ActUnlessIsApply(c, ids, StopSkips, DoStop);
  }

  /** Start and stop loops keep every tag and never give an instance a script. */
  lemma ActUnlessKeeps(c: Cloud, ids: seq<Id>, skips: set<int>, a: Action)
    requires Valid(c, ids) && a != DoUpdate
    ensures Grows(c, ActUnless(c, ids, skips, a)) && TagsKept(c, ActUnless(c, ids, skips, a))
    ensures Unscripted(c) ==> Unscripted(ActUnless(c, ids, skips, a))
  {
    var r := ActUnless(c, ids, skips, a);
    forall j | 0 <= j < |c.instances|
      ensures r.instances[j].tags == c.instances[j].tags && r.instances[j].mode == c.instances[j].mode
    {
      ActionTable(a, c.instances[j]);
    }
  }

  /** A selected id is an instance of the table. */
  lemma SelectedMember(chosen: Step<seq<Id>>, j: Id)
    requires Valid(chosen.cloud, chosen.value) && j in chosen.value
    ensures j < |chosen.cloud.instances|
  {
    var k :| 0 <= k < |chosen.value| && chosen.value[k] == j;
  }

  /** Selection reads tags alone: a table that kept an instance's tags selects it alike. */
  lemma SelectedKept(s: Settings, c: Cloud, d: Cloud, j: Id, numbers: seq<string>)
    requires j < |c.instances| <= |d.instances| && TagsOf(d, j) == TagsOf(c, j)
    ensures Selected(s, d, j, numbers) == Selected(s, c, j, numbers)
  {
    if numbers != [] && NamedAfter(s, c, j, numbers) {
      var i :| 0 <= i < |numbers| && Named(c, j, NameTag(s.project, numbers[i]));
      assert Named(d, j, NameTag(s.project, numbers[i]));
    }
    if numbers != [] && NamedAfter(s, d, j, numbers) {
      var i :| 0 <= i < |numbers| && Named(d, j, NameTag(s.project, numbers[i]));
      assert Named(c, j, NameTag(s.project, numbers[i]));
    }
  }

  /**
   * The healthy selection as plain membership: each selected instance is in
   * the table, refreshed if it has no script, and kept exactly when healthy.
   */
  lemma HealthySelection(s: Settings, c: Cloud, numbers: seq<string>)
    ensures var chosen, h := SelectInstances(s, c, numbers), HealthyInstances(s, c, numbers);
              && (forall j :: j in chosen.value ==> j < |c.instances|)
              && (forall j :: j in chosen.value && c.instances[j].mode == Natural ==> h.cloud.instances[j] == Update(c.instances[j]))
              && (forall j :: j in chosen.value ==> (j in h.value <==> Healthy(CodeOf(h.cloud, j))))
  {
    var chosen := SelectInstances(s, c, numbers);
    forall j | j in chosen.value
      ensures j < |c.instances|
    {
      SelectedMember(chosen, j);
    }
  }

  /**
   * The start or stop loop over the healthy part `h` of a selection `chosen`
   * just refreshed from `c`: it leaves alone every instance outside the
   * selection, and every selected instance heading for running or for
   * stopped heads, afterwards, for the loop's goal.
   */
  lemma LoopOnSelection(c: Cloud, chosen: Step<seq<Id>>, h: Step<seq<Id>>, skips: set<int>, a: Action, goal: int)
    requires || (skips == StartSkips && a == DoStart && goal == Running)
             || (skips == StopSkips && a == DoStop && goal == Stopped)
    requires Refreshed(c, h.cloud, []) && h.cloud == chosen.cloud
    requires Valid(h.cloud, h.value) && Subsequence(h.value, chosen.value)
    requires forall j :: j in chosen.value ==> j < |c.instances|
    requires forall j :: j in chosen.value && c.instances[j].mode == Natural ==> h.cloud.instances[j] == Update(c.instances[j])
    requires forall j :: j in chosen.value ==> (j in h.value <==> Healthy(CodeOf(h.cloud, j)))
    ensures Refreshed(c, ActUnless(h.cloud, h.value, skips, a), chosen.value)
    ensures forall j :: j in chosen.value && (HeadsFor(c, j, Running) || HeadsFor(c, j, Stopped)) ==>
              HeadsFor(ActUnless(h.cloud, h.value, skips, a), j, goal)
  {
    var kept := Keep(h.cloud, h.value, skips, true);
    SubsequenceValid(h.cloud, kept, h.value);
    SubsequenceTrans(kept, h.value, chosen.value);
    ActUnlessIsApply(h.cloud, h.value, skips, a);
    forall j | j in chosen.value && (HeadsFor(c, j, Running) || HeadsFor(c, j, Stopped))
      ensures j in kept <==> CodeOf(h.cloud, j) != goal
    {
      KeepMembers(h.cloud, h.value, skips, true, j);
      SkipsAgree(CodeOf(h.cloud, j));
    }
    ActOnSelection(c, h.cloud, chosen.value, kept, a, goal);
  }

  /**
   * The action step of the nested `start` on a selection just refreshed
   * from `c`: the instances outside the selection are left alone, and every
   * selected instance heading for running or for stopped heads, once the
   * loop has run, for running.
   */
  lemma StartStep(s: Settings, c: Cloud, numbers: seq<string>)
    ensures var sel, h := SelectInstances(s, c, numbers).value, HealthyInstances(s, c, numbers);
              && Refreshed(c, ActUnless(h.cloud, h.value, StartSkips, DoStart), sel)
              && forall j :: j in sel && (HeadsFor(c, j, Running) || HeadsFor(c, j, Stopped)) ==>
                   HeadsFor(ActUnless(h.cloud, h.value, StartSkips, DoStart), j, Running)
  {
    var chosen := SelectInstances(s, c, numbers);
    var h := HealthyInstances(s, c, numbers);
    HealthySelection(s, c, numbers);
    LoopOnSelection(c, chosen, h, StartSkips, DoStart, Running);
  }

  /**
   * The action step of the nested `stop` on a selection just refreshed
   * from `c`: the instances outside the selection are left alone, and every
   * selected instance heading for running or for stopped heads, once the
   * loop has run, for stopped.
   */
  lemma StopStep(s: Settings, c: Cloud, numbers: seq<string>)
    ensures var sel, h := SelectInstances(s, c, numbers).value, HealthyInstances(s, c, numbers);
              && Refreshed(c, ActUnless(h.cloud, h.value, StopSkips, DoStop), sel)
              && forall j :: j in sel && (HeadsFor(c, j, Running) || HeadsFor(c, j, Stopped)) ==>
                   HeadsFor(ActUnless(h.cloud, h.value, StopSkips, DoStop), j, Stopped)
  {
    var chosen := SelectInstances(s, c, numbers);
    var h := HealthyInstances(s, c, numbers);
    HealthySelection(s, c, numbers);
    LoopOnSelection(c, chosen, h, StopSkips, DoStop, Stopped);
  }

  /**
   * `start(instance_numbers)`: waits out the selection's stopping instances,
   * starts every healthy selected instance not stopping, running or pending,
   * waits for those (or, when there are none, any pending instance of the
   * project) to run, and reports the selection's status.
   */
  function Start(s: Settings, c: Cloud, numbers: seq<string>): (r: Step<seq<Id>>)
    ensures Grows(c, r.cloud) && |r.cloud.instances| == |c.instances| && TagsKept(c, r.cloud)
    ensures Unscripted(c) ==> Unscripted(r.cloud)
  {
    var c1 := WaitFor(s, c, [], Stopping, Stopped, numbers);
    var h := HealthyInstances(s, c1, numbers);
    var c2 := ActUnless(h.cloud, h.value, StartSkips, DoStart);
    ActUnlessKeeps(h.cloud, h.value, StartSkips, DoStart);
    var c3 := WaitFor(s, c2, h.value, Pending, Running, []);
    Status(s, c3, numbers)
  }

  /**
   * `stop(instance_numbers)`: waits out the selection's pending instances,
   * stops every healthy selected instance not pending, stopping or stopped,
   * waits for those (or any stopping instance of the project) to stop, and
   * reports the selection's status.
   */
  function Stop(s: Settings, c: Cloud, numbers: seq<string>): (r: Step<seq<Id>>)
    ensures Grows(c, r.cloud) && |r.cloud.instances| == |c.instances| && TagsKept(c, r.cloud)
    ensures Unscripted(c) ==> Unscripted(r.cloud)
  {
    var c1 := WaitFor(s, c, [], Pending, Running, numbers);
    var h := HealthyInstances(s, c1, numbers);
    var c2 := ActUnless(h.cloud, h.value, StopSkips, DoStop);
    ActUnlessKeeps(h.cloud, h.value, StopSkips, DoStop);
    var c3 := WaitFor(s, c2, h.value, Stopping, Stopped, []);
    Status(s, c3, numbers)
  }

  /** `reboot(instance_numbers)`: `stop`, then `start`, then the status. */
  function Reboot(s: Settings, c: Cloud, numbers: seq<string>): (r: Step<seq<Id>>)
    ensures Grows(c, r.cloud) && |r.cloud.instances| == |c.instances| && TagsKept(c, r.cloud)
    ensures Unscripted(c) ==> Unscripted(r.cloud)
  {
    var stopped := Stop(s, c, numbers);
    var started := Start(s, stopped.cloud, numbers);
    Status(s, started.cloud, numbers)
  }

  /** A table that kept every instance's tags selects the same instances. */
  lemma SelectionSame(s: Settings, c: Cloud, d: Cloud, numbers: seq<string>)
    requires |d.instances| == |c.instances| && TagsKept(c, d)
    ensures forall j :: 0 <= j < |c.instances| ==> Selected(s, d, j, numbers) == Selected(s, c, j, numbers)
  {
    forall j | 0 <= j < |c.instances|
      ensures Selected(s, d, j, numbers) == Selected(s, c, j, numbers)
    {
      SelectedKept(s, c, d, j, numbers);
    }
  }

  /**
   * The nested operations end by listing the selection again: on a provider
   * without scripts, the selection `sel` taken from `c1` is the final one,
   * every instance of it is refreshed by that listing, and everything
   * refreshed outside it lies outside the final one.
   */
  lemma FinalListing(s: Settings, c: Cloud, c1: Cloud, e: Cloud, sel: Step<seq<Id>>, numbers: seq<string>)
    requires Unscripted(e) && |c1.instances| == |c.instances| == |e.instances| && TagsKept(c, c1) && TagsKept(c, e)
    requires sel == SelectInstances(s, c1, numbers)
    ensures var r := Status(s, e, numbers);
              && (forall j :: j in r.value <==> 0 <= j < |c.instances| && Selected(s, c, j, numbers))
              && (forall j :: j in sel.value ==> j < |e.instances| && r.cloud.instances[j] == Update(e.instances[j]))
              && (forall j :: j in sel.value ==> j in r.value)
              && (forall j :: 0 <= j < |c.instances| && Selected(s, c, j, numbers) ==> j in sel.value)
  {
    var r := Status(s, e, numbers);
    forall j | j in sel.value
      ensures j < |e.instances| && Selected(s, e, j, numbers)
    {
      SelectedMember(sel, j);
      SelectedKept(s, c, c1, j, numbers);
      SelectedKept(s, c, e, j, numbers);
    }
    forall j | j in r.value
      ensures j < |c.instances| && Selected(s, c, j, numbers)
    {
      SelectedMember(r, j);
      SelectedKept(s, c, e, j, numbers);
    }
    forall j | 0 <= j < |c.instances| && Selected(s, c, j, numbers)
      ensures j in sel.value
    {
      SelectedKept(s, c, c1, j, numbers);
    }
  }

  /**
   * On a provider without scripts the nested `start` reports exactly the
   * selection, leaves every other instance as it was or refreshed, and
   * leaves every selected instance that was pending, running, stopping or
   * stopped running.
   */
  lemma StartRuns(s: Settings, c: Cloud, numbers: seq<string>)
    requires Unscripted(c)
    ensures var r := Start(s, c, numbers);
              && (forall j :: j in r.value <==> 0 <= j < |c.instances| && Selected(s, c, j, numbers))
              && Refreshed(c, r.cloud, r.value)
              && forall j :: 0 <= j < |c.instances| && Selected(s, c, j, numbers) && CodeOf(c, j) in Settling ==>
                   CodeOf(r.cloud, j) == Running
  {
    var c1 := WaitFor(s, c, [], Stopping, Stopped, numbers);
    var sel := SelectInstances(s, c1, numbers);
    var h := HealthyInstances(s, c1, numbers);
    var c2 := ActUnless(h.cloud, h.value, StartSkips, DoStart);
    StartStep(s, c1, numbers);
    ActUnlessKeeps(h.cloud, h.value, StartSkips, DoStart);
    var c3 := WaitFor(s, c2, h.value, Pending, Running, []);
    var r := Start(s, c, numbers);
    assert r == Status(s, c3, numbers);
    TagsKeptBack(c, c3, r.cloud);
    FinalListing(s, c, c1, c3, sel, numbers);
    Settles(c, c1, c2, c3, r.cloud, sel.value, Running);
    RefreshedWiden(c, r.cloud, sel.value, r.value);
  }

  /**
   * On a provider without scripts the nested `stop` reports exactly the
   * selection, leaves every other instance as it was or refreshed, and
   * leaves every selected instance that was pending, running, stopping or
   * stopped stopped.
   */
  lemma StopStops(s: Settings, c: Cloud, numbers: seq<string>)
    requires Unscripted(c)
    ensures var r := Stop(s, c, numbers);
              && (forall j :: j in r.value <==> 0 <= j < |c.instances| && Selected(s, c, j, numbers))
              && Refreshed(c, r.cloud, r.value)
              && forall j :: 0 <= j < |c.instances| && Selected(s, c, j, numbers) && CodeOf(c, j) in Settling ==>
                   CodeOf(r.cloud, j) == Stopped
  {
    var c1 := WaitFor(s, c, [], Pending, Running, numbers);
    var sel := SelectInstances(s, c1, numbers);
    var h := HealthyInstances(s, c1, numbers);
    var c2 := ActUnless(h.cloud, h.value, StopSkips, DoStop);
    StopStep(s, c1, numbers);
    ActUnlessKeeps(h.cloud, h.value, StopSkips, DoStop);
    var c3 := WaitFor(s, c2, h.value, Stopping, Stopped, []);
    var r := Stop(s, c, numbers);
    assert r == Status(s, c3, numbers);
    TagsKeptBack(c, c3, r.cloud);
    FinalListing(s, c, c1, c3, sel, numbers);
    Settles(c, c1, c2, c3, r.cloud, sel.value, Stopped);
    RefreshedWiden(c, r.cloud, sel.value, r.value);
  }

  /**
   * The closing status of `reboot`: after a `stop` that left the selection
   * stopped and a `start` that left it running, the status reports the same
   * selection and finds every selected instance that was pending, running,
   * stopping or stopped running.
   */
  lemma RebootStatus(s: Settings, c: Cloud, stopped: Step<seq<Id>>, started: Step<seq<Id>>, numbers: seq<string>)
    requires Unscripted(stopped.cloud) && Unscripted(started.cloud)
    requires TagsKept(c, stopped.cloud) && TagsKept(stopped.cloud, started.cloud)
    requires forall j :: j in stopped.value <==> 0 <= j < |c.instances| && Selected(s, c, j, numbers)
    requires Refreshed(c, stopped.cloud, stopped.value)
    requires forall j :: 0 <= j < |c.instances| && Selected(s, c, j, numbers) && CodeOf(c, j) in Settling ==>
               CodeOf(stopped.cloud, j) == Stopped
    requires forall j :: j in started.value <==> 0 <= j < |stopped.cloud.instances| && Selected(s, stopped.cloud, j, numbers)
    requires Refreshed(stopped.cloud, started.cloud, started.value)
    requires forall j :: 0 <= j < |stopped.cloud.instances| && Selected(s, stopped.cloud, j, numbers) && CodeOf(stopped.cloud, j) in Settling ==>
               CodeOf(started.cloud, j) == Running
    ensures var r := Status(s, started.cloud, numbers);
              && (forall j :: j in r.value <==> 0 <= j < |c.instances| && Selected(s, c, j, numbers))
              && Refreshed(c, r.cloud, r.value)
              && forall j :: 0 <= j < |c.instances| && Selected(s, c, j, numbers) && CodeOf(c, j) in Settling ==>
                   CodeOf(r.cloud, j) == Running
  {
    var m, e := stopped.cloud, started.cloud;
    var r := Status(s, e, numbers);
    SelectionSame(s, c, m, numbers);
    SelectionSame(s, c, e, numbers);
    forall j | j in r.value
      ensures 0 <= j < |c.instances| && Selected(s, c, j, numbers)
    {
      SelectedMember(r, j);
    }
    forall j | j in stopped.value
      ensures j in started.value && j in r.value && Selected(s, m, j, numbers) && Selected(s, e, j, numbers)
    {
    }
    forall j | j in started.value && CodeOf(m, j) in Settling
      ensures CodeOf(e, j) == Running
    {
    }
    SettlesTwiceListed(c, m, e, r.cloud, stopped.value, started.value, r.value);
  }

  /**
   * On a provider without scripts the nested `reboot` reports exactly the
   * selection, leaves every other instance as it was or refreshed, and
   * leaves every selected instance that was pending, running, stopping or
   * stopped running.
   */
  lemma RebootRuns(s: Settings, c: Cloud, numbers: seq<string>)
    requires Unscripted(c)
    ensures var r := Reboot(s, c, numbers);
              && (forall j :: j in r.value <==> 0 <= j < |c.instances| && Selected(s, c, j, numbers))
              && Refreshed(c, r.cloud, r.value)
              && forall j :: 0 <= j < |c.instances| && Selected(s, c, j, numbers) && CodeOf(c, j) in Settling ==>
                   CodeOf(r.cloud, j) == Running
  {
    var stopped := Stop(s, c, numbers);
    StopStops(s, c, numbers);
    var started := Start(s, stopped.cloud, numbers);
    StartRuns(s, stopped.cloud, numbers);
    assert Reboot(s, c, numbers) == Status(s, started.cloud, numbers);
    RebootStatus(s, c, stopped, started, numbers);
  }

  // ---- retiring: terminate and the first half of revert ----

  /** `"terminated" in _get_instance_suffix(instance)`. */
  predicate Retired(c: Cloud, j: Id) {
    Contains(SuffixOf(TagsOf(c, j)), "terminated")
  }

  /**
   * The instance after `_tag_instance(instance, "{n}_terminated")` and
   * `instance.terminate()`.
   */
  function RetiredInst(s: Settings, i: Inst, n: int): (r: Inst)
    ensures "Name" in r.tags && r.tags["Name"] == RetiredName(s.project, n)
    ensures r.mode == i.mode && !Healthy(r.code)
  {
    Act(DoTerminate, i.(tags := i.tags + ProjectTags(s, RetiredSuffix(n))))
  }

  /** A retired instance reads as retired and still decodes, in the nested lineage, to its number. */
  lemma RetiredInstMarked(s: Settings, i: Inst, n: int)
    ensures Contains(SuffixOf(RetiredInst(s, i, n).tags), "terminated")
    ensures Number(Nested, RetiredInst(s, i, n).tags) == Success(n)
  {
    RetiredNameMarked(RetiredInst(s, i, n).tags, s.project, n);
  }

  /** Retiring an instance a second time under the same number changes nothing. */
  lemma RetiredInstIdempotent(s: Settings, i: Inst, n: int)
    ensures RetiredInst(s, RetiredInst(s, i, n), n) == RetiredInst(s, i, n)
  {
    var tags := ProjectTags(s, RetiredSuffix(n));
    assert i.tags + tags + tags == i.tags + tags;
  }

  /** Retiring instance `j` as number `n` in the provider state. */
  function Retire(s: Settings, c: Cloud, j: Id, n: int): (r: Cloud)
    requires j < |c.instances|
    ensures |r.instances| == |c.instances| && r.limit == c.limit && r.script == c.script
    ensures r.instances[j] == RetiredInst(s, c.instances[j], n)
    ensures forall i :: 0 <= i < |c.instances| && i != j ==> r.instances[i] == c.instances[i]
  {
    ActAt(CreateTags(c, j, ProjectTags(s, RetiredSuffix(n))), j, DoTerminate)
  }

  /** What the terminate loop needs of an instance's tags: retired already, or numbered. */
  predicate Passable(tags: Tags) {
    Contains(SuffixOf(tags), "terminated") || Number(Nested, tags).Success?
  }

  /** Every listed instance is retired already or numbered, so the loop gets through the list. */
  predicate AllPassable(c: Cloud, ids: seq<Id>) {
    forall k :: 0 <= k < |ids| ==> Passable(TagsOf(c, ids[k]))
  }

  /**
   * Instance `j` after its turn in the loop: unchanged when it already reads
   * as retired, otherwise retired under its number.
   */
  function AfterTurn(s: Settings, c: Cloud, j: Id): Inst
    requires j < |c.instances|
  {
    if Retired(c, j) then c.instances[j]
    else match Number(Nested, TagsOf(c, j))
      case Success(n) => RetiredInst(s, c.instances[j], n)
      case Failure(_) => c.instances[j]
  }

  /** `d` is `c` with every listed instance after its turn and nothing else changed. */
  predicate RetiredFrom(s: Settings, c: Cloud, ids: seq<Id>, d: Cloud) {
    && |d.instances| == |c.instances| && d.limit == c.limit && d.script == c.script
    && forall j :: 0 <= j < |c.instances| ==> d.instances[j] == if j in ids then AfterTurn(s, c, j) else c.instances[j]
  }

  /**
   * The loop of the nested `terminate`: every listed instance whose suffix
   * does not already say "terminated" is renamed `<n>_terminated` after its
   * number and terminated; an unnumbered one raises `ValueError`. An
   * instance listed twice is retired once: the second time it reads as
   * retired.
   */
  function RetireEach(s: Settings, c: Cloud, ids: seq<Id>): (r: Result<Cloud>)
    requires Valid(c, ids)
    ensures r.Success? <==> AllPassable(c, ids)
    ensures r.Success? ==> RetiredFrom(s, c, ids, r.value)
    decreases |ids|
  {
    if ids == [] then Success(c)
    else
      var j0 := ids[0];
      if !Passable(TagsOf(c, j0)) then
        Failure(Number(Nested, TagsOf(c, j0)).error)
      else
        var c1 := if Retired(c, j0) then c else Retire(s, c, j0, Number(Nested, TagsOf(c, j0)).value);
        RetireStep(s, c, c1, j0);
        ValidTail(c, c1, ids);
        var r := RetireEach(s, c1, ids[1..]);
        PassableJoin(s, c, c1, ids);
        RetiredJoin(s, c, c1, ids, r);
        r
  }

  /** After its turn the instance reads as retired and every other instance is as it was. */
  lemma RetireStep(s: Settings, c: Cloud, c1: Cloud, j: Id)
    requires j < |c.instances| && Passable(TagsOf(c, j))
    requires c1 == if Retired(c, j) then c else Retire(s, c, j, Number(Nested, TagsOf(c, j)).value)
    ensures Retired(c1, j) && RetiredFrom(s, c, [j], c1)
  {
    if !Retired(c, j) {
      RetiredInstMarked(s, c.instances[j], Number(Nested, TagsOf(c, j)).value);
    }
  }

  /** The tail of a list of issued ids is issued in any state of the same size. */
  lemma ValidTail(c: Cloud, d: Cloud, ids: seq<Id>)
    requires Valid(c, ids) && ids != [] && |d.instances| >= |c.instances|
    ensures Valid(d, ids[1..])
  {
    assert forall k :: 0 <= k < |ids| - 1 ==> ids[1..][k] == ids[k + 1];
  }

  /** Only the head changed, and it now reads as retired, so the rest of the list passes as before. */
  lemma PassableJoin(s: Settings, c: Cloud, c1: Cloud, ids: seq<Id>)
    requires Valid(c, ids) && ids != [] && Passable(TagsOf(c, ids[0]))
    requires Retired(c1, ids[0]) && RetiredFrom(s, c, [ids[0]], c1)
    ensures AllPassable(c1, ids[1..]) <==> AllPassable(c, ids)
  {
    assert Passable(TagsOf(c1, ids[0]));
    forall k | 0 <= k < |ids| - 1
      ensures Passable(TagsOf(c1, ids[1..][k])) <==> Passable(TagsOf(c, ids[k + 1]))
    {
      var j := ids[k + 1];
      assert ids[1..][k] == j && j < |c.instances|;
      if j != ids[0] {
        assert j !in [ids[0]];
        assert c1.instances[j] == c.instances[j];
        assert TagsOf(c1, j) == TagsOf(c, j);
      }
    }
    if AllPassable(c1, ids[1..]) {
      forall k | 0 <= k < |ids|
        ensures Passable(TagsOf(c, ids[k]))
      {
        if k > 0 {
          assert Passable(TagsOf(c1, ids[1..][k - 1]));
        }
      }
    }
  }

  /** The rest of the loop, run from the state after the head's turn, completes the whole loop. */
  lemma RetiredJoin(s: Settings, c: Cloud, c1: Cloud, ids: seq<Id>, r: Result<Cloud>)
    requires Valid(c, ids) && ids != []
    requires Retired(c1, ids[0]) && RetiredFrom(s, c, [ids[0]], c1)
    requires r.Success? ==> RetiredFrom(s, c1, ids[1..], r.value)
    ensures r.Success? ==> RetiredFrom(s, c, ids, r.value)
  {
    if r.Success? {
      forall j | 0 <= j < |c.instances|
        ensures r.value.instances[j] == if j in ids then AfterTurn(s, c, j) else c.instances[j]
      {
        assert j in ids <==> j == ids[0] || j in ids[1..];
        if j != ids[0] {
          assert c1.instances[j] == c.instances[j];
        }
      }
    }
  }

  /** A second pass over the same list finds every instance retired and changes nothing. */
  lemma RetireEachIdempotent(s: Settings, c: Cloud, ids: seq<Id>)
    requires Valid(c, ids) && RetireEach(s, c, ids).Success?
    ensures RetireEach(s, RetireEach(s, c, ids).value, ids) == RetireEach(s, c, ids)
  {
    var d := RetireEach(s, c, ids).value;
    forall k | 0 <= k < |ids|
      ensures Retired(d, ids[k])
    {
      var j := ids[k];
      if !Retired(c, j) {
        RetiredInstMarked(s, c.instances[j], Number(Nested, TagsOf(c, j)).value);
      }
    }
    var e := RetireEach(s, d, ids).value;
    assert e.instances == d.instances;
  }

  /**
   * What `terminate` leaves of the instances `h` it was given: each reads as
   * retired; each that did not before now has a number and carries the
   * retired name of that number and, when it follows no script, is no longer
   * healthy; every other instance keeps its tags.
   */
  predicate TerminatedFrom(s: Settings, c: Cloud, h: seq<Id>, d: Cloud) {
    forall j :: 0 <= j < |c.instances| ==>
      && (j in h ==> Retired(d, j))
      && (j in h && !Retired(c, j) ==>
            Number(Nested, TagsOf(c, j)).Success? && Named(d, j, RetiredName(s.project, Number(Nested, TagsOf(c, j)).value)))
      && (j in h && !Retired(c, j) && c.instances[j].mode == Natural ==> !Healthy(CodeOf(d, j)))
      && (j !in h ==> TagsOf(d, j) == TagsOf(c, j))
  }

  /**
   * `terminate(instance_numbers)`: every healthy selected instance not yet
   * retired is renamed `<n>_terminated` and terminated; the wait is on those
   * instances (or, with none, on any shutting-down instance of the project);
   * the status of the selection follows. It raises `ValueError` when one of
   * them has no number.
   */
  function Terminate(s: Settings, c: Cloud, numbers: seq<string>): (r: Result<Step<seq<Id>>>)
    ensures var h := HealthyInstances(s, c, numbers).value;
      r.Success? <==> AllPassable(c, h)
    ensures r.Success? ==> Grows(c, r.value.cloud) && (Unscripted(c) ==> Unscripted(r.value.cloud))
    ensures r.Success? ==> TerminatedFrom(s, c, HealthyInstances(s, c, numbers).value, r.value.cloud)
  {
    TerminateSelected(s, c, HealthyInstances(s, c, numbers), numbers)
  }

  /** `terminate` from the point where the healthy selection `h` is in hand. */
  function TerminateSelected(s: Settings, c: Cloud, h: Step<seq<Id>>, numbers: seq<string>): (r: Result<Step<seq<Id>>>)
    requires Valid(h.cloud, h.value) && Keeps(c, h.cloud) && |h.cloud.instances| == |c.instances|
    ensures r.Success? <==> AllPassable(c, h.value)
    ensures r.Success? ==> Grows(c, r.value.cloud) && (Unscripted(c) ==> Unscripted(r.value.cloud))
    ensures r.Success? ==> TerminatedFrom(s, c, h.value, r.value.cloud)
  {
    AllPassableKept(c, h.cloud, h.value);
    match RetireEach(s, h.cloud, h.value)
    case Failure(e) => Failure(e)
    case Success(c1) =>
      var st := Settle(s, c1, h.value, numbers);
      TerminateFacts(s, c, h, c1, st.cloud);
      Success(st)
  }

  /** The wait for the retired instances to finish shutting down, and the status after it. */
  function Settle(s: Settings, c: Cloud, ids: seq<Id>, numbers: seq<string>): (r: Step<seq<Id>>)
    requires Valid(c, ids)
    ensures Keeps(c, r.cloud) && |r.cloud.instances| == |c.instances|
  {
    var d := WaitFor(s, c, ids, ShuttingDown, Terminated, []);
    var st := Status(s, d, numbers);
    KeepsTrans(c, d, st.cloud);
    st
  }

  /** Whether the loop gets through a list depends only on the tags, which the selection keeps. */
  lemma AllPassableKept(c: Cloud, d: Cloud, ids: seq<Id>)
    requires TagsKept(c, d) && Valid(d, ids) && |d.instances| == |c.instances|
    ensures AllPassable(d, ids) <==> AllPassable(c, ids)
  {
    forall k | 0 <= k < |ids|
      ensures TagsOf(d, ids[k]) == TagsOf(c, ids[k])
    {
    }
  }

  /** What the retirement loop leaves, carried through the waits that follow. */
  lemma TerminateFacts(s: Settings, c: Cloud, h: Step<seq<Id>>, c1: Cloud, d: Cloud)
    requires Valid(h.cloud, h.value) && Keeps(c, h.cloud) && |h.cloud.instances| == |c.instances|
    requires RetireEach(s, h.cloud, h.value) == Success(c1)
    requires Keeps(c1, d) && |d.instances| == |c1.instances|
    ensures Grows(c, d) && (Unscripted(c) ==> Unscripted(d))
    ensures TerminatedFrom(s, c, h.value, d)
  {
    forall j | 0 <= j < |c.instances|
      ensures j in h.value ==> Retired(d, j)
      ensures j in h.value && !Retired(c, j) ==>
        Number(Nested, TagsOf(c, j)).Success? && Named(d, j, RetiredName(s.project, Number(Nested, TagsOf(c, j)).value))
      ensures j in h.value && !Retired(c, j) && c.instances[j].mode == Natural ==> !Healthy(CodeOf(d, j))
      ensures j !in h.value ==> TagsOf(d, j) == TagsOf(c, j)
      ensures c1.instances[j].mode == c.instances[j].mode || c.instances[j].mode != Natural
    {
      assert TagsOf(h.cloud, j) == TagsOf(c, j) && TagsOf(d, j) == TagsOf(c1, j);
      if j in h.value && !Retired(c, j) {
        RetiredInstMarked(s, h.cloud.instances[j], Number(Nested, TagsOf(c, j)).value);
      }
    }
  }

  // ---- revert ----

  /**
   * Instance `j` after `_tag_instance(instance, "{n}_terminated")` and
   * `instance.terminate()` under its own number; an instance without a
   * number is left as it is (the loop raises before touching it).
   */
  function Renamed(s: Settings, c: Cloud, j: Id): Inst
    requires j < |c.instances|
  {
    match Number(Nested, TagsOf(c, j))
    case Success(n) => RetiredInst(s, c.instances[j], n)
    case Failure(_) => c.instances[j]
  }

  /** `d` is `c` with every listed instance renamed and terminated, and nothing else changed. */
  predicate RenamedFrom(s: Settings, c: Cloud, ids: seq<Id>, d: Cloud) {
    && |d.instances| == |c.instances| && d.limit == c.limit && d.script == c.script
    && forall j :: 0 <= j < |c.instances| ==> d.instances[j] == if j in ids then Renamed(s, c, j) else c.instances[j]
  }

  /** Every instance of `c` decodes, in `d`, to the number it decodes to in `c`. */
  predicate SameNumbers(c: Cloud, d: Cloud) {
    forall j :: 0 <= j < |c.instances| ==> Number(Nested, TagsOf(d, j)) == Number(Nested, TagsOf(c, j))
  }

  /** States that decode every instance alike collect the same numbers for any list. */
  lemma SameNumbersCollect(c: Cloud, d: Cloud, ids: seq<Id>)
    requires Valid(c, ids) && SameNumbers(c, d)
    ensures Numbers(Nested, d, ids) == Numbers(Nested, c, ids)
  {
    forall k | 0 <= k < |ids|
      ensures NumberOf(Nested, d)(ids[k]) == NumberOf(Nested, c)(ids[k])
    {
    }
    EachAgree(NumberOf(Nested, d), NumberOf(Nested, c), ids);
  }

  /**
   * The first loop of the batch `revert`: each instance's number is read and
   * kept, and the instance renamed `<n>_terminated` and terminated, in list
   * order; an instance without a number raises `ValueError` there. Unlike
   * `terminate`, it does not skip an instance already marked: that one is
   * renamed again under the number it still decodes to.
   */
  function RetireAll(s: Settings, c: Cloud, ids: seq<Id>): (r: Result<Step<seq<int>>>)
    requires Valid(c, ids)
    ensures r.Success? <==> Numbers(Nested, c, ids).Success?
    ensures r.Success? ==> r.value.value == Numbers(Nested, c, ids).value && RenamedFrom(s, c, ids, r.value.cloud)
    decreases |ids|
  {
    if ids == [] then Success(Step(c, []))
    else
      EachSplit(NumberOf(Nested, c), ids);
      match Number(Nested, TagsOf(c, ids[0]))
      case Failure(e) => Failure(e)
      case Success(n) =>
        var c1 := Retire(s, c, ids[0], n);
        RenameStep(s, c, ids[0], n);
        ValidTail(c, c1, ids);
        SameNumbersCollect(c, c1, ids[1..]);
        var rest := RetireAll(s, c1, ids[1..]);
        RenamedJoin(s, c, c1, ids, rest);
        match rest
        case Failure(e) => Failure(e)
        case Success(st) => Success(Step(st.cloud, [n] + st.value))
  }

  /** Renaming one instance under its number renames it alone and changes no instance's number. */
  lemma RenameStep(s: Settings, c: Cloud, j: Id, n: int)
    requires j < |c.instances| && Number(Nested, TagsOf(c, j)) == Success(n)
    ensures RenamedFrom(s, c, [j], Retire(s, c, j, n)) && SameNumbers(c, Retire(s, c, j, n))
  {
    RetireRenames(s, c, j, n);
    RenameKeepsNumbers(s, c, j, n);
  }

  /** Retiring one numbered instance is the renaming loop over that instance alone. */
  lemma RetireRenames(s: Settings, c: Cloud, j: Id, n: int)
    requires j < |c.instances| && Number(Nested, TagsOf(c, j)) == Success(n)
    ensures RenamedFrom(s, c, [j], Retire(s, c, j, n))
  {
    var d := Retire(s, c, j, n);
    assert d.instances[j] == Renamed(s, c, j);
    RenamedFromOne(s, c, j, d);
  }

  /** Changing instance `j` alone, to its renamed form, is the renaming loop over `[j]`. */
  lemma RenamedFromOne(s: Settings, c: Cloud, j: Id, d: Cloud)
    requires j < |c.instances| && |d.instances| == |c.instances| && d.limit == c.limit && d.script == c.script
    requires d.instances[j] == Renamed(s, c, j)
    requires forall i :: 0 <= i < |c.instances| && i != j ==> d.instances[i] == c.instances[i]
    ensures RenamedFrom(s, c, [j], d)
  {
    forall i | 0 <= i < |c.instances|
      ensures d.instances[i] == if i in [j] then Renamed(s, c, i) else c.instances[i]
    {
      if i != j {
        assert i !in [j];
      }
    }
  }

  /** The renamed instance still decodes to its number; no other instance changed. */
  lemma RenameKeepsNumbers(s: Settings, c: Cloud, j: Id, n: int)
    requires j < |c.instances| && Number(Nested, TagsOf(c, j)) == Success(n)
    ensures SameNumbers(c, Retire(s, c, j, n))
  {
    var d := Retire(s, c, j, n);
    RetiredInstMarked(s, c.instances[j], n);
    assert TagsOf(d, j) == RetiredInst(s, c.instances[j], n).tags;
    forall i | 0 <= i < |c.instances| && i != j
      ensures TagsOf(d, i) == TagsOf(c, i)
    {
      assert d.instances[i] == c.instances[i];
    }
  }

  /** Renaming an instance that was just renamed changes nothing, since it keeps its number. */
  lemma RenamedTwice(s: Settings, c: Cloud, c1: Cloud, j: Id)
    requires j < |c.instances| && |c1.instances| == |c.instances| && c1.instances[j] == Renamed(s, c, j)
    requires Number(Nested, TagsOf(c1, j)) == Number(Nested, TagsOf(c, j))
    ensures Renamed(s, c1, j) == Renamed(s, c, j)
  {
    match Number(Nested, TagsOf(c, j))
    case Success(n) => RetiredInstIdempotent(s, c.instances[j], n);
    case Failure(_) =>
  }

  /** Renaming the head and then the rest renames the whole list. */
  lemma RenamedJoin(s: Settings, c: Cloud, c1: Cloud, ids: seq<Id>, r: Result<Step<seq<int>>>)
    requires Valid(c, ids) && ids != []
    requires RenamedFrom(s, c, [ids[0]], c1) && SameNumbers(c, c1)
    requires r.Success? ==> RenamedFrom(s, c1, ids[1..], r.value.cloud)
    ensures r.Success? ==> RenamedFrom(s, c, ids, r.value.cloud)
  {
    if r.Success? {
      forall j | 0 <= j < |c.instances|
        ensures r.value.cloud.instances[j] == if j in ids then Renamed(s, c, j) else c.instances[j]
      {
        assert j in ids <==> j == ids[0] || j in ids[1..];
        if j == ids[0] {
          RenamedTwice(s, c, c1, j);
        } else {
          assert c1.instances[j] == c.instances[j];
        }
      }
    }
  }

  /**
   * What a revert leaves of the instances `ids` in `d`, `numbers` being their
   * numbers: each carries the retired name of its number and, when it
   * follows no script, is no longer healthy; every other instance of `c`
   * keeps its tags and, when scriptless, its health.
   */
  predicate Retiring(s: Settings, c: Cloud, ids: seq<Id>, d: Cloud, numbers: seq<int>) {
    && Grows(c, d) && (Unscripted(c) ==> Unscripted(d))
    && Valid(c, ids) && |numbers| == |ids|
    && (forall k :: 0 <= k < |ids| ==> Named(d, ids[k], RetiredName(s.project, numbers[k])))
    && (forall k :: 0 <= k < |ids| && c.instances[ids[k]].mode == Natural ==>
          d.instances[ids[k]].mode == Natural && !Healthy(d.instances[ids[k]].code))
    && OthersKept(c, d, ids) && HealthKept(c, d, ids)
  }

  /** Every instance of `c` outside `ids` keeps its tags in `d`. */
  predicate OthersKept(c: Cloud, d: Cloud, ids: seq<Id>) {
    forall j :: 0 <= j < |c.instances| && j !in ids ==> TagsOf(d, j) == TagsOf(c, j)
  }

  /** Keeping the others of the head, then of the rest, keeps the others of the whole list. */
  lemma OthersKeptSplit(c: Cloud, d: Cloud, e: Cloud, ids: seq<Id>)
    requires ids != [] && |d.instances| >= |c.instances|
    requires OthersKept(c, d, [ids[0]]) && OthersKept(d, e, ids[1..])
    ensures OthersKept(c, e, ids)
  {
    forall j | 0 <= j < |c.instances| && j !in ids
      ensures TagsOf(e, j) == TagsOf(c, j)
    {
      assert j !in [ids[0]] && j !in ids[1..];
    }
  }

  /** Keeping the health of the others of the head, then of the rest, keeps it for the whole list. */
  lemma HealthKeptSplit(c: Cloud, d: Cloud, e: Cloud, ids: seq<Id>)
    requires ids != [] && HealthKept(c, d, [ids[0]]) && HealthKept(d, e, ids[1..])
    ensures HealthKept(c, e, ids)
  {
    forall j | 0 <= j < |c.instances| && j !in ids && c.instances[j].mode == Natural
      ensures e.instances[j].mode == Natural && Healthy(e.instances[j].code) == Healthy(c.instances[j].code)
    {
      assert j !in [ids[0]] && j !in ids[1..];
    }
  }

  /** The renaming loop leaves the listed instances retiring under the numbers it read. */
  lemma RenamedRetiring(s: Settings, c: Cloud, ids: seq<Id>, d: Cloud)
    requires Valid(c, ids) && RenamedFrom(s, c, ids, d) && Numbers(Nested, c, ids).Success?
    ensures Retiring(s, c, ids, d, Numbers(Nested, c, ids).value)
  {
    RenamedByNumber(s, c, ids, d);
    RenamedAsRetiring(s, c, ids, d, Numbers(Nested, c, ids).value);
  }

  /** `d` is `c` with the `k`-th listed instance retired under `numbers[k]` and nothing else changed. */
  predicate RenamedAs(s: Settings, c: Cloud, ids: seq<Id>, d: Cloud, numbers: seq<int>) {
    && |d.instances| == |c.instances| && d.limit == c.limit && d.script == c.script
    && Valid(c, ids) && |numbers| == |ids|
    && (forall k :: 0 <= k < |ids| ==> d.instances[ids[k]] == RetiredInst(s, c.instances[ids[k]], numbers[k]))
    && (forall j :: 0 <= j < |c.instances| && j !in ids ==> d.instances[j] == c.instances[j])
  }

  /** Renaming a list that decodes retires each listed instance under its own number. */
  lemma RenamedByNumber(s: Settings, c: Cloud, ids: seq<Id>, d: Cloud)
    requires Valid(c, ids) && RenamedFrom(s, c, ids, d) && Numbers(Nested, c, ids).Success?
    ensures RenamedAs(s, c, ids, d, Numbers(Nested, c, ids).value)
  {
    var numbers := Numbers(Nested, c, ids).value;
    forall k | 0 <= k < |ids|
      ensures d.instances[ids[k]] == RetiredInst(s, c.instances[ids[k]], numbers[k])
    {
      assert NumberOf(Nested, c)(ids[k]) == Success(numbers[k]);
    }
  }

  /** Instances retired under their numbers, with nothing else changed, are retiring. */
  lemma RenamedAsRetiring(s: Settings, c: Cloud, ids: seq<Id>, d: Cloud, numbers: seq<int>)
    requires RenamedAs(s, c, ids, d, numbers)
    ensures Retiring(s, c, ids, d, numbers)
  {
    forall j | 0 <= j < |c.instances|
      ensures d.instances[j].mode == c.instances[j].mode
    {
      if j in ids {
        var k :| 0 <= k < |ids| && ids[k] == j;
        assert d.instances[ids[k]] == RetiredInst(s, c.instances[ids[k]], numbers[k]);
      }
    }
  }

  /** A call that keeps everything keeps a retirement. */
  lemma RetiringKept(s: Settings, c: Cloud, ids: seq<Id>, d: Cloud, e: Cloud, numbers: seq<int>)
    requires Retiring(s, c, ids, d, numbers) && Keeps(d, e)
    ensures Retiring(s, c, ids, e, numbers)
  {
    forall k | 0 <= k < |ids|
      ensures TagsOf(e, ids[k]) == TagsOf(d, ids[k])
    {
    }
  }

  /** A retiring instance decodes to the number it had, so no instance's number changes. */
  lemma RetiringSameNumbers(s: Settings, c: Cloud, ids: seq<Id>, d: Cloud, numbers: seq<int>)
    requires Retiring(s, c, ids, d, numbers) && Numbers(Nested, c, ids) == Success(numbers)
    ensures SameNumbers(c, d)
  {
    forall j | 0 <= j < |c.instances|
      ensures Number(Nested, TagsOf(d, j)) == Number(Nested, TagsOf(c, j))
    {
      if j in ids {
        var k :| 0 <= k < |ids| && ids[k] == j;
        assert NumberOf(Nested, c)(ids[k]) == Success(numbers[k]);
        RetiredNameMarked(TagsOf(d, j), s.project, numbers[k]);
      }
    }
  }

  /** What a revert returns: the state, the replacements, and the numbers they were given. */
  datatype Replaced = Replaced(cloud: Cloud, added: seq<Id>, numbers: seq<int>)

  /**
   * `r` replaces `ids`: their numbers are `r.numbers`, they are retiring
   * under those numbers, and the new instances `r.added`, issued after
   * every instance of `c`, carry the same numbers position by position.
   */
  predicate Replaces(s: Settings, c: Cloud, ids: seq<Id>, r: Replaced) {
    && Numbers(Nested, c, ids) == Success(r.numbers)
    && Retiring(s, c, ids, r.cloud, r.numbers)
    && Adds(s, c, r)
  }

  /** The new instances `r.added` are issued after every instance of `c` and carry `r.numbers`. */
  predicate Adds(s: Settings, c: Cloud, r: Replaced) {
    && Valid(r.cloud, r.added) && (forall k :: 0 <= k < |r.added| ==> r.added[k] >= |c.instances|)
    && Carries(s, r.cloud, r.added, r.numbers)
  }

  /**
   * The second half of both forms of `revert`: when there are numbers,
   * `_reserve(n, n)`, each new instance tagged with its number, then the
   * wait for them to go from pending to running.
   */
  function ReplaceAfter(s: Settings, c: Cloud, ids: seq<Id>, d: Cloud, numbers: seq<int>): (r: Result<Replaced>)
    requires Numbers(Nested, c, ids) == Success(numbers) && Retiring(s, c, ids, d, numbers)
    ensures r.Success? ==> Replaces(s, c, ids, r.value)
  {
    if numbers == [] then Success(Replaced(d, [], []))
    else
      var made :- ReserveTagged(s, d, numbers);
      var e := WaitTransition(Nested, made.cloud, made.value, Some(Pending), Some(Running), s.tries).world;
      ReplaceFacts(s, c, ids, d, made, e, numbers);
      Success(Replaced(e, made.value, numbers))
  }

  /** The reservation and the wait keep the retirement, and the replacements keep their names. */
  lemma ReplaceFacts(s: Settings, c: Cloud, ids: seq<Id>, d: Cloud, made: Step<seq<Id>>, e: Cloud, numbers: seq<int>)
    requires Retiring(s, c, ids, d, numbers)
    requires Keeps(d, made.cloud) && Valid(made.cloud, made.value)
    requires forall k :: 0 <= k < |made.value| ==> made.value[k] >= |d.instances|
    requires Carries(s, made.cloud, made.value, numbers)
    requires Keeps(made.cloud, e)
    ensures Retiring(s, c, ids, e, numbers)
    ensures Valid(e, made.value) && forall k :: 0 <= k < |made.value| ==> made.value[k] >= |c.instances|
    ensures Carries(s, e, made.value, numbers)
  {
    KeepsTrans(d, made.cloud, e);
    RetiringKept(s, c, ids, d, e, numbers);
    CarriesKept(s, made.cloud, e, made.value, numbers);
  }

  /**
   * The batch `revert` over `ids`: the renaming loop, one wait for all of
   * them to finish shutting down, then the replacements.
   */
  function RevertBatch(s: Settings, c: Cloud, ids: seq<Id>): (r: Result<Replaced>)
    requires Valid(c, ids)
    ensures Numbers(Nested, c, ids).Failure? ==> r.Failure?
    ensures r.Success? ==> Replaces(s, c, ids, r.value)
  {
    var retired :- RetireAll(s, c, ids);
    RenamedRetiring(s, c, ids, retired.cloud);
    var d := WaitTransition(Nested, retired.cloud, ids, Some(ShuttingDown), Some(Terminated), s.tries).world;
    RetiringKept(s, c, ids, retired.cloud, d, retired.value);
    ReplaceAfter(s, c, ids, d, retired.value)
  }

  /**
   * The sequential `revert` over `ids`. One turn (rename and terminate the
   * instance, wait for it, `_reserve(1, 1)`, tag the new instance with the
   * number, wait for it) is exactly the batch form over that one instance,
   * so each turn is written as `RevertBatch(s, c, [j])`. The replacements
   * and their numbers are gathered in order.
   */
  function RevertSeq(s: Settings, c: Cloud, ids: seq<Id>): (r: Result<Replaced>)
    requires Valid(c, ids)
    ensures Numbers(Nested, c, ids).Failure? ==> r.Failure?
    ensures r.Success? ==> Replaces(s, c, ids, r.value)
    decreases |ids|, 1
  {
    if ids == [] then
      ReplacesNothing(s, c);
      Success(Replaced(c, [], []))
    else
      NumbersSplit(c, ids);
      match RevertBatch(s, c, [ids[0]])
      case Failure(e) => Failure(e)
      case Success(first) => RevertRest(s, c, ids, first)
  }

  /** An empty list is replaced by nothing, in the same state. */
  lemma ReplacesNothing(s: Settings, c: Cloud)
    ensures Replaces(s, c, [], Replaced(c, [], []))
  {
  }

  /** A list fails to decode only where its head or its rest does. */
  lemma NumbersSplit(c: Cloud, ids: seq<Id>)
    requires ids != []
    ensures Numbers(Nested, c, ids).Failure? ==> Numbers(Nested, c, [ids[0]]).Failure? || Numbers(Nested, c, ids[1..]).Failure?
  {
    EachSplit(NumberOf(Nested, c), ids);
  }

  /** `RevertSeq` once the first instance has been replaced as `first`. */
  function RevertRest(s: Settings, c: Cloud, ids: seq<Id>, first: Replaced): (r: Result<Replaced>)
    requires Valid(c, ids) && ids != [] && Replaces(s, c, [ids[0]], first)
    ensures Numbers(Nested, c, ids[1..]).Failure? ==> r.Failure?
    ensures r.Success? ==> Replaces(s, c, ids, r.value)
    decreases |ids|, 0
  {
    RevertTailNumbers(s, c, ids, first);
    var rest :- RevertSeq(s, first.cloud, ids[1..]);
    RevertJoin(s, c, ids, first, rest);
    Success(Replaced(rest.cloud, first.added + rest.added, first.numbers + rest.numbers))
  }

  /** After the first turn the rest of the list still decodes as it did, and is issued. */
  lemma RevertTailNumbers(s: Settings, c: Cloud, ids: seq<Id>, first: Replaced)
    requires Valid(c, ids) && ids != [] && Replaces(s, c, [ids[0]], first)
    ensures Valid(first.cloud, ids[1..])
    ensures Numbers(Nested, first.cloud, ids[1..]) == Numbers(Nested, c, ids[1..])
  {
    ValidTail(c, first.cloud, ids);
    ValidTail(c, c, ids);
    RetiringSameNumbers(s, c, [ids[0]], first.cloud, first.numbers);
    SameNumbersCollect(c, first.cloud, ids[1..]);
  }

  /** The first turn and the rest together replace the whole list. */
  lemma RevertJoin(s: Settings, c: Cloud, ids: seq<Id>, first: Replaced, rest: Replaced)
    requires Valid(c, ids) && ids != []
    requires Replaces(s, c, [ids[0]], first) && Replaces(s, first.cloud, ids[1..], rest)
    ensures Replaces(s, c, ids, Replaced(rest.cloud, first.added + rest.added, first.numbers + rest.numbers))
  {
    RevertTailNumbers(s, c, ids, first);
    EachSplit(NumberOf(Nested, c), ids);
    JoinRetiring(s, c, first.cloud, rest.cloud, ids, first.numbers, rest.numbers);
    JoinAdded(s, c, ids, first, rest);
  }

  /** Retiring the head and then the rest retires the whole list, each under its own number. */
  lemma JoinRetiring(s: Settings, c: Cloud, d: Cloud, e: Cloud, ids: seq<Id>, x: seq<int>, y: seq<int>)
    requires Valid(c, ids) && ids != []
    requires Retiring(s, c, [ids[0]], d, x) && Retiring(s, d, ids[1..], e, y)
    requires Numbers(Nested, c, ids) == Success(x + y)
    ensures Retiring(s, c, ids, e, x + y)
  {
    var numbers := x + y;
    forall k | 0 <= k < |ids|
      ensures numbers[k] == Number(Nested, TagsOf(c, ids[k])).value
    {
      assert NumberOf(Nested, c)(ids[k]) == Number(Nested, TagsOf(c, ids[k]));
    }
    forall k | 0 <= k < |ids|
      ensures Named(e, ids[k], RetiredName(s.project, numbers[k]))
      ensures c.instances[ids[k]].mode == Natural ==> e.instances[ids[k]].mode == Natural && !Healthy(e.instances[ids[k]].code)
    {
      if k > 0 {
        assert ids[k] == ids[1..][k - 1] && numbers[k] == y[k - 1];
      } else if ids[0] in ids[1..] {
        var m :| 0 <= m < |ids| - 1 && ids[1..][m] == ids[0];
        assert ids[m + 1] == ids[0] && numbers[m + 1] == y[m];
      } else {
        assert TagsOf(e, ids[0]) == TagsOf(d, ids[0]);
      }
    }
    OthersKeptSplit(c, d, e, ids);
    HealthKeptSplit(c, d, e, ids);
  }

  /** The replacements of the first turn keep their names through the rest. */
  lemma JoinAdded(s: Settings, c: Cloud, ids: seq<Id>, first: Replaced, rest: Replaced)
    requires Valid(c, ids) && ids != [] && Grows(c, first.cloud)
    requires Adds(s, c, first) && Retiring(s, first.cloud, ids[1..], rest.cloud, rest.numbers) && Adds(s, first.cloud, rest)
    ensures Adds(s, c, Replaced(rest.cloud, first.added + rest.added, first.numbers + rest.numbers))
  {
    var d, e := first.cloud, rest.cloud;
    var a, x, b, y := first.added, first.numbers, rest.added, rest.numbers;
    ValidTail(c, c, ids);
    AddedKept(s, |c.instances|, d, e, ids[1..], a, x);
    GrowsValid(d, e, a);
    ValidJoin(e, a, b);
    CarriesJoin(s, e, a, b, x, y);
    AboveJoin(a, b, |c.instances|);
  }

  /** Two lists of ids at or above `n` joined stay at or above `n`. */
  lemma AboveJoin(a: seq<Id>, b: seq<Id>, n: int)
    requires forall k :: 0 <= k < |a| ==> a[k] >= n
    requires forall k :: 0 <= k < |b| ==> b[k] >= n
    ensures forall k :: 0 <= k < |a + b| ==> (a + b)[k] >= n
  {
    forall k | 0 <= k < |a + b|
      ensures (a + b)[k] >= n
    {
      if k >= |a| {
        assert (a + b)[k] == b[k - |a|];
      }
    }
  }

  /** Instances added after the first `n` keep their names while only instances below `n` are renamed. */
  lemma AddedKept(s: Settings, n: nat, d: Cloud, e: Cloud, ids: seq<Id>, added: seq<Id>, numbers: seq<int>)
    requires forall k :: 0 <= k < |ids| ==> ids[k] < n
    requires Valid(d, added) && forall k :: 0 <= k < |added| ==> added[k] >= n
    requires OthersKept(d, e, ids) && Carries(s, d, added, numbers)
    ensures Carries(s, e, added, numbers)
  {
    forall k | 0 <= k < |added|
      ensures TagsOf(e, added[k]) == TagsOf(d, added[k])
    {
      assert added[k] !in ids;
    }
  }

  /** `"{}".format(n)` for each number: the suffixes the batch form looks its status up by. */
  function Suffixes(numbers: seq<int>): (r: seq<string>)
    ensures |r| == |numbers| && forall k :: 0 <= k < |numbers| ==> r[k] == IntToString(numbers[k])
  {
    seq(|numbers|, k requires 0 <= k < |numbers| => IntToString(numbers[k]))
  }

  /**
   * Both forms read the same numbers and name everything alike: the
   * replacements carry the same names position by position, and so do the
   * instances they replace.
   */
  lemma RevertModesAgree(s: Settings, c: Cloud, ids: seq<Id>)
    requires Valid(c, ids) && RevertSeq(s, c, ids).Success? && RevertBatch(s, c, ids).Success?
    ensures var one, all := RevertSeq(s, c, ids).value, RevertBatch(s, c, ids).value;
      && one.numbers == all.numbers
      && |one.added| == |all.added| == |ids|
      && (forall k :: 0 <= k < |ids| ==> TagsOf(one.cloud, one.added[k])["Name"] == TagsOf(all.cloud, all.added[k])["Name"])
      && (forall k :: 0 <= k < |ids| ==> TagsOf(one.cloud, ids[k])["Name"] == TagsOf(all.cloud, ids[k])["Name"])
  {
  }

  /**
   * The status the batch form reports after replacing something, looked up
   * by the replacement numbers, lists every replacement and none of the
   * instances they replace, which now carry retired names.
   */
  lemma BatchStatusShowsReplacements(s: Settings, c: Cloud, ids: seq<Id>)
    requires Valid(c, ids) && RevertBatch(s, c, ids).Success?
    ensures var done := RevertBatch(s, c, ids).value;
      var st := Status(s, done.cloud, Suffixes(done.numbers));
      done.numbers != [] ==>
        && (forall k :: 0 <= k < |done.added| ==> done.added[k] in st.value)
        && (forall k :: 0 <= k < |ids| ==> ids[k] !in st.value)
  {
    ReplacedStatus(s, c, ids, RevertBatch(s, c, ids).value);
  }

  /** Looking up a replacement's numbers finds the replacements and not the replaced. */
  lemma ReplacedStatus(s: Settings, c: Cloud, ids: seq<Id>, done: Replaced)
    requires Replaces(s, c, ids, done)
    ensures var st := Status(s, done.cloud, Suffixes(done.numbers));
      done.numbers != [] ==>
        && (forall k :: 0 <= k < |done.added| ==> done.added[k] in st.value)
        && (forall k :: 0 <= k < |ids| ==> ids[k] !in st.value)
  {
    var suffixes := Suffixes(done.numbers);
    if done.numbers != [] {
      forall k | 0 <= k < |done.added|
        ensures NamedAfter(s, done.cloud, done.added[k], suffixes)
      {
        assert Named(done.cloud, done.added[k], NameTag(s.project, suffixes[k]));
      }
      forall k | 0 <= k < |ids|
        ensures !NamedAfter(s, done.cloud, ids[k], suffixes)
      {
        forall i | 0 <= i < |suffixes|
          ensures !Named(done.cloud, ids[k], NameTag(s.project, suffixes[i]))
        {
          LiveNameNotRetired(s.project, done.numbers[i], done.numbers[k]);
        }
      }
    }
  }

  /**
   * `revert(sequential, instance_numbers)`: the healthy selected instances
   * are replaced, one at a time or all at once, and a status follows. The
   * sequential form reports the original selection; the batch form has
   * rebound `instance_numbers` to the numbers it read, so it reports the
   * replacements, or the whole project when there was nothing to replace.
   */
  function Revert(s: Settings, c: Cloud, sequential: bool, numbers: seq<string>): (r: Result<Step<seq<Id>>>)
    ensures var h := HealthyInstances(s, c, numbers).value;
      Numbers(Nested, c, h).Failure? ==> r.Failure?
    ensures r.Success? ==> var h := HealthyInstances(s, c, numbers).value;
      && Numbers(Nested, c, h).Success?
      && Grows(c, r.value.cloud) && (Unscripted(c) ==> Unscripted(r.value.cloud))
      && (forall k :: 0 <= k < |h| ==> Named(r.value.cloud, h[k], RetiredName(s.project, Numbers(Nested, c, h).value[k])))
      && (!sequential ==> forall k :: 0 <= k < |h| ==> h[k] !in r.value.value)
  {
    RevertSelected(s, c, HealthyInstances(s, c, numbers), sequential, numbers)
  }

  /** `revert` from the point where the healthy selection `h` is in hand. */
  function RevertSelected(s: Settings, c: Cloud, h: Step<seq<Id>>, sequential: bool, numbers: seq<string>): (r: Result<Step<seq<Id>>>)
    requires Valid(h.cloud, h.value) && Keeps(c, h.cloud) && |h.cloud.instances| == |c.instances|
    ensures Numbers(Nested, c, h.value).Failure? ==> r.Failure?
    ensures r.Success? ==>
      && Numbers(Nested, c, h.value).Success?
      && Grows(c, r.value.cloud) && (Unscripted(c) ==> Unscripted(r.value.cloud))
      && (forall k :: 0 <= k < |h.value| ==>
            Named(r.value.cloud, h.value[k], RetiredName(s.project, Numbers(Nested, c, h.value).value[k])))
      && (!sequential ==> forall k :: 0 <= k < |h.value| ==> h.value[k] !in r.value.value)
  {
    NumbersKept(Nested, c, h.cloud, h.value);
    var done :- if sequential then RevertSeq(s, h.cloud, h.value) else RevertBatch(s, h.cloud, h.value);
    var st := Status(s, done.cloud, if sequential then numbers else Suffixes(done.numbers));
    RevertFacts(s, c, h, done, st);
    ReplacedStatus(s, h.cloud, h.value, done);
    Success(st)
  }

  /** A revert's retirement, carried through the status that follows it. */
  lemma RevertFacts(s: Settings, c: Cloud, h: Step<seq<Id>>, done: Replaced, st: Step<seq<Id>>)
    requires Keeps(c, h.cloud) && |h.cloud.instances| == |c.instances|
    requires Replaces(s, h.cloud, h.value, done) && Keeps(done.cloud, st.cloud)
    ensures Grows(c, st.cloud) && (Unscripted(c) ==> Unscripted(st.cloud))
    ensures forall k :: 0 <= k < |h.value| ==> Named(st.cloud, h.value[k], RetiredName(s.project, done.numbers[k]))
  {
    forall k | 0 <= k < |h.value|
      ensures TagsOf(st.cloud, h.value[k]) == TagsOf(done.cloud, h.value[k])
    {
    }
  }

  // ---- create ----

  /** Every instance `ids` lists is issued, scriptless, and pending or running. */
  predicate AllLive(c: Cloud, ids: seq<Id>) {
    Valid(c, ids) && forall k :: 0 <= k < |ids| ==> Live(c.instances[ids[k]])
  }

  /**
   * The surplus branch of `create`: `healthy.pop().terminate()` once for each
   * instance over `max`, the last one first, then the wait for shutting-down
   * instances. The order of the terminations changes nothing, as each acts on
   * a different instance. Popping more than the list holds raises `IndexError`.
   */
  function PopSurplus(s: Settings, c: Cloud, healthy: seq<Id>, popped: nat): (r: Result<Cloud>)
    requires Valid(c, healthy)
    ensures r.Failure? <==> popped > |healthy|
    ensures r.Failure? ==> r.error == IndexError
    ensures r.Success? ==> Retires(c, r.value, healthy[|healthy| - popped..]) && |r.value.instances| == |c.instances|
  {
    if popped > |healthy| then Failure(IndexError)
    else if popped == 0 then
      ApplyKeepsHealth(c, [], DoUpdate);
      Success(c)
    else
      var surplus := healthy[|healthy| - popped..];
      var t := Apply(c, surplus, DoTerminate);
      ApplyRetires(c, surplus);
      var w := WaitFor(s, t, [], ShuttingDown, Terminated, []);
      RetiresThenKeeps(c, t, w, surplus);
      Success(w)
  }

  /**
   * `instance.reboot()` for every kept instance: with the mock provider's
   * `reboot` being `start`, every healthy scriptless one ends up pending or
   * running.
   */
  lemma RebootLive(c: Cloud, ids: seq<Id>)
    requires Valid(c, ids)
    requires forall k :: 0 <= k < |ids| ==> c.instances[ids[k]].mode == Natural && Healthy(CodeOf(c, ids[k]))
    ensures AllLive(Apply(c, ids, DoReboot), ids)
  {
    var d := Apply(c, ids, DoReboot);
    forall k | 0 <= k < |ids|
      ensures Live(d.instances[ids[k]])
    {
      var j := ids[k];
      assert j in ids;
      ApplyEffect(c, ids, DoReboot, j);
      RebootMakesLive(c.instances[j]);
    }
  }

  /** Rebooting a healthy scriptless instance leaves it pending or running. */
  lemma RebootMakesLive(i: Inst)
    requires i.mode == Natural && Healthy(i.code)
    ensures Live(Act(DoReboot, i))
  {
  }

  /**
   * `r` lists `kept` followed by new instances, issued one after another
   * after everything in `c`, and pending.
   */
  predicate Extended(c: Cloud, kept: seq<Id>, r: Step<seq<Id>>) {
    && |kept| <= |r.value| && r.value[..|kept|] == kept
    && forall k :: |kept| <= k < |r.value| ==>
         r.value[k] == |c.instances| + (k - |kept|) < |r.cloud.instances| && CodeOf(r.cloud, r.value[k]) == Pending
  }

  /**
   * The reservation branch of `create`: with a range asked for, the new
   * instances, numbered on from the largest number in use, are appended to
   * the kept list; without one the list stays as it is.
   */
  function Supply(s: Settings, c: Cloud, kept: seq<Id>, request: Option<(int, int)>): (r: Result<Step<seq<Id>>>)
    ensures request.None? ==> r == Success(Step(c, kept))
    ensures r.Success? ==> Keeps(c, r.value.cloud) && LiveKept(c, r.value.cloud) && Extended(c, kept, r.value)
    ensures r.Success? && request.Some? && request.value.0 >= 1 && request.value.1 >= 1 ==>
      request.value.0 <= |r.value.value| - |kept| <= request.value.1
  {
    match request
    case None => Success(Step(c, kept))
    case Some((lo, hi)) =>
      var made :- CreateExtra(Nested, s, c, lo, hi);
      ProvidedExtends(s, c, kept, made, lo, hi);
      Success(Step(made.cloud, kept + made.value))
  }

  lemma ProvidedExtends(s: Settings, c: Cloud, kept: seq<Id>, made: Step<seq<Id>>, lo: int, hi: int)
    requires Provided(s, c, made, lo, hi)
    ensures Extended(c, kept, Step(made.cloud, kept + made.value))
  {
    var r := kept + made.value;
    assert r[..|kept|] == kept;
    forall k | |kept| <= k < |r|
      ensures r[k] == made.value[k - |kept|]
    {
    }
  }

  /** A list extended by new instances is still of issued instances without repetitions. */
  lemma ExtendedDistinct(c: Cloud, kept: seq<Id>, r: Step<seq<Id>>)
    requires Valid(c, kept) && Distinct(kept) && Extended(c, kept, r) && Grows(c, r.cloud)
    ensures Valid(r.cloud, r.value) && Distinct(r.value)
  {
    var tail := r.value[|kept|..];
    assert r.value == kept + tail;
    forall k | 0 <= k < |tail|
      ensures tail[k] == |c.instances| + k < |r.cloud.instances|
    {
      assert tail[k] == r.value[|kept| + k];
    }
    DistinctJoin(kept, tail);
  }

  /** A list of live instances extended by new ones is live, with no scripts. */
  lemma ExtendedLive(c: Cloud, kept: seq<Id>, r: Step<seq<Id>>)
    requires AllLive(c, kept) && Extended(c, kept, r) && LiveKept(c, r.cloud) && Unscripted(r.cloud)
    ensures AllLive(r.cloud, r.value)
  {
    forall k | 0 <= k < |r.value|
      ensures r.value[k] < |r.cloud.instances| && Live(r.cloud.instances[r.value[k]])
    {
      if k < |kept| {
        assert r.value[k] == r.value[..|kept|][k];
      }
    }
  }

  /** A list of healthy instances without repetitions. */
  predicate HealthyList(h: Step<seq<Id>>) {
    && Valid(h.cloud, h.value) && Distinct(h.value)
    && forall k :: 0 <= k < |h.value| ==> Healthy(CodeOf(h.cloud, h.value[k]))
  }

  /**
   * Everything `create` does before its final wait: the waits for
   * shutting-down and stopping instances and the healthy list, then `Fit`.
   * Its value is the list the final wait is over.
   */
  function Prepare(s: Settings, c: Cloud): (r: Result<Step<seq<Id>>>)
    ensures s.maxCount < 0 ==> r == Failure(IndexError)
    ensures r.Success? ==> Valid(r.value.cloud, r.value.value) && Distinct(r.value.value)
    ensures r.Success? && 0 < s.minCount <= s.maxCount ==> s.minCount <= |r.value.value| <= s.maxCount
    ensures r.Success? && Unscripted(c) ==> AllLive(r.value.cloud, r.value.value)
  {
    var c1 := WaitFor(s, c, [], ShuttingDown, Terminated, []);
    var c2 := WaitFor(s, c1, [], Stopping, Stopped, []);
    var h := HealthyInstances(s, c2, []);
    KeepsTrans(c, c1, c2);
    KeepsTrans(c, c2, h.cloud);
    Fit(s, h)
  }

  /**
   * The reconciliation of `create` over the healthy list: the surplus over
   * `max` popped off the end and terminated, every kept instance rebooted,
   * and any shortfall reserved and appended.
   */
  function Fit(s: Settings, h: Step<seq<Id>>): (r: Result<Step<seq<Id>>>)
    requires HealthyList(h)
    ensures s.maxCount < 0 ==> r == Failure(IndexError)
    ensures 0 <= s.maxCount <= |h.value| ==> r.Success? && r.value.value == h.value[..s.maxCount]
    ensures r.Success? && |h.value| <= s.maxCount ==> |h.value| <= |r.value.value| && r.value.value[..|h.value|] == h.value
    ensures r.Success? && 0 < s.minCount <= s.maxCount ==> s.minCount <= |r.value.value| <= s.maxCount
    ensures r.Success? ==> Valid(r.value.cloud, r.value.value) && Distinct(r.value.value)
    ensures r.Success? && Unscripted(h.cloud) ==> AllLive(r.value.cloud, r.value.value)
  {
    var need := Reconcile.NestedNeed(|h.value|, s.minCount, s.maxCount);
    var k :- Shed(s, h, need.popped);
    Refill(s, k, Reconcile.NestedRequest(need))
  }

  /**
   * `PopSurplus` over a healthy list, with the prefix it keeps: issued,
   * without repetitions, and made live by a reboot when nothing follows a
   * script.
   */
  function Shed(s: Settings, h: Step<seq<Id>>, popped: nat): (r: Result<Step<seq<Id>>>)
    requires HealthyList(h)
    ensures r.Failure? <==> popped > |h.value|
    ensures r.Failure? ==> r.error == IndexError
    ensures r.Success? ==> r.value.value == h.value[..|h.value| - popped]
    ensures r.Success? ==> Valid(r.value.cloud, r.value.value) && Distinct(r.value.value)
    ensures r.Success? && Unscripted(h.cloud) ==> LiveOnReboot(r.value)
  {
    var c3 :- PopSurplus(s, h.cloud, h.value, popped);
    KeptFacts(h, popped, c3);
    Success(Step(c3, h.value[..|h.value| - popped]))
  }

  /** Nothing follows a script, and rebooting the listed instances leaves every one of them live. */
  predicate LiveOnReboot(k: Step<seq<Id>>) {
    Unscripted(k.cloud) && Valid(k.cloud, k.value) && AllLive(Apply(k.cloud, k.value, DoReboot), k.value)
  }

  /** The kept instances rebooted, then `Supply`. */
  function Refill(s: Settings, k: Step<seq<Id>>, request: Option<(int, int)>): (r: Result<Step<seq<Id>>>)
    requires Valid(k.cloud, k.value) && Distinct(k.value)
    ensures request.None? ==> r.Success? && r.value.value == k.value
    ensures r.Success? ==> |k.value| <= |r.value.value| && r.value.value[..|k.value|] == k.value
    ensures r.Success? && request.Some? && request.value.0 >= 1 && request.value.1 >= 1 ==>
      request.value.0 <= |r.value.value| - |k.value| <= request.value.1
    ensures r.Success? ==> Valid(r.value.cloud, r.value.value) && Distinct(r.value.value)
    ensures r.Success? && LiveOnReboot(k) ==> AllLive(r.value.cloud, r.value.value)
  {
    var c4 := Apply(k.cloud, k.value, DoReboot);
    ApplyKeepsHealth(k.cloud, k.value, DoReboot);
    var r :- Supply(s, c4, k.value, request);
    ExtendedDistinct(c4, k.value, r);
    if LiveOnReboot(k) then
      ExtendedLive(c4, k.value, r);
      Success(r)
    else Success(r)
  }

  /** The kept prefix of the healthy list is, after the surplus is gone, still healthy, and live once rebooted. */
  lemma KeptFacts(h: Step<seq<Id>>, popped: nat, c3: Cloud)
    requires HealthyList(h) && popped <= |h.value|
    requires Retires(h.cloud, c3, h.value[|h.value| - popped..]) && |c3.instances| == |h.cloud.instances|
    ensures var kept := h.value[..|h.value| - popped];
      && Valid(c3, kept) && Distinct(kept)
      && (Unscripted(h.cloud) ==> AllLive(Apply(c3, kept, DoReboot), kept))
  {
    var n := |h.value| - popped;
    var kept := h.value[..n];
    DistinctSplit(h.value, n);
    if Unscripted(h.cloud) {
      forall k | 0 <= k < |kept|
        ensures c3.instances[kept[k]].mode == Natural && Healthy(CodeOf(c3, kept[k]))
      {
        assert kept[k] in kept;
        assert kept[k] == h.value[k];
      }
      RebootLive(c3, kept);
    }
  }

  /**
   * `create()`: after `Prepare`, a wait for running over the list that gives
   * up silently, the running count it logs, and the project's status.
   */
  function Create(s: Settings, c: Cloud): (r: Result<Step<Created>>)
    ensures r.Failure? <==> Prepare(s, c).Failure?
    ensures r.Failure? ==> r.error == Prepare(s, c).error
  {
    var p :- Prepare(s, c);
    var w := WaitTransition(Nested, p.cloud, p.value, None, Some(Running), s.tries);
    var running := InState(s, w.world, Running, []);
    var st := Status(s, running.cloud, []);
    Success(Step(st.cloud, Created(st.value, |running.value|, !w.cleared, w.sleeps)))
  }

  /**
   * Unlike the top-level lineage, the nested `create` waits only on the
   * instances it kept or made: with no scripts and a budget of at least one
   * round, its wait for running clears at once and never sleeps.
   */
  lemma CreateClears(s: Settings, c: Cloud)
    requires Unscripted(c) && s.tries >= 1 && Prepare(s, c).Success?
    ensures var r := Create(s, c);
      r.Success? && !r.value.value.timedOut && r.value.value.sleeps == 0
  {
    var p := Prepare(s, c).value;
    WaitClearsAtOnce(Nested, p.cloud, p.value, s.tries);
  }

  /** A negative `max` makes `create` pop from an empty list. */
  lemma CreateNegativeMax(s: Settings, c: Cloud)
    requires s.maxCount < 0
    ensures Create(s, c) == Failure(IndexError)
  {
  }
}
