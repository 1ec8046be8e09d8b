/**
 * The identity scheme: an instance's project number lives in its "Name" tag as
 * `wolphin.<project>.<n>`, or `wolphin.<project>.<n>_terminated` once retired.
 * The two code lineages decode it differently, so the lineage is a parameter.
 */
module Identity {

  import opened Wrappers
  import opened Text

  type Tags = map<string, string>

  /** The top-level package (`wolphin/project.py`) or the nested one (`wolphin/wolphin/project.py`). */
  datatype Lineage = TopLevel | Nested

  /** The value of the "Name" tag for a number suffix (`_tag_instance`). */
  function NameTag(project: string, suffix: string): string {
    "wolphin." + project + "." + suffix
  }

  /** The "ProjectName" tag every instance of the project carries. */
  function ProjectTag(project: string): string {
    "wolphin." + project
  }

  /** The suffix that marks a number as retired. */
  function RetiredSuffix(n: int): string {
    IntToString(n) + "_terminated"
  }

  function LiveName(project: string, n: int): string {
    NameTag(project, IntToString(n))
  }

  function RetiredName(project: string, n: int): string {
    NameTag(project, RetiredSuffix(n))
  }

  /** `str(instance.tags.get("Name"))`: a missing tag reads as the text "None". */
  function NameOf(tags: Tags): string {
    if "Name" in tags then tags["Name"] else "None"
  }

  /** The last `.`-separated segment of the name (`_get_instance_suffix`). */
  function SuffixOf(tags: Tags): string {
    LastPart(NameOf(tags), '.')
  }

  /**
   * The instance number as each lineage decodes it: the top-level one parses the
   * whole last segment, the nested one only what precedes its first `_`.
   */
  function Number(lineage: Lineage, tags: Tags): Result<int> {
    match lineage
    case TopLevel => ParseInt(SuffixOf(tags))
    case Nested => ParseInt(FirstPart(SuffixOf(tags), '_'))
  }

  /** The segment after the last dot of a written name is the suffix that was written. */
  lemma SuffixOfNameTag(tags: Tags, project: string, suffix: string)
    requires "Name" in tags && tags["Name"] == NameTag(project, suffix)
    requires '.' !in suffix
    ensures SuffixOf(tags) == suffix
  {
    assert NameTag(project, suffix) == ("wolphin." + project) + ['.'] + suffix;
    SplitThenLast("wolphin." + project, '.', suffix);
  }

  /** Both lineages decode a live name back to the number it was written with. */
  lemma LiveNameRoundTrip(lineage: Lineage, tags: Tags, project: string, n: int)
    requires "Name" in tags && tags["Name"] == LiveName(project, n)
    ensures Number(lineage, tags) == Success(n)
  {
    IntToStringPlain(n);
    SuffixOfNameTag(tags, project, IntToString(n));
    SplitWhole(IntToString(n), '_');
    IntRoundTrip(n);
  }

  /** The nested lineage strips `_terminated` and decodes a retired name to its old number. */
  lemma RetiredNameRoundTripNested(tags: Tags, project: string, n: int)
    requires "Name" in tags && tags["Name"] == RetiredName(project, n)
    ensures Number(Nested, tags) == Success(n)
  {
    RetiredSuffixOf(tags, project, n);
    RetiredSuffixNumber(n);
  }

  /** The last segment of a retired name is the retired suffix. */
  lemma RetiredSuffixOf(tags: Tags, project: string, n: int)
    requires "Name" in tags && tags["Name"] == RetiredName(project, n)
    ensures SuffixOf(tags) == RetiredSuffix(n)
  {
    IntToStringPlain(n);
    assert '.' !in RetiredSuffix(n);
    SuffixOfNameTag(tags, project, RetiredSuffix(n));
  }

  /** What precedes the first `_` of a retired suffix parses back to the number. */
  lemma RetiredSuffixNumber(n: int)
    ensures ParseInt(FirstPart(RetiredSuffix(n), '_')) == Success(n)
  {
    IntToStringPlain(n);
    assert RetiredSuffix(n) == IntToString(n) + ['_'] + "terminated";
    FirstPartBefore(IntToString(n), '_', "terminated");
    IntRoundTrip(n);
  }

  /** The top-level lineage cannot decode a retired name: `int("7_terminated")` raises. */
  lemma RetiredNameRejectedTopLevel(tags: Tags, project: string, n: int)
    requires "Name" in tags && tags["Name"] == RetiredName(project, n)
    ensures Number(TopLevel, tags).Failure?
  {
    RetiredSuffixOf(tags, project, n);
    IntToStringPlain(n);
    ParseIntRejects(RetiredSuffix(n), |IntToString(n)|);
  }

  /** An instance without a "Name" tag has no number in either lineage (`int("None")` raises). */
  lemma MissingNameRejected(lineage: Lineage, tags: Tags)
    requires "Name" !in tags
    ensures Number(lineage, tags).Failure?
  {
    assert SuffixOf(tags) == "None" by {
      SplitWhole("None", '.');
    }
    assert FirstPart("None", '_') == "None" by {
      SplitWhole("None", '_');
    }
    assert ParseInt("None").Failure? by {
      ParseIntRejects("None", 0);
    }
  }

  /** Names of the same project with different suffixes differ, so a name lookup finds one suffix. */
  lemma NameTagInjective(project: string, a: string, b: string)
    requires NameTag(project, a) == NameTag(project, b)
    ensures a == b
  {
    var p := "wolphin." + project + ".";
    assert NameTag(project, a) == p + a && NameTag(project, b) == p + b;
    assert a == (p + a)[|p|..] && b == (p + b)[|p|..];
  }

  /**
   * A retired name reads as retired (`"terminated" in suffix`) and, in the
   * nested lineage, still as the number it retired.
   */
  lemma RetiredNameMarked(tags: Tags, project: string, n: int)
    requires "Name" in tags && tags["Name"] == RetiredName(project, n)
    ensures Contains(SuffixOf(tags), "terminated")
    ensures Number(Nested, tags) == Success(n)
  {
    RetiredSuffixOf(tags, project, n);
    RetiredSuffixMarked(n);
    RetiredNameRoundTripNested(tags, project, n);
  }

  lemma RetiredSuffixMarked(n: int)
    ensures Contains(RetiredSuffix(n), "terminated")
  {
    ContainsSuffix(IntToString(n) + "_", "terminated");
    assert RetiredSuffix(n) == IntToString(n) + "_" + "terminated";
  }

  /** Distinct numbers give distinct live names, so an exact-name lookup finds one number. */
  lemma LiveNameInjective(project: string, n: int, m: int)
    requires LiveName(project, n) == LiveName(project, m)
    ensures n == m
  {
    var t := map["Name" := LiveName(project, n)];
    LiveNameRoundTrip(TopLevel, t, project, n);
    LiveNameRoundTrip(TopLevel, t, project, m);
  }

  /** No live name is ever a retired name, so an exact-name lookup never finds a retired instance. */
  lemma LiveNameNotRetired(project: string, n: int, m: int)
    ensures LiveName(project, n) != RetiredName(project, m)
  {
    var t := map["Name" := RetiredName(project, m)];
    RetiredNameRejectedTopLevel(t, project, m);
    if LiveName(project, n) == RetiredName(project, m) {
      LiveNameRoundTrip(TopLevel, t, project, n);
    }
  }

  /**
   * `max(0, *[number(i) for i in instances]) if instances else 0`: the largest
   * number in use, or 0; the first undecodable name raises.
   */
  function MaxAllocated(lineage: Lineage, names: seq<Tags>): (r: Result<int>)
    ensures r.Success? ==> r.value >= 0
    ensures r.Success? ==> Bounds(lineage, names, r.value)
    ensures r.Success? && r.value > 0 ==> Attains(lineage, names, r.value)
    ensures r.Failure? <==> exists k :: 0 <= k < |names| && Number(lineage, names[k]).Failure?
    decreases |names|
  {
    if |names| == 0 then Success(0)
    else
      match Number(lineage, names[0])
      case Failure(e) => Failure(e)
      case Success(n) =>
        match MaxAllocated(lineage, names[1..])
        case Failure(e) =>
          MaxFailStep(lineage, names);
          Failure(e)
        case Success(m) =>
          MaxStep(lineage, names, n, m);
          Success(if n > m then n else m)
  }

  /** Every name decodes to a number no larger than `top`. */
  predicate Bounds(lineage: Lineage, names: seq<Tags>, top: int) {
    forall k :: 0 <= k < |names| ==>
      Number(lineage, names[k]).Success? && Number(lineage, names[k]).value <= top
  }

  /** Some name decodes to exactly `top`. */
  predicate Attains(lineage: Lineage, names: seq<Tags>, top: int) {
    exists k :: 0 <= k < |names| && Number(lineage, names[k]) == Success(top)
  }

  lemma MaxFailStep(lineage: Lineage, names: seq<Tags>)
    requires |names| > 0
    requires exists k :: 0 <= k < |names| - 1 && Number(lineage, names[1..][k]).Failure?
    ensures exists k :: 0 <= k < |names| && Number(lineage, names[k]).Failure?
  {
    var k :| 0 <= k < |names| - 1 && Number(lineage, names[1..][k]).Failure?;
    assert names[k + 1] == names[1..][k];
  }

  /** Taking the larger of the head's number and the tail's maximum keeps both facts. */
  lemma MaxStep(lineage: Lineage, names: seq<Tags>, n: int, m: int)
    requires |names| > 0 && Number(lineage, names[0]) == Success(n)
    requires Bounds(lineage, names[1..], m)
    requires m > 0 ==> Attains(lineage, names[1..], m)
    ensures var top := if n > m then n else m;
      Bounds(lineage, names, top) && (top > 0 ==> Attains(lineage, names, top))
  {
    var top := if n > m then n else m;
    forall k | 0 <= k < |names|
      ensures Number(lineage, names[k]).Success? && Number(lineage, names[k]).value <= top
    {
      if k > 0 {
        assert names[k] == names[1..][k - 1];
      }
    }
    if top > 0 {
      if top == n {
        assert Number(lineage, names[0]) == Success(top);
      } else {
        var k :| 0 <= k < |names| - 1 && Number(lineage, names[1..][k]) == Success(m);
        assert names[k + 1] == names[1..][k];
      }
    }
  }

  /** `enumerate(instances, start=base + 1)`: the numbers handed to a reservation, in order. */
  function Allocation(base: int, count: nat): (numbers: seq<int>)
    ensures |numbers| == count
    ensures forall k :: 0 <= k < count ==> numbers[k] == base + 1 + k
  {
    seq(count, k => base + 1 + k)
  }

  /**
   * Numbers allocated after the largest one in use are pairwise distinct and
   * collide with no number of an existing instance.
   */
  lemma AllocationFresh(lineage: Lineage, names: seq<Tags>, count: nat)
    requires MaxAllocated(lineage, names).Success?
    ensures var numbers := Allocation(MaxAllocated(lineage, names).value, count);
      && (forall i, j :: 0 <= i < j < count ==> numbers[i] < numbers[j])
      && (forall i, k :: 0 <= i < count && 0 <= k < |names| ==>
            Number(lineage, names[k]).value < numbers[i])
      && (forall i :: 0 <= i < count ==> numbers[i] >= 1)
  {
  }
}
