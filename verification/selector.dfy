/**
 * The polymorphic selector of the top-level package: every instance, or the
 * instances whose decoded number is one of a list.
 */
module Selector {

  import opened Wrappers
  import opened Text
  import opened Identity
  import opened MockEc2
  import opened Seqs

  /** `DefaultSelector()` or `InstanceNumberBasedSelector(numbers)`. */
  datatype Selector = Default | ByNumbers(numbers: seq<int>)

  /** `[int(number) for number in texts]`: the first text that is no integer raises. */
  function ParseAll(texts: seq<string>): (r: Result<seq<int>>)
    ensures r.Success? <==> forall k :: 0 <= k < |texts| ==> ParseInt(texts[k]).Success?
    ensures r.Success? ==> |r.value| == |texts|
    ensures r.Success? ==> forall k :: 0 <= k < |texts| ==> r.value[k] == ParseInt(texts[k]).value
  {
    Each(ParseInt, texts)
  }

  /**
   * `InstanceNumberBasedSelector(instance_numbers)`: every number converted to an
   * integer, and no list at all taken as the empty list.
   */
  function FromNumbers(numbers: Option<seq<string>>): (r: Result<Selector>)
    ensures r.Success? ==> r.value.ByNumbers?
    ensures numbers.None? ==> r == Success(ByNumbers([]))
    ensures numbers.Some? ==>
              (r.Success? <==> forall k :: 0 <= k < |numbers.value| ==> ParseInt(numbers.value[k]).Success?)
    ensures numbers.Some? && r.Success? ==>
              |r.value.numbers| == |numbers.value| &&
              forall k :: 0 <= k < |numbers.value| ==> r.value.numbers[k] == ParseInt(numbers.value[k]).value
  {
    match numbers
    case None => Success(ByNumbers([]))
    case Some(texts) =>
      match ParseAll(texts)
      case Failure(e) => Failure(e)
      case Success(ns) => Success(ByNumbers(ns))
  }

  /** Texts that each parse to the matching number parse, all together, to that list. */
  lemma ParseAllOf(texts: seq<string>, ns: seq<int>)
    requires |texts| == |ns|
    requires forall k :: 0 <= k < |texts| ==> ParseInt(texts[k]) == Success(ns[k])
    ensures ParseAll(texts) == Success(ns)
  {
    var r := ParseAll(texts);
    assert r.value == ns;
  }

  /** Building a selector from the texts of numbers gives back exactly those numbers. */
  lemma FromNumbersRoundTrip(ns: seq<int>)
    ensures FromNumbers(Some(seq(|ns|, k requires 0 <= k < |ns| => IntToString(ns[k])))) == Success(ByNumbers(ns))
  {
    var texts := seq(|ns|, k requires 0 <= k < |ns| => IntToString(ns[k]));
    forall k | 0 <= k < |ns|
      ensures ParseInt(texts[k]) == Success(ns[k])
    {
      IntRoundTrip(ns[k]);
    }
    ParseAllOf(texts, ns);
  }

  /** The number the selector reads off an instance. */
  function NumberAt(c: Cloud, id: Id): Result<int> {
    Number(TopLevel, TagsOf(c, id))
  }

  /**
   * The list comprehension of `InstanceNumberBasedSelector.select`, over any way
   * `num` of reading a number off an instance.
   */
  function Comprehension(num: Id -> Result<int>, ids: seq<Id>, numbers: seq<int>): (r: Result<seq<Id>>)
    ensures r.Failure? <==> exists k :: 0 <= k < |ids| && num(ids[k]).Failure?
    ensures r.Success? ==> Subsequence(r.value, ids)
    ensures r.Success? ==> forall k :: 0 <= k < |r.value| ==> num(r.value[k]).Success? && num(r.value[k]).value in numbers
    ensures r.Success? ==> forall k :: 0 <= k < |ids| && num(ids[k]).value in numbers ==> ids[k] in r.value
    decreases |ids|
  {
    if |ids| == 0 then Success([])
    else
      var head := num(ids[0]);
      var tail := Comprehension(num, ids[1..], numbers);
      if head.Failure? then Failure(head.error)
      else if tail.Failure? then
        assert !num(ids[1..][0]).Success? || exists k :: 1 <= k < |ids| && num(ids[k]).Failure? by {
          var k :| 0 <= k < |ids| - 1 && num(ids[1..][k]).Failure?;
          assert ids[1..][k] == ids[k + 1];
        }
        Failure(tail.error)
      else
        var rest := tail.value;
        assert ids == [ids[0]] + ids[1..];
        assert forall k :: 1 <= k < |ids| ==> ids[k] == ids[1..][k - 1];
        if head.value in numbers then
          SubsequenceTake(rest, ids[0], ids[1..]);
          Success([ids[0]] + rest)
        else
          SubsequenceSkip(rest, ids[0], ids[1..]);
          Success(rest)
  }

  /**
   * `select(instances)` over any way `num` of reading a number off an instance:
   * the default selector and a selector with no numbers return the input
   * unchanged; otherwise the result keeps, in order, exactly the instances whose
   * number is listed, and an instance without a number fails the selection.
   */
  function Pick(sel: Selector, num: Id -> Result<int>, ids: seq<Id>): (r: Result<seq<Id>>)
    ensures sel.Default? || sel.numbers == [] ==> r == Success(ids)
    ensures sel.ByNumbers? && sel.numbers != [] ==>
              (r.Failure? <==> exists k :: 0 <= k < |ids| && num(ids[k]).Failure?)
    ensures r.Success? ==> Subsequence(r.value, ids)
    ensures r.Success? && sel.ByNumbers? && sel.numbers != [] ==>
              forall k :: 0 <= k < |ids| ==> (ids[k] in r.value <==> num(ids[k]).value in sel.numbers)
  {
    match sel
    case Default =>
      SubsequenceRefl(ids);
      Success(ids)
    case ByNumbers(ns) =>
      if |ns| == 0 then
        SubsequenceRefl(ids);
        Success(ids)
      else
        var r := Comprehension(num, ids, ns);
        if r.Success? then
          SubsequenceMembers(r.value, ids);
          assert forall k :: 0 <= k < |ids| && ids[k] in r.value ==> num(ids[k]).value in ns by {
            forall k | 0 <= k < |ids| && ids[k] in r.value
              ensures num(ids[k]).value in ns
            {
              var p :| 0 <= p < |r.value| && r.value[p] == ids[k];
            }
          }
          r
        else r
  }

  /** The selector's way of reading numbers off the instances of a provider table. */
  function Numbering(c: Cloud): Id -> Result<int> {
    (id: Id) => NumberAt(c, id)
  }

  /**
   * `select(instances)` on the provider's instances, numbered by their last
   * name segment: an unparsable segment fails the whole selection.
   */
  function Select(sel: Selector, c: Cloud, ids: seq<Id>): (r: Result<seq<Id>>)
    ensures sel.Default? || sel.numbers == [] ==> r == Success(ids)
    ensures sel.ByNumbers? && sel.numbers != [] ==>
              (r.Failure? <==> exists k :: 0 <= k < |ids| && NumberAt(c, ids[k]).Failure?)
    ensures r.Success? ==> Subsequence(r.value, ids)
    ensures r.Success? && sel.ByNumbers? && sel.numbers != [] ==>
              forall k :: 0 <= k < |ids| ==> (ids[k] in r.value <==> NumberAt(c, ids[k]).value in sel.numbers)
  {
    Pick(sel, Numbering(c), ids)
  }

  /** Two ways of reading numbers that agree on every listed instance select alike, errors included. */
  lemma {:induction false} ComprehensionAgree(f: Id -> Result<int>, g: Id -> Result<int>, ids: seq<Id>, numbers: seq<int>)
    requires forall k :: 0 <= k < |ids| ==> f(ids[k]) == g(ids[k])
    ensures Comprehension(f, ids, numbers) == Comprehension(g, ids, numbers)
    decreases |ids|
  {
    if |ids| > 0 {
      assert forall k :: 0 <= k < |ids| - 1 ==> ids[1..][k] == ids[k + 1];
      ComprehensionAgree(f, g, ids[1..], numbers);
    }
  }

  /** A selection is decided by the listed instances' tags alone. */
  lemma SelectAgree(sel: Selector, c: Cloud, d: Cloud, ids: seq<Id>)
    requires forall k :: 0 <= k < |ids| ==> TagsOf(d, ids[k]) == TagsOf(c, ids[k])
    ensures Select(sel, d, ids) == Select(sel, c, ids)
  {
    if sel.ByNumbers? && sel.numbers != [] {
      ComprehensionAgree(Numbering(d), Numbering(c), ids, sel.numbers);
    }
  }

  /** A selection from a repetition-free list has no repetitions and is no longer than the list. */
  lemma SelectDistinct(sel: Selector, c: Cloud, ids: seq<Id>)
    requires Distinct(ids) && Select(sel, c, ids).Success?
    ensures Distinct(Select(sel, c, ids).value)
    ensures |Select(sel, c, ids).value| <= |ids|
  {
    SubsequenceDistinct(Select(sel, c, ids).value, ids);
    SubsequenceMembers(Select(sel, c, ids).value, ids);
  }

  /** No instance carrying a listed number leaves the comprehension empty. */
  lemma ComprehensionNone(num: Id -> Result<int>, ids: seq<Id>, ns: seq<int>)
    requires forall k :: 0 <= k < |ids| ==> num(ids[k]).Success? && num(ids[k]).value !in ns
    ensures Comprehension(num, ids, ns) == Success([])
  {
    var r := Comprehension(num, ids, ns);
    SubsequenceMembers(r.value, ids);
  }

  /** Asking for numbers no instance carries selects nothing. */
  lemma SelectAbsent(ns: seq<int>, c: Cloud, ids: seq<Id>)
    requires ns != []
    requires forall k :: 0 <= k < |ids| ==> NumberAt(c, ids[k]).Success? && NumberAt(c, ids[k]).value !in ns
    ensures Select(ByNumbers(ns), c, ids) == Success([])
  {
    ComprehensionNone(Numbering(c), ids, ns);
  }
}
