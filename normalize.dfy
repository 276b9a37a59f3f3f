/**
 * The private recursive rewrite `NormalizeJson` of the response cleaner:
 * a `results` container becomes the array of its normalised elements, a
 * `__deferred` placeholder becomes the empty array, and any other object has
 * its object-valued properties normalised, keys and order unchanged.
 */
module Normalizer {
  import opened Wrappers
  import opened Json
  import opened Errors

  const ResultsKey := "results"
  const DeferredKey := "__deferred"

  /**
   * A value that normalisation leaves as it is: no object reached through
   * object-valued properties carries a `results` or `__deferred` key.
   * Arrays are not looked into, as the rewrite does not look into them.
   */
  ghost predicate Plain(j: Json) {
    match j
    case Obj(props) =>
      && !HasKey(props, ResultsKey)
      && !HasKey(props, DeferredKey)
      && forall i :: 0 <= i < |props| ==> props[i].value.Obj? ==> Plain(props[i].value)
    case _ => true
  }

  /**
   * Reference definition of the values whose normalisation succeeds: every
   * `results` container that the rewrite reaches holds an array of objects or
   * nulls.
   */
  ghost predicate Normalizable(j: Json) {
    match j
    case Obj(props) =>
      if HasKey(props, ResultsKey) then
        var raw := props[IndexOf(props, ResultsKey)].value;
        && raw.Arr?
        && forall i :: 0 <= i < |raw.items| ==> ObjectOrNull(raw.items[i]) && Normalizable(raw.items[i])
      else if HasKey(props, DeferredKey) then true
      else forall i :: 0 <= i < |props| ==> props[i].value.Obj? ==> Normalizable(props[i].value)
    case _ => true
  }

  /** The value normalisation of `j` yields (ApiResponseCleaner.NormalizeJson). */
  function Normalize(j: Json): (r: Result<Json, Cause>)
    ensures r.Success? ==>
      (r.value.Arr? <==> j.Arr? || (j.Obj? && (HasKey(j.props, ResultsKey) || HasKey(j.props, DeferredKey))))
    ensures r.Success? && r.value.Obj? ==> j.Obj? && |r.value.props| == |j.props|
    decreases j, 2
  {
    match j
    case Obj(props) =>
      if HasKey(props, ResultsKey) then
        NormalizeResults(props[IndexOf(props, ResultsKey)].value)
      else if HasKey(props, DeferredKey) then
        Success(Arr([]))
      else
        var members :- NormalizeMembers(j, 0);
        Success(Obj(members))
    case _ => Success(j)
  }

  /**
   * The `results` branch: the value is converted to a list of JObject (an
   * array whose elements are objects or nulls; null or the empty string
   * convert to a null list, which the loop dereferences), then each element
   * is normalised in order.
   */
  function NormalizeResults(raw: Json): (r: Result<Json, Cause>)
    ensures r.Success? ==> raw.Arr? && r.value.Arr? && |r.value.items| == |raw.items|
    ensures ReadsAsNull(raw) ==> r == Failure(NullReference)
    decreases raw, 1
  {
    if ReadsAsNull(raw) then Failure(NullReference)
    else if !raw.Arr? || exists i :: 0 <= i < |raw.items| && !ObjectOrNull(raw.items[i]) then Failure(NotConvertible)
    else
      var elems :- NormalizeElements(raw, 0);
      Success(Arr(elems))
  }

  /** Normalises the elements of `raw` from position `from` on, stopping at the first failure. */
  function NormalizeElements(raw: Json, from: nat): (r: Result<seq<Json>, Cause>)
    requires raw.Arr? && from <= |raw.items|
    ensures r.Success? ==> |r.value| == |raw.items| - from
    decreases raw, 0, |raw.items| - from
  {
    if from == |raw.items| then Success([])
    else
      var head :- Normalize(raw.items[from]);
      var tail :- NormalizeElements(raw, from + 1);
      Success([head] + tail)
  }

  /**
   * The fall-through branch over the properties of `j` from position `from`
   * on, stopping at the first failure.
   */
  function NormalizeMembers(j: Json, from: nat): (r: Result<seq<Property>, Cause>)
    requires j.Obj? && from <= |j.props|
    ensures r.Success? ==> |r.value| == |j.props| - from
    decreases j, 0, |j.props| - from
  {
    if from == |j.props| then Success([])
    else
      var p :- NormalizeProperty(j.props[from]);
      var rest :- NormalizeMembers(j, from + 1);
      Success([p] + rest)
  }

  /** One property of the fall-through walk: an object value is normalised, any other value kept. */
  function NormalizeProperty(p: Property): (r: Result<Property, Cause>)
    ensures r.Success? ==> r.value.name == p.name
    ensures !p.value.Obj? ==> r == Success(p)
    decreases p
  {
    if p.value.Obj? then
      var v :- Normalize(p.value);
      Success(Property(p.name, v))
    else Success(p)
  }

  /** `xs` followed by the sequence a computation yields, or that computation's failure. */
  function Prepend<T>(xs: seq<T>, r: Result<seq<T>, Cause>): Result<seq<T>, Cause> {
    match r
    case Success(ys) => Success(xs + ys)
    case Failure(c) => Failure(c)
  }

  lemma PrependNothing<T>(r: Result<seq<T>, Cause>)
    ensures Prepend([], r) == r
  {
    if r.Success? {
      assert [] + r.value == r.value;
    }
  }

  lemma PrependTwice<T>(xs: seq<T>, ys: seq<T>, r: Result<seq<T>, Cause>)
    ensures Prepend(xs, Prepend(ys, r)) == Prepend(xs + ys, r)
  {
    if r.Success? {
      assert xs + (ys + r.value) == xs + ys + r.value;
    }
  }

  /**
   * NormalizeJson as the source runs it: the `results` branch fills a fresh
   * array element by element, and the fall-through branch overwrites the
   * object-valued properties one at a time while walking the object.
   */
  method NormalizeJson(item: Json) returns (r: Result<Json, Cause>)
    ensures r == Normalize(item)
    decreases item, 1
  {
    if !item.Obj? {
      return Success(item);
    }
    var obj := item.props;
    if HasKey(obj, ResultsKey) {
      r := CollectResults(obj[IndexOf(obj, ResultsKey)].value);
    } else if HasKey(obj, DeferredKey) {
      r := Success(Arr([]));
    } else {
      r := RewriteMembers(item);
    }
  }

  /** The `results` branch: convert to a list of objects, then add each normalised element to a fresh array. */
  method CollectResults(raw: Json) returns (r: Result<Json, Cause>)
    ensures r == NormalizeResults(raw)
    decreases raw, 0
  {
    // item["results"].ToObject<List<JObject>>(); a null list fails at the foreach
    if ReadsAsNull(raw) {
      return Failure(NullReference);
    }
    if !raw.Arr? || exists k :: 0 <= k < |raw.items| && !ObjectOrNull(raw.items[k]) {
      return Failure(NotConvertible);
    }
    var rawResults := raw.items;
    var results: seq<Json> := [];
    var i := 0;
    PrependNothing(NormalizeElements(raw, 0));
    while i < |rawResults|
      invariant 0 <= i <= |rawResults|
      invariant NormalizeElements(raw, 0) == Prepend(results, NormalizeElements(raw, i))
    {
      var result := NormalizeJson(rawResults[i]);
      if result.Failure? {
        return Failure(result.error);
      }
      PrependTwice(results, [result.value], NormalizeElements(raw, i + 1));
      results := results + [result.value];
      i := i + 1;
    }
    assert results + [] == results;
    return Success(Arr(results));
  }

  /** The walk's done prefix grows by the property just written. */
  lemma AdvancePrefix<T>(before: seq<T>, after: seq<T>, i: nat, whole: Result<seq<T>, Cause>,
                         here: Result<seq<T>, Cause>, next: Result<seq<T>, Cause>)
    requires i < |before| == |after| && before[..i] == after[..i]
    requires whole == Prepend(before[..i], here) && here == Prepend([after[i]], next)
    ensures whole == Prepend(after[..i + 1], next)
  {
    PrependTwice(after[..i], [after[i]], next);
    assert after[..i] + [after[i]] == after[..i + 1];
  }

  /** The fall-through branch of `Normalize` is the walk over all properties. */
  lemma FallThroughIsWalk(item: Json)
    requires item.Obj? && !HasKey(item.props, ResultsKey) && !HasKey(item.props, DeferredKey)
    ensures Normalize(item) == match NormalizeMembers(item, 0)
      case Success(members) => Success(Obj(members))
      case Failure(c) => Failure(c)
  {
  }

  /** The body of the fall-through loop: `obj[kvp.Key] = NormalizeJson(value)` when the value is an object. */
  method RewriteProperty(kvp: Property) returns (r: Result<Property, Cause>)
    ensures r == NormalizeProperty(kvp)
    decreases kvp
  {
    r := Success(kvp);
    if kvp.value.Obj? {
      var value := NormalizeJson(kvp.value);
      if value.Failure? {
        return Failure(value.error);
      }
      r := Success(Property(kvp.name, value.value));
    }
  }

  /** The fall-through branch: overwrite each object-valued property with its normalisation, in place. */
  method RewriteMembers(item: Json) returns (r: Result<Json, Cause>)
    requires item.Obj? && !HasKey(item.props, ResultsKey) && !HasKey(item.props, DeferredKey)
    ensures r == Normalize(item)
    decreases item, 0
  {
    FallThroughIsWalk(item);
    var obj := item.props;
    var i := 0;
    PrependNothing(NormalizeMembers(item, 0));
    while i < |obj|
      invariant 0 <= i <= |obj| == |item.props|
      invariant forall k :: i <= k < |obj| ==> obj[k] == item.props[k]
      invariant NormalizeMembers(item, 0) == Prepend(obj[..i], NormalizeMembers(item, i))
    {
      ghost var before := obj;
      var updated := RewriteProperty(obj[i]);
      if updated.Failure? {
        return Failure(updated.error);
      }
      obj := obj[i := updated.value];
      AdvancePrefix(before, obj, i, NormalizeMembers(item, 0), NormalizeMembers(item, i), NormalizeMembers(item, i + 1));
      i := i + 1;
    }
    assert obj[..i] + [] == obj;
    return Success(Obj(obj));
  }
}
