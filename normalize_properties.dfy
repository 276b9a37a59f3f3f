/**
 * What normalisation promises, stated over `Normalizer.Normalize`: the three
 * branches, order and key preservation, idempotence and its fixed points, and
 * preservation of the unique-key invariant of JSON objects.
 */
module NormalizeProperties {
  import opened Wrappers
  import opened Json
  import opened Errors
  import opened Normalizer

  /**
   * The walk over `results` succeeds exactly when every remaining element
   * normalises, and then yields their normalisations in order.
   */
  lemma {:induction false} ElementsPointwise(raw: Json, from: nat)
    requires raw.Arr? && from <= |raw.items|
    ensures NormalizeElements(raw, from).Success? <==>
      forall i :: from <= i < |raw.items| ==> Normalize(raw.items[i]).Success?
    ensures NormalizeElements(raw, from).Success? ==>
      && |NormalizeElements(raw, from).value| == |raw.items| - from
      && forall i :: from <= i < |raw.items| ==>
           Normalize(raw.items[i]) == Success(NormalizeElements(raw, from).value[i - from])
    decreases |raw.items| - from
  {
    if from < |raw.items| {
      ElementsPointwise(raw, from + 1);
    }
  }

  /**
   * The walk over the properties succeeds exactly when every remaining
   * property does, and then yields the rewritten properties in order.
   */
  lemma {:induction false} MembersPointwise(j: Json, from: nat)
    requires j.Obj? && from <= |j.props|
    ensures NormalizeMembers(j, from).Success? <==>
      forall i :: from <= i < |j.props| ==> NormalizeProperty(j.props[i]).Success?
    ensures NormalizeMembers(j, from).Success? ==>
      && |NormalizeMembers(j, from).value| == |j.props| - from
      && forall i :: from <= i < |j.props| ==>
           NormalizeProperty(j.props[i]) == Success(NormalizeMembers(j, from).value[i - from])
    decreases |j.props| - from
  {
    if from < |j.props| {
      MembersPointwise(j, from + 1);
    }
  }

  /** Normalisation fails exactly when some `results` container it reaches is not an array of objects or nulls. */
  lemma {:induction false} NormalizableIff(j: Json)
    ensures Normalize(j).Success? <==> Normalizable(j)
  {
    match j
    case Obj(props) =>
      if HasKey(props, ResultsKey) {
        var raw := props[IndexOf(props, ResultsKey)].value;
        if raw.Arr? && forall i :: 0 <= i < |raw.items| ==> ObjectOrNull(raw.items[i]) {
          ElementsPointwise(raw, 0);
          forall i | 0 <= i < |raw.items|
            ensures Normalize(raw.items[i]).Success? <==> Normalizable(raw.items[i])
          {
            NormalizableIff(raw.items[i]);
          }
        }
      } else if !HasKey(props, DeferredKey) {
        MembersPointwise(j, 0);
        forall i | 0 <= i < |props| && props[i].value.Obj?
          ensures Normalize(props[i].value).Success? <==> Normalizable(props[i].value)
        {
          NormalizableIff(props[i].value);
        }
      }
    case _ =>
  }

  /** A value that is not an object passes through unchanged. */
  lemma NonObjectUnchanged(j: Json)
    requires !j.Obj?
    ensures Normalize(j) == Success(j)
  {
  }

  /**
   * An object with a `results` key becomes an array with one element per
   * element of `results`, element i being the normalisation of element i.
   * A null or empty-string `results` is a null reference; any other
   * `results` that is not an array of objects or nulls does not convert.
   */
  lemma ResultsBecomeArray(j: Json)
    requires j.Obj? && HasKey(j.props, ResultsKey)
    ensures var raw := ValueOf(j.props, ResultsKey);
      && (ReadsAsNull(raw) ==> Normalize(j) == Failure(NullReference))
      && (!ReadsAsNull(raw) && !raw.Arr? ==> Normalize(j) == Failure(NotConvertible))
      && (raw.Arr? && (exists i :: 0 <= i < |raw.items| && !ObjectOrNull(raw.items[i])) ==>
            Normalize(j) == Failure(NotConvertible))
      && (Normalize(j).Success? ==>
            && raw.Arr?
            && Normalize(j).value.Arr?
            && |Normalize(j).value.items| == |raw.items|
            && forall i :: 0 <= i < |raw.items| ==> Normalize(raw.items[i]) == Success(Normalize(j).value.items[i]))
  {
    var raw := ValueOf(j.props, ResultsKey);
    if raw.Arr? {
      ElementsPointwise(raw, 0);
    }
  }

  /**
   * Only the `results` value matters: sibling keys, `__deferred` and `__next`
   * among them, are dropped, so the object normalises as if `results` were
   * its only key.
   */
  lemma ResultsDropsSiblings(j: Json)
    requires j.Obj? && HasKey(j.props, ResultsKey)
    ensures Normalize(j) == Normalize(Obj([Property(ResultsKey, ValueOf(j.props, ResultsKey))]))
  {
    var alone := [Property(ResultsKey, ValueOf(j.props, ResultsKey))];
    assert Keys(alone) == [ResultsKey];
  }

  /** A deferred navigation property without `results` becomes the empty array, whatever its other keys. */
  lemma DeferredBecomesEmpty(j: Json)
    requires j.Obj? && !HasKey(j.props, ResultsKey) && HasKey(j.props, DeferredKey)
    ensures Normalize(j) == Success(Arr([]))
  {
  }

  /**
   * Any other object keeps exactly its keys, in order: an object-valued
   * property gets its normalisation, every other property (arrays of objects
   * included) stays as it was. It fails exactly when one of its object-valued
   * properties fails.
   */
  lemma FallThroughKeepsKeys(j: Json)
    requires j.Obj? && !HasKey(j.props, ResultsKey) && !HasKey(j.props, DeferredKey)
    ensures Normalize(j).Success? <==>
      forall i :: 0 <= i < |j.props| ==> j.props[i].value.Obj? ==> Normalize(j.props[i].value).Success?
    ensures Normalize(j).Success? ==>
      var out := Normalize(j).value;
      && out.Obj?
      && Keys(out.props) == Keys(j.props)
      && forall i :: 0 <= i < |j.props| ==>
        && (j.props[i].value.Obj? ==> Normalize(j.props[i].value) == Success(out.props[i].value))
        && (!j.props[i].value.Obj? ==> out.props[i].value == j.props[i].value)
  {
    FallThroughIsWalk(j);
    WalkSucceedsIff(j);
    if NormalizeMembers(j, 0).Success? {
      WalkKeepsNames(j);
    }
  }

  /** The walk over the properties fails exactly when one object value fails to normalise. */
  lemma WalkSucceedsIff(j: Json)
    requires j.Obj?
    ensures NormalizeMembers(j, 0).Success? <==>
      forall i :: 0 <= i < |j.props| ==> j.props[i].value.Obj? ==> Normalize(j.props[i].value).Success?
  {
    MembersPointwise(j, 0);
    forall i | 0 <= i < |j.props|
      ensures NormalizeProperty(j.props[i]).Success? <==>
        (j.props[i].value.Obj? ==> Normalize(j.props[i].value).Success?)
    {
    }
  }

  /** A successful walk keeps every name in place, normalises object values and keeps the others. */
  lemma WalkKeepsNames(j: Json)
    requires j.Obj? && NormalizeMembers(j, 0).Success?
    ensures var out := NormalizeMembers(j, 0).value;
      && Keys(out) == Keys(j.props)
      && forall i :: 0 <= i < |j.props| ==>
        && (j.props[i].value.Obj? ==> Normalize(j.props[i].value) == Success(out[i].value))
        && (!j.props[i].value.Obj? ==> out[i].value == j.props[i].value)
  {
    MembersPointwise(j, 0);
    var out := NormalizeMembers(j, 0).value;
    forall i | 0 <= i < |j.props|
      ensures out[i].name == j.props[i].name
      ensures j.props[i].value.Obj? ==> Normalize(j.props[i].value) == Success(out[i].value)
      ensures !j.props[i].value.Obj? ==> out[i].value == j.props[i].value
    {
      assert NormalizeProperty(j.props[i]) == Success(out[i]);
    }
  }

  /** The properties of a `Plain` object from position `from` on come back unchanged. */
  lemma {:induction false} PlainMembersUnchanged(j: Json, from: nat)
    requires j.Obj? && from <= |j.props| && Plain(j)
    ensures NormalizeMembers(j, from) == Success(j.props[from..])
    decreases j, 0, |j.props| - from
  {
    if from < |j.props| {
      var p := j.props[from];
      if p.value.Obj? {
        PlainIsFixedPoint(p.value);
      }
      PlainMembersUnchanged(j, from + 1);
      assert [p] + j.props[from + 1..] == j.props[from..];
    } else {
      assert j.props[from..] == [];
    }
  }

  /** A `Plain` value is a fixed point of normalisation. */
  lemma {:induction false} PlainIsFixedPoint(j: Json)
    requires Plain(j)
    ensures Normalize(j) == Success(j)
    decreases j, 1
  {
    if j.Obj? {
      PlainMembersUnchanged(j, 0);
      assert j.props[0..] == j.props;
    }
  }

  /** What normalisation yields has no `results` or `__deferred` object left on any object-valued path. */
  lemma {:induction false} NormalizeIsPlain(j: Json)
    requires Normalize(j).Success?
    ensures Plain(Normalize(j).value)
  {
    if j.Obj? && !HasKey(j.props, ResultsKey) && !HasKey(j.props, DeferredKey) {
      FallThroughKeepsKeys(j);
      var out := Normalize(j).value;
      forall i | 0 <= i < |out.props| && out.props[i].value.Obj?
        ensures Plain(out.props[i].value)
      {
        NormalizeIsPlain(j.props[i].value);
      }
    }
  }

  /** The fixed points of normalisation are exactly the `Plain` values. */
  lemma FixedPointIffPlain(j: Json)
    ensures Normalize(j) == Success(j) <==> Plain(j)
  {
    if Plain(j) {
      PlainIsFixedPoint(j);
    }
    if Normalize(j) == Success(j) {
      NormalizeIsPlain(j);
    }
  }

  /** Normalisation is idempotent. */
  lemma NormalizeIdempotent(j: Json)
    requires Normalize(j).Success?
    ensures Normalize(Normalize(j).value) == Normalize(j)
  {
    NormalizeIsPlain(j);
    PlainIsFixedPoint(Normalize(j).value);
  }

  /** No object anywhere in the tree, arrays included, has a `results` or `__deferred` key. */
  ghost predicate NoMarkers(j: Json) {
    match j
    case Arr(items) => forall i :: 0 <= i < |items| ==> NoMarkers(items[i])
    case Obj(props) =>
      && !HasKey(props, ResultsKey)
      && !HasKey(props, DeferredKey)
      && forall i :: 0 <= i < |props| ==> NoMarkers(props[i].value)
    case _ => true
  }

  lemma {:induction false} NoMarkersIsPlain(j: Json)
    requires NoMarkers(j)
    ensures Plain(j)
  {
    if j.Obj? {
      forall i | 0 <= i < |j.props| && j.props[i].value.Obj?
        ensures Plain(j.props[i].value)
      {
        NoMarkersIsPlain(j.props[i].value);
      }
    }
  }

  /** A tree without `results` or `__deferred` keys anywhere is left exactly as it is. */
  lemma NoMarkersIsFixedPoint(j: Json)
    requires NoMarkers(j)
    ensures Normalize(j) == Success(j)
  {
    NoMarkersIsPlain(j);
    PlainIsFixedPoint(j);
  }

  /** Normalisation keeps every object's keys unique, at every depth. */
  lemma {:induction false} NormalizePreservesWellFormed(j: Json)
    requires WellFormed(j) && Normalize(j).Success?
    ensures WellFormed(Normalize(j).value)
  {
    match j
    case Obj(props) =>
      var out := Normalize(j).value;
      if HasKey(props, ResultsKey) {
        var raw := props[IndexOf(props, ResultsKey)].value;
        assert props[IndexOf(props, ResultsKey)] in props;
        ResultsBecomeArray(j);
        forall x | x in out.items
          ensures WellFormed(x)
        {
          var i :| 0 <= i < |out.items| && out.items[i] == x;
          assert raw.items[i] in raw.items;
          NormalizePreservesWellFormed(raw.items[i]);
        }
      } else if HasKey(props, DeferredKey) {
      } else {
        FallThroughKeepsKeys(j);
        assert forall i :: 0 <= i < |props| ==> out.props[i].name == Keys(out.props)[i];
        forall p | p in out.props
          ensures WellFormed(p.value)
        {
          var i :| 0 <= i < |out.props| && out.props[i] == p;
          assert props[i] in props;
          if props[i].value.Obj? {
            NormalizePreservesWellFormed(props[i].value);
          }
        }
      }
    case _ =>
  }

  /**
   * An array of objects that is not under `results` is not looked into:
   * `{"a": [{"results": []}]}` is left as it is.
   */
  lemma BareArrayNotRecursed()
    ensures var inner := Obj([Property(ResultsKey, Arr([]))]);
      var j := Obj([Property("a", Arr([inner]))]);
      Normalize(j) == Success(j)
  {
    var inner := Obj([Property(ResultsKey, Arr([]))]);
    var j := Obj([Property("a", Arr([inner]))]);
    assert Keys(j.props) == ["a"];
    assert !HasKey(j.props, ResultsKey) && !HasKey(j.props, DeferredKey);
    PlainIsFixedPoint(j);
  }
}
