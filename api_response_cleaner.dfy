/**
 * The three public operations of ApiResponseCleaner over an already-parsed
 * response: the `d` envelope lookup, single-object extraction, collection
 * extraction and skip-token extraction, with the two ways they report failure.
 */
module ApiResponseCleaner {
  import opened Wrappers
  import opened Json
  import opened Errors
  import opened Normalizer
  import opened SkipToken
  import opened NormalizeProperties

  /**
   * The response text as the JSON parser sees it: not JSON at all, or a
   * parsed tree. Blank text reads as no value at all, which is `Parsed(Null)`.
   */
  datatype Response = Malformed | Parsed(root: Json)

  const EnvelopeKey := "d"
  const NextKey := "__next"

  /**
   * The payload: the response read as a dictionary from names to JSON
   * objects, then its entry `d`. A response whose text is blank, the JSON
   * literal `null` or the JSON string `""` reads as a null dictionary, whose
   * lookup is a null reference.
   * Every entry point dereferences the payload, so a null `d` is a null
   * reference for all three.
   */
  function Payload(response: Response): (r: Result<Json, Cause>)
    ensures r.Success? ==> r.value.Obj?
    ensures response.Malformed? ==> r == Failure(Unparsable)
    ensures response.Parsed? && ReadsAsNull(response.root) ==> r == Failure(NullReference)
    ensures
      && response.Parsed? && !ReadsAsNull(response.root)
      && (!response.root.Obj? || exists i :: 0 <= i < |response.root.props| && !ObjectOrNull(response.root.props[i].value))
      ==> r == Failure(NotConvertible)
    ensures
      && response.Parsed? && response.root.Obj?
      && (forall i :: 0 <= i < |response.root.props| ==> ObjectOrNull(response.root.props[i].value))
      && !HasKey(response.root.props, EnvelopeKey)
      ==> r == Failure(MissingKey(EnvelopeKey))
    ensures r.Success? ==> response.Parsed? && r.value == ValueOf(response.root.props, EnvelopeKey)
    ensures r.Success? <==>
      && response.Parsed? && response.root.Obj?
      && (forall i :: 0 <= i < |response.root.props| ==> ObjectOrNull(response.root.props[i].value))
      && HasKey(response.root.props, EnvelopeKey)
      && ValueOf(response.root.props, EnvelopeKey).Obj?
  {
    match response
    case Malformed => Failure(Unparsable)
    case Parsed(root) =>
      if ReadsAsNull(root) then Failure(NullReference)
      else if !root.Obj? || exists i :: 0 <= i < |root.props| && !ObjectOrNull(root.props[i].value) then
        Failure(NotConvertible)
      else if !HasKey(root.props, EnvelopeKey) then Failure(MissingKey(EnvelopeKey))
      else
        var d := ValueOf(root.props, EnvelopeKey);
        if d.Null? then Failure(NullReference) else Success(d)
  }

  /**
   * GetJsonObject: the normalised payload. Failures propagate as they are:
   * a malformed response or a missing `d` is never wrapped.
   */
  function GetJsonObject(response: Response): (r: Result<Json, Error>)
    ensures r.Failure? ==> r.error.Thrown?
    ensures Payload(response).Failure? ==> r == Failure(Thrown(Payload(response).error))
    ensures r.Success? ==> Payload(response).Success? && Normalize(Payload(response).value) == Success(r.value)
    ensures Payload(response).Success? && Normalize(Payload(response).value).Failure? ==>
      r == Failure(Thrown(Normalize(Payload(response).value).error))
    ensures Payload(response).Success? && Normalizable(Payload(response).value) ==> r.Success?
    ensures r.Success? ==> Plain(r.value)
  {
    match Payload(response)
    case Failure(c) => Failure(Thrown(c))
    case Success(d) =>
      NormalizableIff(d);
      if Normalize(d).Success? then NormalizeIsPlain(d); Success(Normalize(d).value)
      else Failure(Thrown(Normalize(d).error))
  }

  /**
   * GetJsonArray: the payload must hold `results`; it is then normalised,
   * which yields the array of its normalised elements. Every failure is
   * wrapped as IncorrectJson, keeping its cause.
   */
  function GetJsonArray(response: Response): (r: Result<Json, Error>)
    ensures r.Failure? ==> r.error.IncorrectJson?
    ensures Payload(response).Failure? ==> r == Failure(IncorrectJson(Payload(response).error))
    ensures Payload(response).Success? && !HasKey(Payload(response).value.props, ResultsKey) ==>
      r == Failure(IncorrectJson(NoResults))
    ensures Payload(response).Success? && HasKey(Payload(response).value.props, ResultsKey) ==>
      match Normalize(Payload(response).value)
      case Success(v) => r == Success(v)
      case Failure(c) => r == Failure(IncorrectJson(c))
    ensures r.Success? ==>
      && Payload(response).Success?
      && var raw := ValueOf(Payload(response).value.props, ResultsKey);
      && raw.Arr?
      && r.value.Arr?
      && |r.value.items| == |raw.items|
      && forall i :: 0 <= i < |raw.items| ==> Normalize(raw.items[i]) == Success(r.value.items[i])
  {
    match Payload(response)
    case Failure(c) => Failure(IncorrectJson(c))
    case Success(d) =>
      if !HasKey(d.props, ResultsKey) then Failure(IncorrectJson(NoResults))
      else
        ResultsBecomeArray(d);
        match Normalize(d)
        case Failure(c) => Failure(IncorrectJson(c))
        case Success(v) => Success(v)
  }

  /**
   * `innerPart["__next"].ToObject<string>() ?? ""`: a string is itself, null
   * is the empty string, a number or a boolean is its invariant-culture text,
   * and an object or array does not convert.
   */
  function NextText(next: Json): (r: Result<string, Cause>)
    ensures r.Failure? <==> next.Arr? || next.Obj?
    ensures next.Str? ==> r == Success(next.s)
    ensures next.Null? ==> r == Success("")
  {
    match next
    case Null => Success("")
    case Bool(b) => Success(if b then "True" else "False")
    case Num(literal) => Success(literal)
    case Str(s) => Success(s)
    case _ => Failure(NotConvertible)
  }

  /**
   * GetSkipToken: `Some("")` when the payload has no `__next`; otherwise the
   * skip token of the `__next` URL, `None` (the C# null) when it carries no
   * `$skiptoken=`. Every failure is wrapped as IncorrectJson.
   */
  method GetSkipToken(response: Response) returns (r: Result<Option<string>, Error>)
    ensures r.Failure? ==> r.error.IncorrectJson?
    ensures Payload(response).Failure? ==> r == Failure(IncorrectJson(Payload(response).error))
    ensures Payload(response).Success? && !HasKey(Payload(response).value.props, NextKey) ==>
      r == Success(Some(""))
    ensures Payload(response).Success? && HasKey(Payload(response).value.props, NextKey) ==>
      match NextText(ValueOf(Payload(response).value.props, NextKey))
      case Failure(c) => r == Failure(IncorrectJson(c))
      case Success(url) => r == Success(MatchSkipToken(url))
    ensures r == Success(None) <==>
      && Payload(response).Success?
      && HasKey(Payload(response).value.props, NextKey)
      && NextText(ValueOf(Payload(response).value.props, NextKey)).Success?
      && var url := NextText(ValueOf(Payload(response).value.props, NextKey)).value;
      forall k :: 0 <= k <= |url| ==> !MarkerAt(url, k)
    ensures r == Success(Some("")) <==>
      && Payload(response).Success?
      && (|| !HasKey(Payload(response).value.props, NextKey)
          || (&& NextText(ValueOf(Payload(response).value.props, NextKey)).Success?
              && MatchSkipToken(NextText(ValueOf(Payload(response).value.props, NextKey)).value) == Some("")))
  {
    var token := Some("");
    var payload := Payload(response);
    if payload.Failure? {
      return Failure(IncorrectJson(payload.error));
    }
    var innerPart := payload.value.props;
    if HasKey(innerPart, NextKey) {
      var next := NextText(ValueOf(innerPart, NextKey));
      if next.Failure? {
        return Failure(IncorrectJson(next.error));
      }
      token := MatchSkipToken(next.value);
    }
    return Success(token);
  }

  /** The same failure of the envelope reaches the caller unwrapped from GetJsonObject and wrapped from GetJsonArray. */
  lemma EnvelopeFailureKinds(response: Response)
    requires Payload(response).Failure?
    ensures GetJsonObject(response) == Failure(Thrown(Payload(response).error))
    ensures GetJsonArray(response) == Failure(IncorrectJson(Payload(response).error))
  {
  }

  /**
   * A response whose text is blank, the JSON literal `null` or the JSON
   * string `""` reads as a null dictionary: a null reference from
   * GetJsonObject, IncorrectJson from GetJsonArray.
   */
  lemma NullResponse(root: Json)
    requires ReadsAsNull(root)
    ensures GetJsonObject(Parsed(root)) == Failure(Thrown(NullReference))
    ensures GetJsonArray(Parsed(root)) == Failure(IncorrectJson(NullReference))
  {
  }

  /** Text that is not JSON: a parse error from GetJsonObject, IncorrectJson from GetJsonArray. */
  lemma MalformedResponse()
    ensures GetJsonObject(Malformed) == Failure(Thrown(Unparsable))
    ensures GetJsonArray(Malformed) == Failure(IncorrectJson(Unparsable))
  {
  }

  /** A response without `d`: a missing key from GetJsonObject, IncorrectJson from GetJsonArray. */
  lemma MissingEnvelope(props: seq<Property>)
    requires !HasKey(props, EnvelopeKey)
    requires forall i :: 0 <= i < |props| ==> ObjectOrNull(props[i].value)
    ensures GetJsonObject(Parsed(Obj(props))) == Failure(Thrown(MissingKey(EnvelopeKey)))
    ensures GetJsonArray(Parsed(Obj(props))) == Failure(IncorrectJson(MissingKey(EnvelopeKey)))
  {
  }

  /**
   * On a payload that holds `results`, the two extractions compute the same
   * thing and differ only in how they report a failure.
   */
  lemma ArrayIsWrappedObject(response: Response)
    requires Payload(response).Success? && HasKey(Payload(response).value.props, ResultsKey)
    ensures GetJsonArray(response) == match GetJsonObject(response)
      case Success(v) => Success(v)
      case Failure(e) => Failure(IncorrectJson(e.cause))
  {
  }

  /** `{"d": {"results": [a, b]}}` extracts as `[x, y]` when `a` normalises to `x` and `b` to `y`, in that order. */
  lemma CollectionOfTwo(a: Json, b: Json, x: Json, y: Json)
    requires a.Obj? && b.Obj? && Normalize(a) == Success(x) && Normalize(b) == Success(y)
    ensures GetJsonArray(Parsed(Obj([Property(EnvelopeKey, Obj([Property(ResultsKey, Arr([a, b]))]))])))
      == Success(Arr([x, y]))
  {
    var raw := Arr([a, b]);
    var payload := Obj([Property(ResultsKey, raw)]);
    var response := Parsed(Obj([Property(EnvelopeKey, payload)]));
    assert payload.props[0].name == ResultsKey;
    assert response.root.props[0].name == EnvelopeKey;
    assert Payload(response) == Success(payload);
    assert Normalize(payload) == NormalizeResults(raw);
    ElementsPointwise(raw, 0);
    assert raw.items[0] == a && raw.items[1] == b;
    var out := GetJsonArray(response).value;
    assert out.items[0] == x && out.items[1] == y;
    assert out.items == [x, y];
  }

  /** `{"d": {}}` has no `results`: IncorrectJson from GetJsonArray. */
  lemma CollectionWithoutResults()
    ensures GetJsonArray(Parsed(Obj([Property(EnvelopeKey, Obj([]))]))) == Failure(IncorrectJson(NoResults))
  {
    assert [Property(EnvelopeKey, Obj([]))][0].name == EnvelopeKey;
  }

  /** A payload with no `results` or `__deferred` anywhere comes back from GetJsonObject exactly as it went in. */
  lemma UnmarkedPayloadUnchanged(response: Response)
    requires Payload(response).Success? && NoMarkers(Payload(response).value)
    ensures GetJsonObject(response) == Success(Payload(response).value)
  {
    NoMarkersIsFixedPoint(Payload(response).value);
  }
}
