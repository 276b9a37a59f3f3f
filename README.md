# ApiResponseCleaner, modelled in Dafny

The Exact Online API wraps every response in an OData-style envelope `{"d": ...}`:
a collection sits under `results`, an unexpanded navigation property is a
`{"__deferred": ...}` placeholder, and a continuation URL under `__next` carries
the next page's `$skiptoken`. `ApiResponseCleaner` strips that wrapping. This
project models its core over already-parsed JSON values:

- `Json.Json` is the JSON tree (Newtonsoft's JToken): objects are ordered
  sequences of properties, numbers are opaque invariant-culture text.
- `ApiResponseCleaner.Response` is the response text as
  `JsonConvert.DeserializeObject` sees it (ApiResponseCleaner.cs lines 33, 51 and
  83): `Malformed` when it is not JSON, `Parsed(root)` otherwise.
- `Normalizer.Normalize` is the recursive rewrite `NormalizeJson`, as a pure
  function; `Normalizer.NormalizeJson` (with `CollectResults` and
  `RewriteMembers`) is the same rewrite as the source runs it, with its two
  loops, and is proved equal to the function.
- `NormalizeProperties` proves what the rewrite promises: the three branches,
  order and key preservation, the exact failure cases, idempotence, its fixed
  points, and that objects keep unique keys.
- `SkipToken` is the pattern `\$skiptoken=([^&#]*)` as a scan, with its
  meaning (leftmost marker, maximal run) proved in both directions.
- `ApiResponseCleaner` holds the three entry points `GetJsonObject`,
  `GetJsonArray` and `GetSkipToken` and the two ways they report failure:
  `Thrown(cause)` (the exception propagates) and `IncorrectJson(cause)` (it is
  wrapped, keeping its message).

Where the code is more precise than a plain description of it, the model follows
the code:

- a JSON null element inside `results` is accepted and stays null (the list
  conversion yields a null reference, `NormalizeJson` returns it, and `JArray.Add`
  stores a JSON null); any other non-object element fails the conversion;
- a `results` value that is null or the empty string is a null reference when
  the loop walks it: the list conversion reads the empty string as null, as it
  does for every nullable target type other than a string (`Json.ReadsAsNull`);
- a `__next` holding a number or a boolean is converted to its text rather than
  rejected; only an object or an array fails;
- `GetSkipToken` returns `""` both when there is no `__next` and when the
  leftmost `$skiptoken=` is followed directly by `&`, `#` or the end of the URL
  (`SkipToken.EmptyTokenIff`), so the empty string does not on its own mean
  "no further page";
- a null `d` is a null reference in all three entry points, and so is a
  response whose text is blank, the JSON literal `null` or the JSON string
  `""`: the dictionary conversion reads each as a null dictionary (blank text
  is `Parsed(Null)`).

## Model

| member | source | states |
|---|---|---|
| `Normalizer.Normalize` | src/ExactOnline.Client.Sdk/Helpers/ApiResponseCleaner.cs:105-128 | a successful normalisation is an array exactly when the input is an array or an object with `results` or `__deferred`, and an object result has as many properties as its input; its full meaning is stated by `NormalizableIff`, `NormalizeIsPlain` and `FallThroughKeepsKeys` |
| `Normalizer.NormalizeResults` | src/ExactOnline.Client.Sdk/Helpers/ApiResponseCleaner.cs:109-117 | the `results` branch succeeds only on an array and then yields an array of the same length; null or the empty string is a null reference; element-wise meaning in `ElementsPointwise` and `ResultsBecomeArray` |
| `Normalizer.NormalizeElements` | src/ExactOnline.Client.Sdk/Helpers/ApiResponseCleaner.cs:112-115 | a successful loop yields one element per remaining element of `results`; element-wise meaning in `ElementsPointwise` |
| `Normalizer.NormalizeMembers` | src/ExactOnline.Client.Sdk/Helpers/ApiResponseCleaner.cs:121-124 | a successful walk yields one property per remaining property; property-wise meaning in `MembersPointwise` |
| `Normalizer.NormalizeProperty` | src/ExactOnline.Client.Sdk/Helpers/ApiResponseCleaner.cs:122-123 | one property of the walk keeps its name, and a value that is not an object is kept as it is |
| `Normalizer.NormalizeJson` | src/ExactOnline.Client.Sdk/Helpers/ApiResponseCleaner.cs:105-128 | the imperative rewrite returns exactly `Normalize(item)` |
| `Normalizer.CollectResults` | src/ExactOnline.Client.Sdk/Helpers/ApiResponseCleaner.cs:109-117 | converting the list and adding each normalised element to a fresh array yields exactly `NormalizeResults(raw)` |
| `Normalizer.RewriteProperty` | src/ExactOnline.Client.Sdk/Helpers/ApiResponseCleaner.cs:121-124 | one step of the walk over the properties: an object value is replaced by its normalisation under the same name, any other value is kept; it returns exactly `NormalizeProperty(kvp)` |
| `Normalizer.RewriteMembers` | src/ExactOnline.Client.Sdk/Helpers/ApiResponseCleaner.cs:120-126 | overwriting the object-valued properties one at a time while walking the object yields exactly `Normalize(item)` |
| `NormalizeProperties.ElementsPointwise` | src/ExactOnline.Client.Sdk/Helpers/ApiResponseCleaner.cs:108-117 | the loop over the converted `results` list succeeds exactly when every remaining element normalises, and then yields as many elements as remain, element i being the normalisation of element i |
| `NormalizeProperties.MembersPointwise` | src/ExactOnline.Client.Sdk/Helpers/ApiResponseCleaner.cs:120-126 | the walk over the properties succeeds exactly when every remaining property rewrites, and then yields as many properties as remain, property i being the rewrite of property i |
| `NormalizeProperties.NormalizableIff` | src/ExactOnline.Client.Sdk/Helpers/ApiResponseCleaner.cs:105-128 | normalisation succeeds exactly on `Normalizable` values: every `results` the rewrite reaches is an array of objects or nulls that all normalise |
| `NormalizeProperties.NormalizeIsPlain` | src/ExactOnline.Client.Sdk/Helpers/ApiResponseCleaner.cs:105-128 | what normalisation yields has no `results`/`__deferred` object left on any object-valued path |
| `NormalizeProperties.NonObjectUnchanged` | src/ExactOnline.Client.Sdk/Helpers/ApiResponseCleaner.cs:105-106 | a value that is not an object comes back unchanged |
| `NormalizeProperties.ResultsBecomeArray` | src/ExactOnline.Client.Sdk/Helpers/ApiResponseCleaner.cs:108-117 | an object with `results` becomes an array as long as `results`, element i normalised from element i; a null or empty-string `results` is a null reference; any other non-array, or an array with a non-object, non-null element, does not convert |
| `NormalizeProperties.ResultsDropsSiblings` | src/ExactOnline.Client.Sdk/Helpers/ApiResponseCleaner.cs:108-119 | an object with `results` normalises as if `results` were its only key: siblings such as `__next` are dropped and `results` wins over `__deferred` |
| `NormalizeProperties.DeferredBecomesEmpty` | src/ExactOnline.Client.Sdk/Helpers/ApiResponseCleaner.cs:118-119 | an object with `__deferred` and no `results` becomes the empty array, whatever its other keys |
| `NormalizeProperties.FallThroughKeepsKeys` | src/ExactOnline.Client.Sdk/Helpers/ApiResponseCleaner.cs:120-126 | any other object keeps exactly its keys in their order; object values are normalised, scalar and array values (arrays of objects included) are unchanged; it fails exactly when one object value fails |
| `NormalizeProperties.WalkSucceedsIff` | src/ExactOnline.Client.Sdk/Helpers/ApiResponseCleaner.cs:121-124 | the walk over the properties fails exactly when one object-valued property fails to normalise |
| `NormalizeProperties.WalkKeepsNames` | src/ExactOnline.Client.Sdk/Helpers/ApiResponseCleaner.cs:121-124 | a successful walk keeps every name in place, normalises object values and keeps all other values |
| `NormalizeProperties.PlainMembersUnchanged` | src/ExactOnline.Client.Sdk/Helpers/ApiResponseCleaner.cs:121-124 | on a `Plain` object the walk over the properties gives them back unchanged |
| `NormalizeProperties.PlainIsFixedPoint` | src/ExactOnline.Client.Sdk/Helpers/ApiResponseCleaner.cs:105-128 | a `Plain` value is a fixed point of normalisation |
| `NormalizeProperties.FixedPointIffPlain` | src/ExactOnline.Client.Sdk/Helpers/ApiResponseCleaner.cs:105-128 | the fixed points of normalisation are exactly the `Plain` values |
| `NormalizeProperties.NormalizeIdempotent` | src/ExactOnline.Client.Sdk/Helpers/ApiResponseCleaner.cs:105-128 | normalising a normalised value changes nothing |
| `NormalizeProperties.NoMarkersIsPlain` | src/ExactOnline.Client.Sdk/Helpers/ApiResponseCleaner.cs:105-128 | a tree with no `results` or `__deferred` key in any object, arrays included, is `Plain` |
| `NormalizeProperties.NoMarkersIsFixedPoint` | src/ExactOnline.Client.Sdk/Helpers/ApiResponseCleaner.cs:105-128 | such a tree is left exactly as it is |
| `NormalizeProperties.NormalizePreservesWellFormed` | src/ExactOnline.Client.Sdk/Helpers/ApiResponseCleaner.cs:105-128 | if every object of the input has unique keys, so has every object of the output |
| `NormalizeProperties.BareArrayNotRecursed` | src/ExactOnline.Client.Sdk/Helpers/ApiResponseCleaner.cs:121-124 | `{"a": [{"results": []}]}` is left as it is: arrays outside `results` are not looked into |
| `SkipToken.FindMarker` | src/ExactOnline.Client.Sdk/Helpers/ApiResponseCleaner.cs:57 | finds the leftmost occurrence of the literal `$skiptoken=` at or after a position, or reports that there is none |
| `SkipToken.RunEnd` | src/ExactOnline.Client.Sdk/Helpers/ApiResponseCleaner.cs:57 | the run `[^&#]*` ends at the first `&` or `#`, or at the end of the string |
| `SkipToken.MatchSkipToken` | src/ExactOnline.Client.Sdk/Helpers/ApiResponseCleaner.cs:57-60 | no match exactly when the marker occurs nowhere; otherwise the group is the maximal `&`/`#`-free run after the leftmost marker, followed by `&`, `#` or the end |
| `SkipToken.FindLeftmostMarker` | src/ExactOnline.Client.Sdk/Helpers/ApiResponseCleaner.cs:57 | the scan stops at the leftmost marker |
| `SkipToken.RunEndOfRun` | src/ExactOnline.Client.Sdk/Helpers/ApiResponseCleaner.cs:57 | a maximal `&`/`#`-free run ends where the scan says |
| `SkipToken.RunAtUnique` | src/ExactOnline.Client.Sdk/Helpers/ApiResponseCleaner.cs:57 | the captured run is determined by where it starts |
| `SkipToken.MatchOfDecomposedUrl` | src/ExactOnline.Client.Sdk/Helpers/ApiResponseCleaner.cs:56-57 | a URL made of a marker-free prefix, the marker, an `&`/`#`-free token and a rest starting with `&` or `#` (or empty) yields exactly that token |
| `SkipToken.EmptyTokenIff` | src/ExactOnline.Client.Sdk/Helpers/ApiResponseCleaner.cs:57-60 | the token is empty exactly when `&`, `#` or the end follows the leftmost marker |
| `SkipToken.TokenBeforeAmpersand` | src/ExactOnline.Client.Sdk/Helpers/ApiResponseCleaner.cs:56-60 | `https://x/y?$skiptoken=ABC123&foo=1` gives `ABC123` |
| `SkipToken.NoTokenWithoutMarker` | src/ExactOnline.Client.Sdk/Helpers/ApiResponseCleaner.cs:57-60 | `https://x/y?foo=1` gives no token (null) |
| `ApiResponseCleaner.Payload` | src/ExactOnline.Client.Sdk/Helpers/ApiResponseCleaner.cs:33-34 | the envelope yields exactly its `d` entry, and does so exactly when the response parses to an object whose values are all objects or nulls, holding a non-null `d`; text that does not parse is a parse error; a response whose text is blank, `null` or `""` is a null reference; a non-object root, or an entry that is neither an object nor null, does not convert; a missing `d` is a missing-key error |
| `ApiResponseCleaner.GetJsonObject` | src/ExactOnline.Client.Sdk/Helpers/ApiResponseCleaner.cs:25-42 | every failure propagates unwrapped: an envelope failure as it is, a normalisation failure with its own cause; success is the normalised payload, which is `Plain` |
| `ApiResponseCleaner.GetJsonArray` | src/ExactOnline.Client.Sdk/Helpers/ApiResponseCleaner.cs:77-99 | every failure is `IncorrectJson`; no `results` gives `IncorrectJson(NoResults)`; with `results`, the normalised payload is returned, or its failure cause wrapped as `IncorrectJson`; success is an array with element i normalised from `results[i]` |
| `ApiResponseCleaner.NextText` | src/ExactOnline.Client.Sdk/Helpers/ApiResponseCleaner.cs:54-57 | `__next` converts to text unless it is an object or an array; a string is itself and null is the empty string |
| `ApiResponseCleaner.GetSkipToken` | src/ExactOnline.Client.Sdk/Helpers/ApiResponseCleaner.cs:44-72 | every failure is `IncorrectJson`; no `__next` gives `""`; otherwise the match of its text; null exactly when `__next` is present and its text has no `$skiptoken=`; `""` exactly when `__next` is absent or the token is empty |
| `ApiResponseCleaner.EnvelopeFailureKinds` | src/ExactOnline.Client.Sdk/Helpers/ApiResponseCleaner.cs:31-35 | one envelope failure reaches the caller as `Thrown` from GetJsonObject and as `IncorrectJson` from GetJsonArray |
| `ApiResponseCleaner.NullResponse` | src/ExactOnline.Client.Sdk/Helpers/ApiResponseCleaner.cs:33-34 | a response whose text is blank, the JSON literal `null` or the JSON string `""`: `Thrown(NullReference)` from GetJsonObject, `IncorrectJson(NullReference)` from GetJsonArray |
| `ApiResponseCleaner.MalformedResponse` | src/ExactOnline.Client.Sdk/Helpers/ApiResponseCleaner.cs:33 | text that is not JSON: `Thrown(Unparsable)` from GetJsonObject, `IncorrectJson(Unparsable)` from GetJsonArray |
| `ApiResponseCleaner.MissingEnvelope` | src/ExactOnline.Client.Sdk/Helpers/ApiResponseCleaner.cs:34 | a response without `d` whose values are all objects or nulls: a missing-key error unwrapped from GetJsonObject, wrapped from GetJsonArray |
| `ApiResponseCleaner.ArrayIsWrappedObject` | src/ExactOnline.Client.Sdk/Helpers/ApiResponseCleaner.cs:83-92 | on a payload with `results`, GetJsonArray computes what GetJsonObject computes and only wraps its failure |
| `ApiResponseCleaner.CollectionOfTwo` | src/ExactOnline.Client.Sdk/Helpers/ApiResponseCleaner.cs:83-88 | `{"d": {"results": [a, b]}}` extracts as `[x, y]` when object `a` normalises to `x` and object `b` to `y`: elements keep their order |
| `ApiResponseCleaner.CollectionWithoutResults` | src/ExactOnline.Client.Sdk/Helpers/ApiResponseCleaner.cs:85 | `{"d": {}}` gives `IncorrectJson(NoResults)` from GetJsonArray |
| `ApiResponseCleaner.UnmarkedPayloadUnchanged` | src/ExactOnline.Client.Sdk/Helpers/ApiResponseCleaner.cs:33-35 | a payload with no `results` or `__deferred` anywhere comes back from GetJsonObject exactly as it went in |

## Left out

- Parsing and serialising: `JsonConvert.DeserializeObject` and `ToString(Formatting.None)` are Newtonsoft code. The entry points take `Response` (text that does not parse, or its parsed tree) and return the JSON value instead of its text.
- Newtonsoft's reading of date-like strings as dates, and its global default serializer settings, are not modelled; strings stay strings.
- The swap of the thread culture and its restore: process-wide state that only affects number formatting; numbers are opaque text here.
- Exception classes and messages: reduced to `Errors.Cause` (which exception) and `Errors.Error` (propagated or wrapped).
- The general regular-expression engine: only the one pattern is modelled, as a scan.
- In-place update and aliasing: the source overwrites the properties of the caller's JObject; the model returns a new value. Every caller discards its input afterwards, so nothing observes the difference.
- Duplicate keys: the envelope dictionary keeps the last `d`, while `ValueOf` takes the first; the two agree on every tree with unique keys, which every parsed JObject has (`Json.WellFormed`).
- Recursion depth: the source can exhaust the stack on very deep input; the model has no depth bound.
- A C# null response string, for which `DeserializeObject` throws an argument error before parsing: `Response` only represents text.
- NormalizeResults: does not model Newtonsoft's metadata properties in the list conversion: a `results` object led by `$values` converts to the list it wraps, and one led by `$ref` resolves to a null list (a null reference in the loop); the model treats every non-array `results` other than null or `""` as not convertible.
- ResultsBecomeArray: states `NotConvertible` for every non-array `results` other than null or `""`, so it does not cover the `$values` and `$ref` metadata objects described for `NormalizeResults`.
- NormalizableIff: `Normalizable` asks for an array of objects or nulls under `results`, so it does not count a `$values`-wrapped list as normalisable.
- Payload: does not model leading `$id`/`$type` metadata properties of the envelope, which the dictionary conversion consumes instead of reading them as entries; the model reads them as ordinary entries whose non-object value does not convert.
