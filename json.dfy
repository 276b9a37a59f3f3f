/**
 * Already-parsed JSON values, as the Newtonsoft LINQ tree (JToken) holds them.
 * An object is an ordered sequence of properties: key order is the order of
 * the text and is kept by every rewrite.
 */
module Json {

  /** A JSON number is opaque; it is kept as its invariant-culture text. */
  datatype Json =
    | Null
    | Bool(b: bool)
    | Num(literal: string)
    | Str(s: string)
    | Arr(items: seq<Json>)
    | Obj(props: seq<Property>)

  /** One name/value pair of an object (a JProperty). */
  datatype Property = Property(name: string, value: Json)

  /** The keys of an object, in order. */
  function Keys(props: seq<Property>): (ks: seq<string>)
    ensures |ks| == |props|
    ensures forall i :: 0 <= i < |props| ==> ks[i] == props[i].name
  {
    seq(|props|, i requires 0 <= i < |props| => props[i].name)
  }

  /** JObject.ContainsKey: an ordinal, case-sensitive key comparison. */
  predicate HasKey(props: seq<Property>, key: string) {
    exists i :: 0 <= i < |props| && props[i].name == key
  }

  /** Position of the first property named `key`. */
  function IndexOf(props: seq<Property>, key: string): (i: nat)
    requires HasKey(props, key)
    ensures i < |props| && props[i].name == key
    ensures forall k :: 0 <= k < i ==> props[k].name != key
  {
    if props[0].name == key then 0
    else
      assert HasKey(props[1..], key) by {
        var i :| 0 <= i < |props| && props[i].name == key;
        assert props[1..][i - 1] == props[i];
      }
      1 + IndexOf(props[1..], key)
  }

  /** The value stored under `key` (the indexer `obj[key]`). */
  function ValueOf(props: seq<Property>, key: string): Json
    requires HasKey(props, key)
  {
    props[IndexOf(props, key)].value
  }

  /** No key occurs twice in one object, as in every JObject. */
  predicate UniqueKeys(props: seq<Property>) {
    forall i, k :: 0 <= i < k < |props| ==> props[i].name != props[k].name
  }

  /** Every object in the tree, at any depth, has unique keys. */
  ghost predicate WellFormed(j: Json) {
    match j
    case Arr(items) => forall x :: x in items ==> WellFormed(x)
    case Obj(props) => UniqueKeys(props) && forall p :: p in props ==> WellFormed(p.value)
    case _ => true
  }

  /**
   * The values that a conversion to a list or a dictionary reads as a C#
   * null reference: JSON null, and the empty string, which the serializer
   * coerces to null for every nullable target type that is not a string.
   */
  predicate ReadsAsNull(j: Json) {
    j.Null? || j == Str("")
  }

  /** The JObject-typed view of a value: an object, or a C# null reference. */
  predicate ObjectOrNull(j: Json) {
    j.Obj? || j.Null?
  }
}
