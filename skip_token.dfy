/**
 * The one regular expression of the response cleaner, `\$skiptoken=([^&#]*)`,
 * as a deterministic scan: find the leftmost literal `$skiptoken=`, then take
 * the longest run of characters other than `&` and `#` after it.
 */
module SkipToken {
  import opened Wrappers

  const Marker := "$skiptoken="

  /** The literal `$skiptoken=` starts at position `i` of `s`. */
  predicate MarkerAt(s: string, i: int) {
    0 <= i && i + |Marker| <= |s| && s[i..i + |Marker|] == Marker
  }

  /** The marker starts at `i` and nowhere before: the leftmost match of the pattern starts there. */
  predicate LeftmostMarker(s: string, i: int) {
    MarkerAt(s, i) && forall k :: 0 <= k < i ==> !MarkerAt(s, k)
  }

  /** The characters the capture group `[^&#]*` cannot take. */
  predicate IsStop(c: char) {
    c == '&' || c == '#'
  }

  /**
   * `t` is the maximal stop-free run that starts at position `p` of `s`:
   * it is there, it holds no `&` or `#`, and `&`, `#` or the end follows it.
   */
  predicate RunAt(s: string, p: int, t: string) {
    && 0 <= p && p + |t| <= |s|
    && s[p..p + |t|] == t
    && (forall k :: 0 <= k < |t| ==> !IsStop(t[k]))
    && (p + |t| == |s| || IsStop(s[p + |t|]))
  }

  /** The leftmost position at or after `from` where the marker starts. */
  function FindMarker(s: string, from: nat): (r: Option<nat>)
    requires from <= |s|
    ensures r.Some? ==> from <= r.value && MarkerAt(s, r.value)
    ensures r.Some? ==> forall k :: from <= k < r.value ==> !MarkerAt(s, k)
    ensures r.None? ==> forall k :: from <= k ==> !MarkerAt(s, k)
    decreases |s| - from
  {
    if from + |Marker| > |s| then None
    else if s[from..from + |Marker|] == Marker then Some(from)
    else FindMarker(s, from + 1)
  }

  /** The end of the stop-free run that starts at `from`. */
  function RunEnd(s: string, from: nat): (e: nat)
    requires from <= |s|
    ensures from <= e <= |s|
    ensures forall k :: from <= k < e ==> !IsStop(s[k])
    ensures e == |s| || IsStop(s[e])
    decreases |s| - from
  {
    if from == |s| || IsStop(s[from]) then from else RunEnd(s, from + 1)
  }

  /**
   * `Regex.Match(s, @"\$skiptoken=([^&#]*)")`: the first group of the
   * leftmost match, or `None` when the pattern does not match. As the group
   * may match nothing, the pattern matches exactly when the marker occurs.
   */
  function MatchSkipToken(s: string): (m: Option<string>)
    ensures m.None? <==> forall k :: 0 <= k <= |s| ==> !MarkerAt(s, k)
    ensures m.Some? ==> exists i :: LeftmostMarker(s, i) && RunAt(s, i + |Marker|, m.value)
  {
    match FindMarker(s, 0)
    case None => None
    case Some(i) =>
      var start := i + |Marker|;
      var t := s[start..RunEnd(s, start)];
      assert LeftmostMarker(s, i) && RunAt(s, start, t);
      Some(t)
  }

  /** Where a maximal stop-free run starts determines it: the capture group has one value. */
  lemma RunAtUnique(s: string, p: int, t: string, u: string)
    requires RunAt(s, p, t) && RunAt(s, p, u)
    ensures t == u
  {
    RunIsStopFree(s, p, t);
    RunIsStopFree(s, p, u);
  }

  /** The characters of a run, read in `s` itself, are all stop-free. */
  lemma RunIsStopFree(s: string, p: int, t: string)
    requires RunAt(s, p, t)
    ensures forall q :: p <= q < p + |t| ==> !IsStop(s[q])
  {
    forall q | p <= q < p + |t|
      ensures !IsStop(s[q])
    {
      assert s[q] == t[q - p];
    }
  }

  /** The leftmost marker is the one `FindMarker` finds. */
  lemma FindLeftmostMarker(s: string, i: nat)
    requires LeftmostMarker(s, i)
    ensures FindMarker(s, 0) == Some(i)
  {
  }

  /** A maximal stop-free run ends where `RunEnd` says. */
  lemma {:induction false} RunEndOfRun(s: string, p: nat, t: string)
    requires RunAt(s, p, t)
    ensures RunEnd(s, p) == p + |t|
    decreases |t|
  {
    if |t| > 0 {
      assert s[p] == t[0];
      assert RunAt(s, p + 1, t[1..]) by {
        assert s[p + 1..p + |t|] == t[1..];
      }
      RunEndOfRun(s, p + 1, t[1..]);
    }
  }

  /**
   * Read the other way: a URL made of a prefix with no marker in it, the
   * marker, a stop-free token, and a rest that is empty or starts with `&` or
   * `#`, yields exactly that token.
   */
  lemma MatchOfDecomposedUrl(prefix: string, token: string, rest: string)
    requires forall k :: 0 <= k < |prefix| ==> !MarkerAt(prefix + Marker, k)
    requires forall k :: 0 <= k < |token| ==> !IsStop(token[k])
    requires rest == [] || IsStop(rest[0])
    ensures MatchSkipToken(prefix + Marker + token + rest) == Some(token)
  {
    var s := prefix + Marker + token + rest;
    var i, start := |prefix|, |prefix| + |Marker|;
    assert s[..start] == prefix + Marker;
    forall k | 0 <= k < i
      ensures !MarkerAt(s, k)
    {
      assert !MarkerAt(s[..start], k);
      assert s[k..k + |Marker|] == s[..start][k..k + |Marker|];
    }
    assert s[i..start] == Marker;
    FindLeftmostMarker(s, i);
    assert s[start..start + |token|] == token;
    assert start + |token| == |s| || s[start + |token|] == rest[0];
    RunEndOfRun(s, start, token);
  }

  /**
   * The token is empty exactly when `&`, `#` or the end of the URL follows
   * the leftmost marker; so an empty token does not tell an absent `__next`
   * from a present one with an empty `$skiptoken=` value.
   */
  lemma EmptyTokenIff(s: string)
    ensures MatchSkipToken(s) == Some("") <==>
      exists i :: LeftmostMarker(s, i) && (i + |Marker| == |s| || IsStop(s[i + |Marker|]))
  {
    if exists i :: LeftmostMarker(s, i) && (i + |Marker| == |s| || IsStop(s[i + |Marker|])) {
      var i :| LeftmostMarker(s, i) && (i + |Marker| == |s| || IsStop(s[i + |Marker|]));
      FindLeftmostMarker(s, i);
      RunEndOfRun(s, i + |Marker|, "");
    }
  }

  /** `https://x/y?$skiptoken=ABC123&foo=1` carries the token `ABC123`. */
  lemma TokenBeforeAmpersand()
    ensures MatchSkipToken("https://x/y?$skiptoken=ABC123&foo=1") == Some("ABC123")
  {
    var prefix := "https://x/y?";
    forall k | 0 <= k < |prefix|
      ensures !MarkerAt(prefix + Marker, k)
    {
      assert (prefix + Marker)[k] != '$';
    }
    assert prefix + Marker + "ABC123" + "&foo=1" == "https://x/y?$skiptoken=ABC123&foo=1";
    MatchOfDecomposedUrl(prefix, "ABC123", "&foo=1");
  }

  /** `https://x/y?foo=1` carries no marker, so no token. */
  lemma NoTokenWithoutMarker()
    ensures MatchSkipToken("https://x/y?foo=1") == None
  {
    var s := "https://x/y?foo=1";
    assert '$' !in s;
    forall k | 0 <= k <= |s|
      ensures !MarkerAt(s, k)
    {
      if k + |Marker| <= |s| {
        assert s[k..k + |Marker|][0] == s[k];
      }
    }
  }
}
