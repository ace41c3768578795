/**
 The two URI primitives the registry relies on, `gst_uri_is_valid` and
 `gst_uri_has_protocol`, belong to GStreamer and are not part of this
 model. They are carried as a `UriSyntax` value so that every property of
 the registry holds for whichever syntax GStreamer implements.

 `Rfc3986` is one concrete syntax, following the scheme rule of section
 3.1 of RFC 3986 (a letter followed by letters, digits, "+", "-" or ".",
 terminated by ":", compared case-insensitively). It is used only to
 state concrete scenarios.
 */
module Uri {
  import opened Wrappers

  /** A URI syntax: which strings are URIs, and whether a URI has a given protocol. */
  datatype UriSyntax = UriSyntax(isValid: string -> bool, hasProtocol: (string, string) -> bool)

  /** The one protocol the registry supports. */
  const FileProtocol: string := "file"

  predicate IsAlpha(c: char) {
    'a' <= c <= 'z' || 'A' <= c <= 'Z'
  }

  predicate IsSchemeChar(c: char) {
    IsAlpha(c) || '0' <= c <= '9' || c == '+' || c == '-' || c == '.'
  }

  /** A scheme name in the sense of section 3.1 of RFC 3986. */
  predicate IsScheme(s: string) {
    |s| > 0 && IsAlpha(s[0]) && forall i :: 0 <= i < |s| ==> IsSchemeChar(s[i])
  }

  /** The position of the first ':' at or after `from`, if any. */
  function ColonFrom(s: string, from: nat): (r: Option<nat>)
    requires from <= |s|
    decreases |s| - from
    ensures r.Some? ==> from <= r.value < |s| && s[r.value] == ':'
                        && forall j :: from <= j < r.value ==> s[j] != ':'
    ensures r.None? ==> forall j :: from <= j < |s| ==> s[j] != ':'
  {
    if from == |s| then None
    else if s[from] == ':' then Some(from)
    else ColonFrom(s, from + 1)
  }

  /** The scheme of a URI: the text before its first ':', when that text is a scheme name. */
  function SchemeOf(uri: string): (r: Option<string>)
    ensures r.Some? ==> IsScheme(r.value) && |r.value| < |uri|
                        && uri == r.value + ":" + uri[|r.value| + 1..]
  {
    match ColonFrom(uri, 0)
    case None => None
    case Some(k) =>
      if IsScheme(uri[..k]) then
        assert uri == uri[..k] + ":" + uri[k + 1..];
        Some(uri[..k])
      else None
  }

  /** Parsing the scheme back out of `scheme ":" rest` gives the scheme. */
  lemma {:induction false} SchemeOfPrefixed(scheme: string, rest: string)
    requires IsScheme(scheme)
    ensures SchemeOf(scheme + ":" + rest) == Some(scheme)
  {
    var uri := scheme + ":" + rest;
    assert forall j :: 0 <= j < |scheme| ==> uri[j] == scheme[j] && uri[j] != ':';
    ColonAfterScheme(uri, |scheme|, 0);
    assert uri[..|scheme|] == scheme;
  }

  /** When no ':' occurs before position `k` and one occurs at `k`, the first ':' from `from` is at `k`. */
  lemma {:induction false} ColonAfterScheme(s: string, k: nat, from: nat)
    requires from <= k < |s| && s[k] == ':'
    requires forall j :: from <= j < k ==> s[j] != ':'
    ensures ColonFrom(s, from) == Some(k)
    decreases k - from
  {
    if from < k {
      ColonAfterScheme(s, k, from + 1);
    }
  }

  /** ASCII lower-casing of one character. */
  function LowerChar(c: char): char {
    if 'A' <= c <= 'Z' then (c as int + 32) as char else c
  }

  /** ASCII lower-casing of a string, character by character. */
  function Lower(s: string): (r: string)
    ensures |r| == |s| && forall i :: 0 <= i < |s| ==> r[i] == LowerChar(s[i])
  {
    seq(|s|, i requires 0 <= i < |s| => LowerChar(s[i]))
  }

  /** Whether the URI's scheme is `protocol`, ignoring ASCII case. */
  predicate HasScheme(uri: string, protocol: string) {
    match SchemeOf(uri)
    case None => false
    case Some(scheme) => Lower(scheme) == Lower(protocol)
  }

  /** The RFC 3986 scheme syntax as a `UriSyntax`. */
  function Rfc3986(): (syntax: UriSyntax)
    ensures forall uri :: syntax.isValid(uri) == SchemeOf(uri).Some?
    ensures forall uri, p :: syntax.hasProtocol(uri, p) == HasScheme(uri, p)
  {
    UriSyntax(uri => SchemeOf(uri).Some?, (uri, p) => HasScheme(uri, p))
  }
}
