/**
 * Key namespacing: a store's backing keys are its prefix followed by the
 * caller's key, and `scan` recovers the caller's key with JavaScript's
 * `String.prototype.replace(prefix, '')`, which removes the FIRST occurrence of
 * the prefix wherever it stands.
 */
module Namespace {
  import opened Wrappers

  predicate StartsWith(s: string, p: string) {
    |p| <= |s| && s[..|p|] == p
  }

  /** The backing key for `key` in the namespace `prefix`. */
  function BackingKey(prefix: string, key: string): (k: string)
    ensures StartsWith(k, prefix) && k[|prefix|..] == key
  {
    prefix + key
  }

  /** True iff `p` occurs in `s` at position `i`. */
  predicate OccursAt(s: string, p: string, i: nat) {
    i + |p| <= |s| && s[i..i + |p|] == p
  }

  /** The first position at or after `from` where `p` occurs in `s`. */
  function IndexFrom(s: string, p: string, from: nat): (r: Option<nat>)
    ensures r.Some? ==> from <= r.value && OccursAt(s, p, r.value)
    ensures r.Some? ==> forall j :: from <= j < r.value ==> !OccursAt(s, p, j)
    ensures r.None? ==> forall j :: from <= j ==> !OccursAt(s, p, j)
    decreases |s| - from
  {
    if from + |p| > |s| then None
    else if OccursAt(s, p, from) then Some(from)
    else IndexFrom(s, p, from + 1)
  }

  /** `s.indexOf(p)`, as an option instead of -1. */
  function IndexOf(s: string, p: string): (r: Option<nat>) {
    IndexFrom(s, p, 0)
  }

  /** `s.replace(p, '')`: `s` with the first occurrence of `p` removed, or `s` itself. */
  function RemoveFirst(s: string, p: string): (r: string)
    ensures IndexOf(s, p).None? ==> r == s
    ensures IndexOf(s, p).Some? ==> |r| + |p| == |s|
  {
    match IndexOf(s, p)
    case None => s
    case Some(i) => s[..i] + s[i + |p|..]
  }

  /** Stripping the prefix from a backing key gives the caller's key back. */
  lemma StripBackingKey(prefix: string, key: string)
    ensures RemoveFirst(BackingKey(prefix, key), prefix) == key
  {
    var k := BackingKey(prefix, key);
    assert OccursAt(k, prefix, 0);
    assert IndexOf(k, prefix) == Some(0);
  }

  /** A key that starts with the prefix is the backing key of what stripping leaves. */
  lemma RebuildFromStripped(prefix: string, k: string)
    requires StartsWith(k, prefix)
    ensures BackingKey(prefix, RemoveFirst(k, prefix)) == k
  {
    assert OccursAt(k, prefix, 0);
    assert IndexOf(k, prefix) == Some(0);
    assert k[..0] + k[|prefix|..] == k[|prefix|..];
    assert prefix + k[|prefix|..] == k;
  }

  /** Distinct keys have distinct backing keys in one namespace. */
  lemma BackingKeyInjective(prefix: string, a: string, b: string)
    requires BackingKey(prefix, a) == BackingKey(prefix, b)
    ensures a == b
  {
    assert a == BackingKey(prefix, a)[|prefix|..];
  }
}
