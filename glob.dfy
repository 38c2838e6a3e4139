/**
 * A reference for the server's key-pattern dialect (`KEYS pattern`,
 * `SCAN ... MATCH pattern`): `*` matches any run of characters, `?` any one
 * character, `\c` the character `c`, and anything else itself. The store is
 * parametric in the server's matcher; this module is one instance of it, used
 * to show what `prefix*` selects when the prefix holds no metacharacter.
 */
module Glob {
  import opened Namespace

  predicate IsMeta(c: char) {
    c == '*' || c == '?' || c == '[' || c == '\\'
  }

  predicate MetaFree(p: string) {
    forall i :: 0 <= i < |p| ==> !IsMeta(p[i])
  }

  function Match(pattern: string, key: string): bool
    decreases |pattern| + |key|
  {
    if |pattern| == 0 then |key| == 0
    else if pattern[0] == '*' then Match(pattern[1..], key) || (|key| > 0 && Match(pattern, key[1..]))
    else if |key| == 0 then false
    else if pattern[0] == '?' then Match(pattern[1..], key[1..])
    else if pattern[0] == '\\' && |pattern| > 1 then key[0] == pattern[1] && Match(pattern[2..], key[1..])
    else key[0] == pattern[0] && Match(pattern[1..], key[1..])
  }

  /** `*` alone matches every key. */
  lemma {:induction false} StarMatchesAll(key: string)
    ensures Match("*", key)
  {
    if |key| > 0 {
      StarMatchesAll(key[1..]);
    }
  }

  /** For a metacharacter-free prefix, `prefix*` matches exactly the keys that start with it. */
  lemma {:induction false} PrefixStar(prefix: string, key: string)
    requires MetaFree(prefix)
    ensures Match(prefix + "*", key) <==> StartsWith(key, prefix)
  {
    if |prefix| == 0 {
      StarMatchesAll(key);
      assert prefix + "*" == "*";
    } else {
      var p := prefix + "*";
      assert !IsMeta(prefix[0]);
      assert p[1..] == prefix[1..] + "*";
      assert MetaFree(prefix[1..]) by {
        forall i | 0 <= i < |prefix[1..]| ensures !IsMeta(prefix[1..][i]) {
          assert prefix[1..][i] == prefix[i + 1];
        }
      }
      if |key| > 0 {
        PrefixStar(prefix[1..], key[1..]);
        if StartsWith(key, prefix) {
          assert key[1..][..|prefix| - 1] == key[..|prefix|][1..];
        }
      }
    }
  }

  /** A metacharacter-free pattern matches exactly the key spelled like it. */
  lemma {:induction false} LiteralMatch(pattern: string, key: string)
    requires MetaFree(pattern)
    ensures Match(pattern, key) <==> key == pattern
    decreases |pattern|
  {
    if |pattern| > 0 && |key| > 0 {
      assert !IsMeta(pattern[0]);
      assert MetaFree(pattern[1..]) by {
        forall i | 0 <= i < |pattern[1..]| ensures !IsMeta(pattern[1..][i]) {
          assert pattern[1..][i] == pattern[i + 1];
        }
      }
      LiteralMatch(pattern[1..], key[1..]);
      if key[0] == pattern[0] && key[1..] == pattern[1..] {
        assert key == [key[0]] + key[1..];
        assert pattern == [pattern[0]] + pattern[1..];
      }
    } else if |pattern| > 0 {
      assert !IsMeta(pattern[0]);
    }
  }

  /**
   * What a server's matcher must do for a store's `clear`/`scan` pattern to
   * stay inside its namespace: `prefix*` selects exactly the keys starting
   * with `prefix`.
   */
  ghost predicate SelectsNamespace(glob: (string, string) -> bool, prefix: string) {
    forall k :: glob(prefix + "*", k) <==> StartsWith(k, prefix)
  }

  /** The reference matcher keeps `prefix*` inside the namespace. */
  lemma MatchSelectsNamespace(prefix: string)
    requires MetaFree(prefix)
    ensures SelectsNamespace(Match, prefix)
  {
    forall k ensures Match(prefix + "*", k) <==> StartsWith(k, prefix) {
      PrefixStar(prefix, k);
    }
  }
}
