/**
 * String helpers used by the name classifiers of all four viewers.
 * Strings are `seq<char>`; lower-casing folds ASCII letters only.
 */
module Text {
  import opened Wrappers

  function LowerChar(c: char): char {
    if 'A' <= c <= 'Z' then (c as int + 32) as char else c
  }

  /** `str.lower()` restricted to ASCII letters. */
  function Lower(s: string): (r: string)
    ensures |r| == |s|
    ensures forall i :: 0 <= i < |s| ==> r[i] == LowerChar(s[i])
  {
    if s == [] then [] else [LowerChar(s[0])] + Lower(s[1..])
  }

  predicate StartsWith(s: string, prefix: string) {
    |prefix| <= |s| && s[..|prefix|] == prefix
  }

  predicate EndsWith(s: string, suffix: string) {
    |suffix| <= |s| && s[|s| - |suffix|..] == suffix
  }

  /** Python's `needle in s` for strings: some window of `s` equals `needle`. */
  predicate Contains(s: string, needle: string)
    decreases |s|
  {
    |needle| <= |s| && (s[..|needle|] == needle || (|s| > 0 && Contains(s[1..], needle)))
  }

  /** Case-insensitive containment, the `key.lower() in name.lower()` idiom. */
  predicate ContainsIgnoreCase(s: string, needle: string) {
    Contains(Lower(s), Lower(needle))
  }

  /** `s.replace(pat, rep)`: every non-overlapping occurrence, scanning left to right. */
  function ReplaceAll(s: string, pat: string, rep: string): (r: string)
    requires |pat| > 0
    ensures !Contains(s, pat) ==> r == s
    decreases |s|
  {
    if |s| < |pat| then s
    else if s[..|pat|] == pat then rep + ReplaceAll(s[|pat|..], pat, rep)
    else [s[0]] + ReplaceAll(s[1..], pat, rep)
  }

  /** `s.replace(a, b)` for single characters. */
  function ReplaceChar(s: string, a: char, b: char): (r: string)
    ensures |r| == |s|
    ensures forall i :: 0 <= i < |s| ==> r[i] == (if s[i] == a then b else s[i])
  {
    if s == [] then [] else [if s[0] == a then b else s[0]] + ReplaceChar(s[1..], a, b)
  }

  /** Lower-casing twice is lower-casing once, so every classifier is case-insensitive. */
  lemma LowerIdempotent(s: string)
    ensures Lower(Lower(s)) == Lower(s)
  {
  }

  /** The lower-cased `s` contains `key` (itself lower case): the `key in name.lower()` idiom. */
  predicate Mentions(s: string, key: string) {
    Contains(Lower(s), key)
  }

  /** Some key occurs in `s`, ignoring case. */
  predicate ContainsAny(s: string, keys: seq<string>) {
    exists j | 0 <= j < |keys| :: ContainsIgnoreCase(s, keys[j])
  }

  /**
   * The position of the first key (in list order) that occurs in `s`,
   * ignoring case: the `for key in ...: if key in name: return ...` idiom.
   */
  function FirstMatch(keys: seq<string>, s: string): (r: Option<nat>)
    ensures r.Some? ==> r.value < |keys| && ContainsIgnoreCase(s, keys[r.value])
    ensures r.Some? ==> forall j :: 0 <= j < r.value ==> !ContainsIgnoreCase(s, keys[j])
    ensures r.None? <==> !ContainsAny(s, keys)
  {
    if keys == [] then None
    else if ContainsIgnoreCase(s, keys[0]) then Some(0)
    else
      match FirstMatch(keys[1..], s)
      case None => None
      case Some(k) => Some(k + 1)
  }

  /** `FirstMatch` finds key `i` when it matches and no earlier key does. */
  lemma FirstMatchIs(keys: seq<string>, s: string, i: nat)
    requires i < |keys| && ContainsIgnoreCase(s, keys[i])
    requires forall j :: 0 <= j < i ==> !ContainsIgnoreCase(s, keys[j])
    ensures FirstMatch(keys, s) == Some(i)
  {
    var m := FirstMatch(keys, s);
    assert ContainsAny(s, keys);
  }
}
