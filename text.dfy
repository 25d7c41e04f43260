/**
 * The few string operations of JavaScript's `String.prototype` that the router relies on:
 * `startsWith`, `includes` and `replace` with a literal search string (which replaces the
 * first occurrence only), and `length`, which counts UTF-16 code units.
 */
module Text {
  import opened Wrappers

  predicate StartsWith(s: string, prefix: string) {
    |prefix| <= |s| && s[..|prefix|] == prefix
  }

  predicate OccursAt(s: string, pat: string, k: nat) {
    k + |pat| <= |s| && s[k..k + |pat|] == pat
  }

  /** The first index at or after `from` where `pat` occurs in `s`. */
  function IndexFrom(s: string, pat: string, from: nat): (r: Option<nat>)
    requires from <= |s|
    ensures r.Some? ==> from <= r.value && OccursAt(s, pat, r.value)
    ensures r.Some? ==> forall k :: from <= k < r.value ==> !OccursAt(s, pat, k)
    ensures r.None? ==> forall k :: from <= k ==> !OccursAt(s, pat, k)
    decreases |s| - from
  {
    if from + |pat| > |s| then None
    else if s[from..from + |pat|] == pat then Some(from)
    else if from == |s| then None
    else IndexFrom(s, pat, from + 1)
  }

  /** `s.indexOf(pat)`, with `None` for -1. */
  function IndexOf(s: string, pat: string): Option<nat> {
    IndexFrom(s, pat, 0)
  }

  /** `s.includes(pat)`. */
  predicate Contains(s: string, pat: string) {
    IndexOf(s, pat).Some?
  }

  /**
   * `s.replace(pat, with)` for a string `pat`: the first occurrence of `pat` is cut out
   * and `with` is spliced in its place, taken literally (the `$` patterns of the
   * replacement string are not modelled). Without an occurrence, `s` is returned.
   */
  function ReplaceFirst(s: string, pat: string, with: string): (r: string)
    ensures IndexOf(s, pat).None? ==> r == s
    ensures IndexOf(s, pat).Some? ==>
      var k := IndexOf(s, pat).value;
      r == s[..k] + with + s[k + |pat|..] && |r| == |s| - |pat| + |with|
  {
    match IndexOf(s, pat)
    case None => s
    case Some(k) => s[..k] + with + s[k + |pat|..]
  }

  /** `includes` finds an occurrence exactly when there is one somewhere. */
  lemma ContainsIffOccurs(s: string, pat: string)
    ensures Contains(s, pat) <==> exists k: nat :: OccursAt(s, pat, k)
  {
    if !Contains(s, pat) {
      assert forall k: nat :: !OccursAt(s, pat, k);
    }
  }

  /** UTF-16 code units of one character: two for a character outside the Basic Multilingual Plane. */
  function Utf16Units(c: char): nat {
    if c as int >= 0x1_0000 then 2 else 1
  }

  /** `s.length`: the number of UTF-16 code units of `s`. */
  function Utf16Length(s: string): (n: nat)
    ensures |s| <= n <= 2 * |s|
    ensures n == |s| <==> forall i :: 0 <= i < |s| ==> s[i] as int < 0x1_0000
  {
    if s == [] then 0 else Utf16Units(s[0]) + Utf16Length(s[1..])
  }

  /** `"/a".length` is 2 and `"/\u{1F600}".length` is 3: the emoji is a surrogate pair. */
  lemma Utf16LengthExamples()
    ensures Utf16Length("/a") == 2
    ensures Utf16Length("/\U{1F600}") == 3 && |"/\U{1F600}"| == 2
  {
    assert "/a"[1..] == "a" && "a"[1..] == "";
    assert "/\U{1F600}"[1..] == "\U{1F600}" && "\U{1F600}"[1..] == "";
  }
}
