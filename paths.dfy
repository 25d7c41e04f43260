/**
 * `normalize` and `parseQuery` (router/internals/routing.js and its copy
 * router/routerTools.js).
 */
module Paths {

  predicate EndsWithSlash(s: string) {
    |s| > 0 && s[|s| - 1] == '/'
  }

  /** `s.replace(/\/+$/, "")`: the whole trailing run of `/` is cut off. */
  function StripTrailingSlashes(s: string): (r: string)
    ensures r <= s
    ensures !EndsWithSlash(r)
    ensures forall i :: |r| <= i < |s| ==> s[i] == '/'
    decreases |s|
  {
    if EndsWithSlash(s) then StripTrailingSlashes(s[..|s| - 1]) else s
  }

  /** `normalize(path)`: `"/"` stays, every other path loses its trailing slashes. */
  function Normalize(path: string): (r: string)
    ensures path == "/" ==> r == "/"
    ensures path != "/" ==> r <= path && !EndsWithSlash(r)
    ensures path != "/" ==> forall i :: |r| <= i < |path| ==> path[i] == '/'
  {
    if path != "/" then StripTrailingSlashes(path) else "/"
  }

  /** The three clauses of `Normalize`'s contract pin the result down: nothing else satisfies them. */
  lemma {:induction false} NormalizeUnique(path: string, r: string)
    requires path != "/"
    requires r <= path && !EndsWithSlash(r)
    requires forall i :: |r| <= i < |path| ==> path[i] == '/'
    ensures r == Normalize(path)
  {
  }

  /** A normalized path ends in `/` only when it is `"/"` itself. */
  lemma NormalizeNoTrailingSlash(path: string)
    ensures EndsWithSlash(Normalize(path)) ==> Normalize(path) == "/"
  {
  }

  /** `normalize` is idempotent. */
  lemma NormalizeIdempotent(path: string)
    ensures Normalize(Normalize(path)) == Normalize(path)
  {
    var n := Normalize(path);
    if n != "/" {
      NormalizeUnique(n, n);
    }
  }

  /** Worked cases: `"/a//"` becomes `"/a"`, `"//"` becomes the empty path. */
  lemma NormalizeExamples()
    ensures Normalize("/a//") == "/a"
    ensures Normalize("//") == ""
    ensures Normalize("/") == "/"
  {
    NormalizeUnique("/a//", "/a");
    NormalizeUnique("//", "");
  }

  /**
   * `Object.fromEntries(entries)`: entries are written in order, so a later entry
   * overwrites an earlier one with the same key.
   */
  function FromEntries(es: seq<(string, string)>): (m: map<string, string>)
    ensures m.Keys == set e | e in es :: e.0
    decreases |es|
  {
    if es == [] then map[]
    else
      var last := es[|es| - 1];
      var init := es[..|es| - 1];
      assert forall e :: e in es <==> e in init || e == last;
      FromEntries(init)[last.0 := last.1]
  }

  /**
   * `parseQuery(search)`. `URLSearchParams` is not modelled: `searchEntries` stands for
   * the list of decoded `[key, value]` pairs it yields for `search`.
   */
  function ParseQuery(search: string, searchEntries: string -> seq<(string, string)>): (q: map<string, string>)
    ensures q.Keys == set e | e in searchEntries(search) :: e.0
  {
    FromEntries(searchEntries(search))
  }

  /** A repeated query key keeps the value of its last occurrence. */
  lemma {:induction false} FromEntriesLastWins(es: seq<(string, string)>, i: nat)
    requires i < |es|
    requires forall j :: i < j < |es| ==> es[j].0 != es[i].0
    ensures es[i].0 in FromEntries(es) && FromEntries(es)[es[i].0] == es[i].1
    decreases |es|
  {
    if i < |es| - 1 {
      var init := es[..|es| - 1];
      FromEntriesLastWins(init, i);
    }
  }

  /** `parseQuery` keeps the last value of every key its entries mention. */
  lemma ParseQueryLastWins(search: string, searchEntries: string -> seq<(string, string)>, i: nat)
    requires i < |searchEntries(search)|
    requires forall j :: i < j < |searchEntries(search)| ==> searchEntries(search)[j].0 != searchEntries(search)[i].0
    ensures var es := searchEntries(search);
      es[i].0 in ParseQuery(search, searchEntries) && ParseQuery(search, searchEntries)[es[i].0] == es[i].1
  {
    FromEntriesLastWins(searchEntries(search), i);
  }
}
