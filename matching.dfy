/**
 * Matching a pathname against the compiled route table: the first-match loop inlined
 * in router/internals/render.js and router/Router.js (`#match`), and the ranking
 * matcher `matchPathname` (router/internals/matching/matchPathname.js).
 */
module Matching {
  import opened Wrappers
  import opened Text
  import opened Patterns
  import opened Routes

  /** `values[i] ?? ""`: a missing capture reads as the empty string. */
  function ValueAt(values: seq<string>, i: nat): string {
    if i < |values| then values[i] else ""
  }

  /**
   * `r.keys.forEach((k, i) => { params[k] = decode(values[i] ?? "") })`: the keys are
   * written in order, so when a key repeats the later capture overwrites the earlier.
   * `decode` stands for `decodeURIComponent`.
   */
  function Params(keys: seq<string>, values: seq<string>, decode: string -> string): (m: map<string, string>)
    ensures m.Keys == set k | k in keys
    decreases |keys|
  {
    if keys == [] then map[]
    else
      var n := |keys| - 1;
      assert forall k :: k in keys <==> k in keys[..n] || k == keys[n];
      Params(keys[..n], values, decode)[keys[n] := decode(ValueAt(values, n))]
  }

  /** The `forEach` loop that fills `params`. */
  method FillParams(keys: seq<string>, values: seq<string>, decode: string -> string)
    returns (params: map<string, string>)
    ensures params == Params(keys, values, decode)
  {
    params := map[];
    var i := 0;
    while i < |keys|
      invariant 0 <= i <= |keys|
      invariant params == Params(keys[..i], values, decode)
    {
      assert keys[..i + 1][..i] == keys[..i];
      params := params[keys[i] := decode(ValueAt(values, i))];
      i := i + 1;
    }
    assert keys[..i] == keys;
  }

  /** A key that does not occur again gets the decoded capture at its own position. */
  lemma {:induction false} ParamsLastWins(keys: seq<string>, values: seq<string>, decode: string -> string, i: nat)
    requires i < |keys|
    requires forall j :: i < j < |keys| ==> keys[j] != keys[i]
    ensures keys[i] in Params(keys, values, decode)
    ensures Params(keys, values, decode)[keys[i]] == decode(ValueAt(values, i))
    decreases |keys|
  {
    var n := |keys| - 1;
    if i < n {
      ParamsLastWins(keys[..n], values, decode, i);
    }
  }

  /** A compiled pattern yields exactly one capture per key, so `?? ""` never fires on it. */
  lemma CapturesMatchKeys(path: string, s: string)
    requires Exec(Compile(path).regex, s).Some?
    ensures |Exec(Compile(path).regex, s).value| == |Compile(path).keys|
  {
    if path != "*" {
      MatchFromSound(Lex(path), s);
    }
  }

  /** `{ route, params }`. */
  datatype RouteMatch = RouteMatch(route: CompiledRoute, params: map<string, string>)

  predicate Matches(r: CompiledRoute, pathname: string) {
    Exec(r.pattern.regex, pathname).Some?
  }

  /** The match object built for a route whose expression matches. */
  function MatchOf(r: CompiledRoute, pathname: string, decode: string -> string): RouteMatch
    requires Matches(r, pathname)
  {
    RouteMatch(r, Params(r.pattern.keys, Exec(r.pattern.regex, pathname).value, decode))
  }

  /** One route of the table tried in turn: its match object, or nothing. */
  method TryRoute(r: CompiledRoute, pathname: string, decode: string -> string) returns (m: Option<RouteMatch>)
    ensures m.None? <==> !Matches(r, pathname)
    ensures m.Some? ==> Matches(r, pathname) && m.value == MatchOf(r, pathname, decode)
  {
    var caps := Exec(r.pattern.regex, pathname);
    if caps.None? {
      return None;
    }
    var params := FillParams(r.pattern.keys, caps.value, decode);
    m := Some(RouteMatch(r, params));
  }

  // ---------------------------------------------------------------------------------
  // First match (the loop in `renderPipeline` and `Router#match`)

  /** Route `i` matches and no earlier route does. */
  predicate FirstAt(routes: seq<CompiledRoute>, pathname: string, i: nat) {
    i < |routes| && Matches(routes[i], pathname)
    && forall j :: 0 <= j < i ==> !Matches(routes[j], pathname)
  }

  /** Routes are tried in table order and the first that matches wins. */
  method FirstMatch(pathname: string, routes: seq<CompiledRoute>, decode: string -> string)
    returns (m: Option<RouteMatch>)
    ensures m.None? <==> forall i :: 0 <= i < |routes| ==> !Matches(routes[i], pathname)
    ensures m.Some? ==> exists i: nat :: FirstAt(routes, pathname, i) && m.value == MatchOf(routes[i], pathname, decode)
  {
    var i := 0;
    while i < |routes|
      invariant 0 <= i <= |routes|
      invariant forall j :: 0 <= j < i ==> !Matches(routes[j], pathname)
    {
      var t := TryRoute(routes[i], pathname, decode);
      if t.Some? {
        assert FirstAt(routes, pathname, i);
        return t;
      }
      i := i + 1;
    }
    return None;
  }

  // ---------------------------------------------------------------------------------
  // Ranking (`matchPathname`)

  /**
   * The comparator handed to `matches.sort`: a negative result puts `a` first. A
   * non-catch-all beats the catch-all, then a route with a view beats one without, then
   * the longer full path wins (`fullPath.length`, in UTF-16 code units), then the
   * deeper nesting.
   */
  function Compare(a: CompiledRoute, b: CompiledRoute): (c: int)
    ensures c == 0 <==> a.pattern.isCatchAll == b.pattern.isCatchAll && HasView(a) == HasView(b)
                        && Utf16Length(a.fullPath) == Utf16Length(b.fullPath) && |a.parents| == |b.parents|
    ensures a.pattern.isCatchAll && !b.pattern.isCatchAll ==> c > 0
  {
    if a.pattern.isCatchAll != b.pattern.isCatchAll then (if a.pattern.isCatchAll then 1 else -1)
    else if HasView(a) != HasView(b) then (if HasView(a) then -1 else 1)
    else if Utf16Length(a.fullPath) != Utf16Length(b.fullPath) then Utf16Length(b.fullPath) - Utf16Length(a.fullPath)
    else |b.parents| - |a.parents|
  }

  /** The comparator is consistent: swapping its arguments negates it. */
  lemma CompareAntisymmetric(a: CompiledRoute, b: CompiledRoute)
    ensures Compare(a, b) == -Compare(b, a)
    ensures Compare(a, a) == 0
  {
  }

  /** The comparator is transitive, strictly so when either step is strict. */
  lemma CompareTransitive(a: CompiledRoute, b: CompiledRoute, c: CompiledRoute)
    requires Compare(a, b) <= 0 && Compare(b, c) <= 0
    ensures Compare(a, c) <= 0
    ensures Compare(a, b) < 0 || Compare(b, c) < 0 ==> Compare(a, c) < 0
  {
  }

  /**
   * `matches.sort(cmp)[0]`. `Array.prototype.sort` is stable, so the head of the sorted
   * list is the earliest of the matches no other match ranks before.
   */
  method SelectBest(matches: seq<RouteMatch>) returns (b: nat)
    requires |matches| > 0
    ensures b < |matches|
    ensures forall k :: 0 <= k < |matches| ==> Compare(matches[b].route, matches[k].route) <= 0
    ensures forall k :: 0 <= k < b ==> Compare(matches[k].route, matches[b].route) > 0
  {
    b := 0;
    var k := 1;
    while k < |matches|
      invariant b < k <= |matches|
      invariant forall q :: 0 <= q < k ==> Compare(matches[b].route, matches[q].route) <= 0
      invariant forall q :: 0 <= q < b ==> Compare(matches[q].route, matches[b].route) > 0
    {
      if Compare(matches[k].route, matches[b].route) < 0 {
        forall q | 0 <= q < k ensures Compare(matches[k].route, matches[q].route) < 0 {
          CompareTransitive(matches[k].route, matches[b].route, matches[q].route);
        }
        forall q | 0 <= q < k ensures Compare(matches[q].route, matches[k].route) > 0 {
          CompareAntisymmetric(matches[q].route, matches[k].route);
        }
        b := k;
      } else {
        CompareAntisymmetric(matches[k].route, matches[b].route);
      }
      k := k + 1;
    }
  }

  /**
   * Route `i` is what `matchPathname` returns: it matches, no matching route ranks
   * before it, and every earlier matching route ranks strictly after it.
   */
  predicate Chosen(routes: seq<CompiledRoute>, pathname: string, i: nat) {
    i < |routes| && Matches(routes[i], pathname)
    && (forall j :: 0 <= j < |routes| && Matches(routes[j], pathname) ==> Compare(routes[i], routes[j]) <= 0)
    && (forall j :: 0 <= j < i && Matches(routes[j], pathname) ==> Compare(routes[j], routes[i]) > 0)
  }

  /**
   * What the first loop of `matchPathname` has gathered after the routes before `i`:
   * the match objects of exactly the matching ones, in table order, with `idx` their
   * positions.
   */
  ghost predicate Collected(pathname: string, routes: seq<CompiledRoute>, decode: string -> string, i: nat,
                            matches: seq<RouteMatch>, idx: seq<nat>) {
    i <= |routes| && |idx| == |matches|
    && (forall k :: 0 <= k < |idx| ==>
          idx[k] < i && Matches(routes[idx[k]], pathname) && matches[k] == MatchOf(routes[idx[k]], pathname, decode))
    && (forall k, q :: 0 <= k < q < |idx| ==> idx[k] < idx[q])
    && (forall j :: 0 <= j < i && Matches(routes[j], pathname) ==> exists k :: 0 <= k < |idx| && idx[k] == j)
  }

  /** A matching route `i` is appended with its match object. */
  lemma CollectedSnoc(pathname: string, routes: seq<CompiledRoute>, decode: string -> string, i: nat,
                      matches: seq<RouteMatch>, idx: seq<nat>)
    requires Collected(pathname, routes, decode, i, matches, idx)
    requires i < |routes| && Matches(routes[i], pathname)
    ensures Collected(pathname, routes, decode, i + 1, matches + [MatchOf(routes[i], pathname, decode)], idx + [i])
  {
    var idx', matches' := idx + [i], matches + [MatchOf(routes[i], pathname, decode)];
    assert forall k :: 0 <= k < |idx| ==> idx'[k] == idx[k] && matches'[k] == matches[k];
    assert idx'[|idx|] == i && matches'[|idx|] == MatchOf(routes[i], pathname, decode);
    forall j | 0 <= j < i + 1 && Matches(routes[j], pathname)
      ensures exists k :: 0 <= k < |idx'| && idx'[k] == j
    {
      if j == i {
        assert idx'[|idx|] == j;
      } else {
        var k :| 0 <= k < |idx| && idx[k] == j;
        assert idx'[k] == j;
      }
    }
  }

  /** A route that does not match leaves what was gathered as it is. */
  lemma CollectedSkip(pathname: string, routes: seq<CompiledRoute>, decode: string -> string, i: nat,
                      matches: seq<RouteMatch>, idx: seq<nat>)
    requires Collected(pathname, routes, decode, i, matches, idx)
    requires i < |routes| && !Matches(routes[i], pathname)
    ensures Collected(pathname, routes, decode, i + 1, matches, idx)
  {
  }

  /** The first loop of `matchPathname`: the match objects of all matching routes, in order. */
  method CollectMatches(pathname: string, routes: seq<CompiledRoute>, decode: string -> string)
    returns (matches: seq<RouteMatch>, ghost idx: seq<nat>)
    ensures |idx| == |matches|
    ensures forall k :: 0 <= k < |idx| ==>
      idx[k] < |routes| && Matches(routes[idx[k]], pathname) && matches[k] == MatchOf(routes[idx[k]], pathname, decode)
    ensures forall k, q :: 0 <= k < q < |idx| ==> idx[k] < idx[q]
    ensures forall j :: 0 <= j < |routes| && Matches(routes[j], pathname) ==> exists k :: 0 <= k < |idx| && idx[k] == j
  {
    matches := [];
    idx := [];
    var i := 0;
    while i < |routes|
      invariant Collected(pathname, routes, decode, i, matches, idx)
    {
      var t := TryRoute(routes[i], pathname, decode);
      if t.Some? {
        CollectedSnoc(pathname, routes, decode, i, matches, idx);
        matches := matches + [t.value];
        idx := idx + [i];
      } else {
        CollectedSkip(pathname, routes, decode, i, matches, idx);
      }
      i := i + 1;
    }
  }

  /**
   * `matchPathname(pathname, routes)`: no match when no route matches; otherwise the
   * best-ranked match, the earliest in table order among equally ranked ones.
   */
  method MatchPathname(pathname: string, routes: seq<CompiledRoute>, decode: string -> string)
    returns (m: Option<RouteMatch>)
    ensures m.None? <==> forall i :: 0 <= i < |routes| ==> !Matches(routes[i], pathname)
    ensures m.Some? ==> exists i: nat :: Chosen(routes, pathname, i) && m.value == MatchOf(routes[i], pathname, decode)
  {
    var matches, idx := CollectMatches(pathname, routes, decode);
    if |matches| == 0 {
      return None;
    }
    var b := SelectBest(matches);
    ChosenFromBest(pathname, routes, decode, matches, idx, b);
    m := Some(matches[b]);
  }

  /** The best of the collected matches is the chosen route. */
  lemma ChosenFromBest(pathname: string, routes: seq<CompiledRoute>, decode: string -> string,
                       matches: seq<RouteMatch>, idx: seq<nat>, b: nat)
    requires |idx| == |matches| && b < |matches|
    requires forall k :: 0 <= k < |idx| ==>
      idx[k] < |routes| && Matches(routes[idx[k]], pathname) && matches[k] == MatchOf(routes[idx[k]], pathname, decode)
    requires forall k, q :: 0 <= k < q < |idx| ==> idx[k] < idx[q]
    requires forall j :: 0 <= j < |routes| && Matches(routes[j], pathname) ==> exists k :: 0 <= k < |idx| && idx[k] == j
    requires forall k :: 0 <= k < |matches| ==> Compare(matches[b].route, matches[k].route) <= 0
    requires forall k :: 0 <= k < b ==> Compare(matches[k].route, matches[b].route) > 0
    ensures Chosen(routes, pathname, idx[b]) && matches[b] == MatchOf(routes[idx[b]], pathname, decode)
  {
    var i := idx[b];
    forall j | 0 <= j < |routes| && Matches(routes[j], pathname)
      ensures Compare(routes[i], routes[j]) <= 0
      ensures j < i ==> Compare(routes[j], routes[i]) > 0
    {
      var k :| 0 <= k < |idx| && idx[k] == j;
      assert matches[k].route == routes[j];
      if j < i {
        assert k < b;
      }
    }
  }

  /** The catch-all is chosen only when nothing else matches. */
  lemma ChosenAvoidsCatchAll(routes: seq<CompiledRoute>, pathname: string, i: nat, j: nat)
    requires Chosen(routes, pathname, i)
    requires j < |routes| && Matches(routes[j], pathname) && !routes[j].pattern.isCatchAll
    ensures !routes[i].pattern.isCatchAll
  {
    assert Compare(routes[i], routes[j]) <= 0;
  }

  /** Among non-catch-all matches, a route that renders something beats one that does not. */
  lemma ChosenPrefersView(routes: seq<CompiledRoute>, pathname: string, i: nat, j: nat)
    requires Chosen(routes, pathname, i)
    requires j < |routes| && Matches(routes[j], pathname) && HasView(routes[j])
    requires routes[i].pattern.isCatchAll == routes[j].pattern.isCatchAll
    ensures HasView(routes[i])
  {
    assert Compare(routes[i], routes[j]) <= 0;
  }

  /** At equal catch-all and view rank, the chosen full path is at least as long. */
  lemma ChosenPrefersLonger(routes: seq<CompiledRoute>, pathname: string, i: nat, j: nat)
    requires Chosen(routes, pathname, i)
    requires j < |routes| && Matches(routes[j], pathname)
    requires routes[i].pattern.isCatchAll == routes[j].pattern.isCatchAll && HasView(routes[i]) == HasView(routes[j])
    ensures Utf16Length(routes[j].fullPath) <= Utf16Length(routes[i].fullPath)
    ensures Utf16Length(routes[j].fullPath) == Utf16Length(routes[i].fullPath) ==> |routes[j].parents| <= |routes[i].parents|
  {
    assert Compare(routes[i], routes[j]) <= 0;
  }

  /**
   * Lengths are compared in UTF-16 code units: `/\u{1F600}` (three units, two characters)
   * ties with `/:x`, so neither ranks first and table order decides.
   */
  lemma CompareCountsUtf16(a: CompiledRoute, b: CompiledRoute)
    requires a.fullPath == "/\U{1F600}" && b.fullPath == "/:x"
    requires !a.pattern.isCatchAll && !b.pattern.isCatchAll && HasView(a) && HasView(b)
    requires a.parents == [] && b.parents == []
    ensures Compare(a, b) == 0 && Compare(b, a) == 0
  {
    Utf16LengthExamples();
    assert "/:x"[1..] == ":x" && ":x"[1..] == "x" && "x"[1..] == "";
  }

  /** Exactly one route is chosen for a pathname. */
  lemma ChosenUnique(routes: seq<CompiledRoute>, pathname: string, i: nat, i': nat)
    requires Chosen(routes, pathname, i) && Chosen(routes, pathname, i')
    ensures i == i'
  {
  }

  /** The table is in ranking order: no route ranks before an earlier one. */
  predicate RankSorted(routes: seq<CompiledRoute>) {
    forall a, b :: 0 <= a < b < |routes| ==> Compare(routes[a], routes[b]) <= 0
  }

  /** On a table already in ranking order, the first match is the one `matchPathname` picks. */
  lemma FirstIsChosenWhenSorted(routes: seq<CompiledRoute>, pathname: string, i: nat)
    requires RankSorted(routes) && FirstAt(routes, pathname, i)
    ensures Chosen(routes, pathname, i)
  {
    forall j | 0 <= j < |routes| && Matches(routes[j], pathname) ensures Compare(routes[i], routes[j]) <= 0 {
      if j > i {
        assert Compare(routes[i], routes[j]) <= 0;
      } else {
        CompareAntisymmetric(routes[i], routes[j]);
      }
    }
  }
}
