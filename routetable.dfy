/**
 * Route definitions and `expandRoutes` (router/internals/routing.js), which flattens a
 * nested route tree into entries with absolute paths and their ancestor chains.
 */
module Routes {
  import opened Wrappers
  import opened Text
  import opened Paths
  import opened Patterns
  import opened Runtime

  /** A route as the application writes it. `transition` and `animationHook` are opaque here. */
  datatype RouteDef = RouteDef(
    path: string,
    view: Option<ComponentRef>,
    component: Option<ComponentRef>,
    layout: Option<ComponentRef>,
    beforeEnter: Option<GuardId>,
    transition: Option<nat>,
    animationHook: Option<nat>,
    children: seq<RouteDef>)

  /** One entry of the flat table `expandRoutes` returns. */
  datatype Entry = Entry(
    path: string,
    fullPath: string,
    view: Option<ComponentRef>,
    component: Option<ComponentRef>,
    layout: Option<ComponentRef>,
    beforeEnter: Option<GuardId>,
    transition: Option<nat>,
    animationHook: Option<nat>,
    parents: seq<Entry>,
    children: seq<RouteDef>)

  /** How an entry's full path follows from the base it is resolved against and its own path. */
  type Resolver = (string, string) -> string

  /** An absolute path is kept; a relative one is joined to `base`; then normalised. */
  function FullPathOf(base: string, path: string): (full: string)
    ensures full == "/" || !EndsWithSlash(full)
    ensures StartsWith(path, "/") ==> full == Normalize(path)
  {
    var raw := if StartsWith(path, "/") then path else if base == "/" then "/" + path else base + "/" + path;
    Normalize(raw)
  }

  function MakeEntry(r: RouteDef, base: string, parents: seq<Entry>): Entry {
    Entry(r.path, FullPathOf(base, r.path), r.view, r.component, r.layout, r.beforeEnter,
          r.transition, r.animationHook, parents, r.children)
  }

  /** The depth-first pre-order flattening of a list of sibling routes. */
  function FlattenList(routes: seq<RouteDef>, base: string, parents: seq<Entry>): seq<Entry>
    decreases routes
  {
    if routes == [] then []
    else FlattenNode(routes[0], base, parents) + FlattenList(routes[1..], base, parents)
  }

  /** A route's entry, followed by the flattening of its children under it. */
  function FlattenNode(r: RouteDef, base: string, parents: seq<Entry>): seq<Entry>
    decreases r
  {
    var e := MakeEntry(r, base, parents);
    [e] + (if |r.children| > 0 then FlattenList(r.children, e.fullPath, parents + [e]) else [])
  }

  /**
   * `expandRoutes(routes, base, parents)`: each route's entry is pushed, then the
   * expansion of its children (with the entry appended to the chain).
   */
  method ExpandRoutes(routes: seq<RouteDef>, base: string, parents: seq<Entry>) returns (out: seq<Entry>)
    ensures out == FlattenList(routes, base, parents)
    decreases routes
  {
    out := [];
    var i := 0;
    while i < |routes|
      invariant 0 <= i <= |routes|
      invariant out + FlattenList(routes[i..], base, parents) == FlattenList(routes, base, parents)
    {
      FlattenListAt(routes, i, base, parents);
      var part := ExpandOne(routes[i], base, parents);
      AppendAssoc(out, part, FlattenList(routes[i + 1..], base, parents));
      out := out + part;
      i := i + 1;
    }
    assert routes[i..] == [];
  }

  /** One iteration of `expandRoutes`' loop: the route's entry, then its children's expansion. */
  method ExpandOne(r: RouteDef, base: string, parents: seq<Entry>) returns (part: seq<Entry>)
    ensures part == FlattenNode(r, base, parents)
    decreases r
  {
    var entry := MakeEntry(r, base, parents);
    part := [entry];
    if |r.children| > 0 {
      var sub := ExpandRoutes(r.children, entry.fullPath, parents + [entry]);
      part := part + sub;
    }
  }

  lemma AppendAssoc(a: seq<Entry>, b: seq<Entry>, c: seq<Entry>)
    ensures (a + b) + c == a + (b + c)
  {
  }

  lemma FlattenListAt(routes: seq<RouteDef>, i: nat, base: string, parents: seq<Entry>)
    requires i < |routes|
    ensures FlattenList(routes[i..], base, parents)
         == FlattenNode(routes[i], base, parents) + FlattenList(routes[i + 1..], base, parents)
  {
    assert routes[i..][0] == routes[i] && routes[i..][1..] == routes[i + 1..];
  }

  // ---------------------------------------------------------------------------------
  // Properties of the flattening

  /** The number of nodes of a route forest. */
  function CountList(routes: seq<RouteDef>): nat
    decreases routes
  {
    if routes == [] then 0 else CountNode(routes[0]) + CountList(routes[1..])
  }

  function CountNode(r: RouteDef): nat
    decreases r
  {
    1 + CountList(r.children)
  }

  /** Exactly one entry per node of the tree. */
  lemma {:induction false} FlattenCount(routes: seq<RouteDef>, base: string, parents: seq<Entry>)
    ensures |FlattenList(routes, base, parents)| == CountList(routes)
    decreases routes
  {
    if routes != [] {
      FlattenNodeCount(routes[0], base, parents);
      FlattenCount(routes[1..], base, parents);
    }
  }

  lemma {:induction false} FlattenNodeCount(r: RouteDef, base: string, parents: seq<Entry>)
    ensures |FlattenNode(r, base, parents)| == CountNode(r)
    decreases r
  {
    if |r.children| > 0 {
      var e := MakeEntry(r, base, parents);
      FlattenCount(r.children, e.fullPath, parents + [e]);
    }
  }

  /**
   * How an entry at index `i` of `out` hangs in the tree: it extends the chain `ps` of
   * the call that produced it; a top-level entry takes its path from `base`; any other
   * entry's innermost parent appears earlier in `out`, with the entry's own chain minus
   * one, and the entry's path is resolved against that parent's full path.
   */
  predicate Chained(out: seq<Entry>, base: string, ps: seq<Entry>, i: nat, resolve: Resolver)
    requires i < |out|
  {
    var e := out[i];
    ps <= e.parents &&
    (if |e.parents| == |ps| then e.fullPath == resolve(base, e.path)
     else
       var p := e.parents[|e.parents| - 1];
       (exists j :: 0 <= j < i && out[j] == p) &&
       p.parents == e.parents[..|e.parents| - 1] &&
       e.fullPath == resolve(p.fullPath, e.path))
  }

  predicate WellChained(out: seq<Entry>, base: string, ps: seq<Entry>, resolve: Resolver) {
    forall i :: 0 <= i < |out| ==> Chained(out, base, ps, i, resolve)
  }

  lemma ChainedShift(a: seq<Entry>, b: seq<Entry>, base: string, ps: seq<Entry>, i: nat, resolve: Resolver)
    requires i < |b| && Chained(b, base, ps, i, resolve)
    ensures Chained(a + b, base, ps, |a| + i, resolve)
  {
    var e := b[i];
    assert (a + b)[|a| + i] == e;
    if |e.parents| != |ps| {
      var p := e.parents[|e.parents| - 1];
      var j :| 0 <= j < i && b[j] == p;
      assert (a + b)[|a| + j] == p;
    }
  }

  lemma ChainedPrefix(a: seq<Entry>, b: seq<Entry>, base: string, ps: seq<Entry>, i: nat, resolve: Resolver)
    requires i < |a| && Chained(a, base, ps, i, resolve)
    ensures Chained(a + b, base, ps, i, resolve)
  {
    var e := a[i];
    assert (a + b)[i] == e;
    if |e.parents| != |ps| {
      var p := e.parents[|e.parents| - 1];
      var j :| 0 <= j < i && a[j] == p;
      assert (a + b)[j] == p;
    }
  }

  lemma WellChainedAppend(a: seq<Entry>, b: seq<Entry>, base: string, ps: seq<Entry>, resolve: Resolver)
    requires WellChained(a, base, ps, resolve) && WellChained(b, base, ps, resolve)
    ensures WellChained(a + b, base, ps, resolve)
  {
    forall i | 0 <= i < |a + b| ensures Chained(a + b, base, ps, i, resolve) {
      if i < |a| {
        ChainedPrefix(a, b, base, ps, i, resolve);
      } else {
        ChainedShift(a, b, base, ps, i - |a|, resolve);
      }
    }
  }

  /**
   * Every entry of the flattening is chained to its parent, which comes before it, and its
   * full path is `FullPathOf` its parent's full path (or `base`) and its own path.
   */
  lemma {:induction false} FlattenWellChained(routes: seq<RouteDef>, base: string, ps: seq<Entry>)
    ensures WellChained(FlattenList(routes, base, ps), base, ps, FullPathOf)
    decreases routes
  {
    if routes != [] {
      var head := FlattenNode(routes[0], base, ps);
      var tail := FlattenList(routes[1..], base, ps);
      assert FlattenList(routes, base, ps) == head + tail;
      FlattenNodeWellChained(routes[0], base, ps);
      FlattenWellChained(routes[1..], base, ps);
      WellChainedAppend(head, tail, base, ps, FullPathOf);
    }
  }

  lemma {:induction false} FlattenNodeWellChained(r: RouteDef, base: string, ps: seq<Entry>)
    ensures WellChained(FlattenNode(r, base, ps), base, ps, FullPathOf)
    decreases r
  {
    var e := MakeEntry(r, base, ps);
    var sub := if |r.children| > 0 then FlattenList(r.children, e.fullPath, ps + [e]) else [];
    assert FlattenNode(r, base, ps) == [e] + sub;
    if |r.children| > 0 {
      FlattenWellChained(r.children, e.fullPath, ps + [e]);
    }
    WellChainedCons(e, sub, base, ps, FullPathOf);
  }

  /** An entry followed by a subtree well chained below it is well chained. */
  lemma WellChainedCons(e: Entry, sub: seq<Entry>, base: string, ps: seq<Entry>, resolve: Resolver)
    requires e.parents == ps && e.fullPath == resolve(base, e.path)
    requires WellChained(sub, e.fullPath, ps + [e], resolve)
    ensures WellChained([e] + sub, base, ps, resolve)
  {
    assert ([e] + sub)[0] == e;
    forall i | 1 <= i < |[e] + sub| ensures Chained([e] + sub, base, ps, i, resolve) {
      ChainedUnder(e, sub, base, ps, i - 1, resolve);
    }
  }

  /** An entry chained below `e` (one level down) is chained below `e`'s own chain. */
  lemma ChainedUnder(e: Entry, sub: seq<Entry>, base: string, ps: seq<Entry>, k: nat, resolve: Resolver)
    requires e.parents == ps
    requires k < |sub| && Chained(sub, e.fullPath, ps + [e], k, resolve)
    ensures Chained([e] + sub, base, ps, k + 1, resolve)
  {
    var out := [e] + sub;
    var c := sub[k];
    assert out[k + 1] == c;
    assert ps <= ps + [e] <= c.parents;
    if |c.parents| == |ps| + 1 {
      assert c.parents == ps + [e];
      assert c.parents[|c.parents| - 1] == e && out[0] == e;
      assert c.parents[..|c.parents| - 1] == ps;
    } else {
      var p := c.parents[|c.parents| - 1];
      var j :| 0 <= j < k && sub[j] == p;
      assert out[j + 1] == p;
    }
  }

  /**
   * In a fresh expansion, an entry with no parents is a top-level one, its full path
   * resolved against "/"; any other entry's innermost parent comes earlier in the
   * expansion, carries the rest of the entry's chain, and is what its path resolves against.
   */
  lemma ParentsOfTopLevel(routes: seq<RouteDef>, i: nat)
    requires i < |FlattenList(routes, "/", [])|
    ensures var e := FlattenList(routes, "/", [])[i];
      e.parents == [] ==> e.fullPath == FullPathOf("/", e.path)
    ensures var flat := FlattenList(routes, "/", []);
      var e := flat[i];
      e.parents != [] ==>
        var p := e.parents[|e.parents| - 1];
        (exists j :: 0 <= j < i && flat[j] == p)
        && p.parents == e.parents[..|e.parents| - 1]
        && e.fullPath == FullPathOf(p.fullPath, e.path)
  {
    FlattenWellChained(routes, "/", []);
    assert Chained(FlattenList(routes, "/", []), "/", [], i, FullPathOf);
  }

  /** The entries `FlattenList` produces for one call level, in input order: one per sibling. */
  function Siblings(out: seq<Entry>, ps: seq<Entry>): seq<Entry> {
    if out == [] then []
    else (if out[0].parents == ps then [out[0]] else []) + Siblings(out[1..], ps)
  }

  lemma {:induction false} SiblingsAppend(a: seq<Entry>, b: seq<Entry>, ps: seq<Entry>)
    ensures Siblings(a + b, ps) == Siblings(a, ps) + Siblings(b, ps)
    decreases |a|
  {
    if a == [] {
      assert a + b == b;
    } else {
      assert (a + b)[0] == a[0] && (a + b)[1..] == a[1..] + b;
      SiblingsAppend(a[1..], b, ps);
    }
  }

  /** Every entry below a level has a longer chain than the level's. */
  lemma {:induction false} FlattenDeeper(routes: seq<RouteDef>, base: string, ps: seq<Entry>)
    ensures forall e :: e in FlattenList(routes, base, ps) ==> ps <= e.parents
    decreases routes
  {
    if routes != [] {
      FlattenNodeDeeper(routes[0], base, ps);
      FlattenDeeper(routes[1..], base, ps);
    }
  }

  lemma {:induction false} FlattenNodeDeeper(r: RouteDef, base: string, ps: seq<Entry>)
    ensures forall e :: e in FlattenNode(r, base, ps) ==> ps <= e.parents
    decreases r
  {
    if |r.children| > 0 {
      var e := MakeEntry(r, base, ps);
      FlattenDeeper(r.children, e.fullPath, ps + [e]);
    }
  }

  lemma {:induction false} NoSiblingsBelow(out: seq<Entry>, ps: seq<Entry>, e: Entry)
    requires forall x :: x in out ==> ps + [e] <= x.parents
    ensures Siblings(out, ps) == []
    decreases |out|
  {
    if out != [] {
      assert out[0] in out;
      assert |out[0].parents| > |ps|;
      assert forall x :: x in out[1..] ==> x in out;
      NoSiblingsBelow(out[1..], ps, e);
    }
  }

  /** A route's own entry is the only entry of its subtree at the route's level. */
  lemma SiblingsOfNode(r: RouteDef, base: string, ps: seq<Entry>)
    ensures Siblings(FlattenNode(r, base, ps), ps) == [MakeEntry(r, base, ps)]
  {
    var e := MakeEntry(r, base, ps);
    var sub := if |r.children| > 0 then FlattenList(r.children, e.fullPath, ps + [e]) else [];
    if |r.children| > 0 {
      FlattenDeeper(r.children, e.fullPath, ps + [e]);
    }
    NoSiblingsBelow(sub, ps, e);
    SiblingsAppend([e], sub, ps);
    assert Siblings([e], ps) == [e] by { assert [e][1..] == []; }
  }

  /** Siblings keep their input order: the level-`ps` entries are exactly the routes' own entries. */
  lemma {:induction false} FlattenSiblings(routes: seq<RouteDef>, base: string, ps: seq<Entry>)
    ensures |Siblings(FlattenList(routes, base, ps), ps)| == |routes|
    ensures forall k :: 0 <= k < |routes| ==> Siblings(FlattenList(routes, base, ps), ps)[k] == MakeEntry(routes[k], base, ps)
    decreases routes
  {
    if routes != [] {
      var head := FlattenNode(routes[0], base, ps);
      var tail := FlattenList(routes[1..], base, ps);
      assert FlattenList(routes, base, ps) == head + tail;
      SiblingsOfNode(routes[0], base, ps);
      SiblingsAppend(head, tail, ps);
      FlattenSiblings(routes[1..], base, ps);
      var rest := Siblings(tail, ps);
      assert Siblings(FlattenList(routes, base, ps), ps) == [MakeEntry(routes[0], base, ps)] + rest;
      forall k | 0 <= k < |routes| ensures ([MakeEntry(routes[0], base, ps)] + rest)[k] == MakeEntry(routes[k], base, ps) {
        if k > 0 { assert routes[k] == routes[1..][k - 1]; }
      }
    }
  }

  lemma NormalizeKeeps(s: string)
    requires !EndsWithSlash(s)
    ensures Normalize(s) == s
  {
    if s != "/" {
      NormalizeUnique(s, s);
    }
  }

  /** A relative child under a non-root parent path gets `parent + "/" + path`. */
  lemma RelativeChildPath(base: string, path: string)
    requires base != "/" && !EndsWithSlash(base)
    requires |path| > 0 && path[0] != '/' && !EndsWithSlash(path)
    ensures FullPathOf(base, path) == base + "/" + path
  {
    var raw := base + "/" + path;
    assert raw[|raw| - 1] == path[|path| - 1];
    NormalizeKeeps(raw);
  }

  /** `[{path: "/a", children: [{path: "b"}]}]` flattens to `/a` followed by `/a/b`. */
  lemma NestedExample()
    ensures var child := RouteDef("b", None, None, None, None, None, None, []);
      var root := RouteDef("/a", None, None, None, None, None, None, [child]);
      var out := FlattenList([root], "/", []);
      |out| == 2 && out[0].fullPath == "/a" && out[1].fullPath == "/a/b"
      && out[0].parents == [] && out[1].parents == [out[0]]
  {
    var child := RouteDef("b", None, None, None, None, None, None, []);
    var root := RouteDef("/a", None, None, None, None, None, None, [child]);
    assert "/a"[..1] == "/";
    NormalizeKeeps("/a");
    assert FullPathOf("/", "/a") == "/a";
    var e0 := MakeEntry(root, "/", []);
    assert "b"[..1] == "b" && "b"[0] != "/"[0];
    assert !StartsWith("b", "/");
    assert "/a" + "/" + "b" == "/a/b";
    NormalizeKeeps("/a/b");
    assert FullPathOf("/a", "b") == "/a/b";
    var e1 := MakeEntry(child, "/a", [e0]);
    assert FlattenNode(child, "/a", [e0]) == [e1];
    assert [child][1..] == [];
    assert FlattenList([child], "/a", [e0]) == [e1];
    assert e0.fullPath == "/a";
    assert [] + [e0] == [e0] && root.children == [child] && |root.children| > 0;
    assert FlattenNode(root, "/", []) == [e0] + FlattenList([child], "/a", [e0]);
    assert FlattenNode(root, "/", []) == [e0, e1];
    assert [root][1..] == [];
    assert FlattenList([root], "/", []) == [e0, e1];
  }

  // ---------------------------------------------------------------------------------
  // Compiled routes (the table `Router`'s constructor builds)

  /** An entry with its compiled pattern; `parents` are still the raw entries. */
  datatype CompiledRoute = CompiledRoute(
    path: string,
    fullPath: string,
    pattern: Compiled,
    view: Option<ComponentRef>,
    component: Option<ComponentRef>,
    layout: Option<ComponentRef>,
    beforeEnter: Option<GuardId>,
    parents: seq<Entry>)

  /** The pattern the router compiles for a full path: a top-level `*` route is the catch-all. */
  function PatternOf(fullPath: string): string {
    if fullPath == "/*" then "*" else fullPath
  }

  function CompileEntry(e: Entry): CompiledRoute {
    CompiledRoute(e.path, e.fullPath, Compile(PatternOf(e.fullPath)), e.view, e.component,
                  e.layout, e.beforeEnter, e.parents)
  }

  /** Only the full paths of a `*` route compile to the catch-all. */
  lemma CatchAllEntry(e: Entry)
    ensures CompileEntry(e).pattern.isCatchAll <==> e.fullPath == "/*" || e.fullPath == "*"
  {
    CompileCatchAll(PatternOf(e.fullPath));
  }

  /** The route renders something: `component || view` is set. */
  predicate HasView(r: CompiledRoute) {
    r.component.Some? || r.view.Some?
  }
}
