/**
 * The `Router` class (router/Router.js): option checking and route compilation in the
 * constructor, the choice of the not-found route, `start`/`stop`, `navigateTo` with its
 * veto, the id-less `#render` (through the view phase it shares with the pipeline),
 * `#onPopState` and `#onClick`.
 */
module SpaRouter {
  import opened Wrappers
  import opened Text
  import opened Paths
  import opened Context
  import opened Runtime
  import opened Patterns
  import opened Routes
  import opened Matching
  import opened Guards
  import opened Components
  import opened Render
  import opened Events

  /**
   * What `await onBeforeNavigate(url)` yields: exactly `false`, another falsy value, a
   * truthy one, or a rejection (the hook throws or its promise rejects).
   */
  datatype VetoAnswer = ExactlyFalse | OtherFalsy | Truthy | Fails

  /** `navigateTo`'s `opts`: `replace`, and `state ?? null`. */
  datatype NavOpts = NavOpts(replace: bool, state: HistState)

  /** The options the constructor reads; an empty `notFoundPath` stands for an absent one. */
  datatype Options = Options(routes: seq<RouteDef>, notFoundPath: string, mountSelector: Option<string>,
                             linkSelector: Option<string>, transition: bool,
                             onBeforeNavigate: Option<string -> VetoAnswer>)

  /** The two errors the constructor throws. */
  datatype CreateError = NoRoutes | NoMount

  /** How `navigateTo` ends: cancelled by the veto, rejected with the veto's error, or after its render. */
  datatype NavResult = Vetoed | Failed | Went(exit: RenderExit)

  /** The part of the world a navigation changes: the scene, the location, the history state, the next serial. */
  datatype World = World(scene: Scene, loc: Location, hs: HistState, serial: nat)

  /** `w` with `evs` appended to its trace. */
  function Appended(w: World, evs: seq<Event>): World {
    w.(scene := w.scene.(trace := w.scene.trace + evs))
  }

  /** How a render ended: its exit, the route it chose, and the navigation a redirect started. */
  datatype RenderRun = RenderRun(exit: RenderExit, chosen: Option<RouteMatch>, redirect: Option<NavRun>)

  /** How a navigation ended: vetoed, rejected, or with the render it ran. */
  datatype NavRun = VetoedRun | FailedRun | WentRun(render: RenderRun)

  /**
   * The browser around the router: `window.location` and `history.state`, which
   * `pushState`/`replaceState` set, and the parsers the router calls.
   */
  class Browser {
    var loc: Location
    var histState: HistState
    const origin: string
    /** Where the location is after `pushState(…, "", url)` from `loc`: `url` resolved against the document URL. */
    const locate: (Location, string) -> Location
    /** `new URLSearchParams(search)`'s entries. */
    const searchEntries: string -> seq<(string, string)>
    /** `decodeURIComponent`. */
    const decode: string -> string
    /** `new URL(href, origin)`. */
    const resolve: (string, string) -> Url

    constructor (loc: Location, origin: string, locate: (Location, string) -> Location,
                 searchEntries: string -> seq<(string, string)>, decode: string -> string,
                 resolve: (string, string) -> Url)
      ensures this.loc == loc && histState == NullState && this.origin == origin && this.locate == locate
      ensures this.searchEntries == searchEntries && this.decode == decode && this.resolve == resolve
    {
      this.loc := loc;
      histState := NullState;
      this.origin := origin;
      this.locate := locate;
      this.searchEntries := searchEntries;
      this.decode := decode;
      this.resolve := resolve;
    }
  }

  /** The compiled table: `expandRoutes(routes, "/").map(...)`. */
  function CompiledTable(defs: seq<RouteDef>): (table: seq<CompiledRoute>)
    ensures |table| == |FlattenList(defs, "/", [])|
    ensures forall i :: 0 <= i < |table| ==> table[i] == CompileEntry(FlattenList(defs, "/", [])[i])
  {
    var flat := FlattenList(defs, "/", []);
    seq(|flat|, i requires 0 <= i < |flat| => CompileEntry(flat[i]))
  }

  /** The `map` callback's loop: each entry compiled with `pathToRegex`. */
  method CompileRoutes(flat: seq<Entry>) returns (table: seq<CompiledRoute>)
    ensures |table| == |flat| && forall i :: 0 <= i < |flat| ==> table[i] == CompileEntry(flat[i])
  {
    table := [];
    var i := 0;
    while i < |flat|
      invariant 0 <= i <= |flat|
      invariant |table| == i && forall k :: 0 <= k < i ==> table[k] == CompileEntry(flat[k])
    {
      var e := flat[i];
      var pattern := PathToRegex(PatternOf(e.fullPath));
      table := table + [CompiledRoute(e.path, e.fullPath, pattern, e.view, e.component, e.layout,
                                      e.beforeEnter, e.parents)];
      i := i + 1;
    }
  }

  /** `routes.find((r) => r.isCatchAll)`, as an index. */
  function FirstCatchAll(routes: seq<CompiledRoute>): (i: Option<nat>)
    ensures i.Some? ==> i.value < |routes| && routes[i.value].pattern.isCatchAll
                        && forall k :: 0 <= k < i.value ==> !routes[k].pattern.isCatchAll
    ensures i.None? ==> forall k :: 0 <= k < |routes| ==> !routes[k].pattern.isCatchAll
  {
    if routes == [] then None
    else if routes[0].pattern.isCatchAll then Some(0)
    else
      var j := FirstCatchAll(routes[1..]);
      if j.Some? then Some(j.value + 1) else None
  }

  /** Route `r` is the one `notFoundPath` names. */
  predicate Named(r: CompiledRoute, p: string) {
    r.fullPath == p || r.path == p
  }

  /** `routes.find((r) => r.fullPath === p || r.path === p)`, as an index. */
  function FirstNamed(routes: seq<CompiledRoute>, p: string): (i: Option<nat>)
    ensures i.Some? ==> i.value < |routes| && Named(routes[i.value], p)
                        && forall k :: 0 <= k < i.value ==> !Named(routes[k], p)
    ensures i.None? ==> forall k :: 0 <= k < |routes| ==> !Named(routes[k], p)
  {
    if routes == [] then None
    else if Named(routes[0], p) then Some(0)
    else
      var j := FirstNamed(routes[1..], p);
      if j.Some? then Some(j.value + 1) else None
  }

  /**
   * The not-found route: the first catch-all; else, when `notFoundPath` is given, the
   * first route it names; else none.
   */
  function ChooseNotFound(routes: seq<CompiledRoute>, notFoundPath: string): (r: Option<CompiledRoute>)
    ensures FirstCatchAll(routes).Some? ==> r == Some(routes[FirstCatchAll(routes).value])
    ensures FirstCatchAll(routes).None? && notFoundPath != "" && FirstNamed(routes, notFoundPath).Some? ==>
      r == Some(routes[FirstNamed(routes, notFoundPath).value])
    ensures r.None? <==>
      FirstCatchAll(routes).None? && (notFoundPath == "" || FirstNamed(routes, notFoundPath).None?)
  {
    var c := FirstCatchAll(routes);
    if c.Some? then Some(routes[c.value])
    else if notFoundPath != "" then
      var n := FirstNamed(routes, notFoundPath);
      if n.Some? then Some(routes[n.value]) else None
    else None
  }

  /** A top-level `*` route gets the full path "/" + "*", which compiles to the catch-all. */
  lemma TopLevelStarIsCatchAll(d: RouteDef)
    requires d.path == "*"
    ensures FullPathOf("/", d.path) == "/*"
    ensures CompileEntry(MakeEntry(d, "/", [])).pattern.isCatchAll
  {
    assert !StartsWith("*", "/") by { assert "*"[..1][0] == '*' && "/"[0] == '/'; }
    assert !EndsWithSlash("/*") by { assert "/*"[1] != '/'; }
    NormalizeNoTrailingSlash("/*");
  }

  lemma PrefixOfAppend(a: seq<Event>, x: seq<Event>, c: seq<Event>)
    requires a + x <= c
    ensures a <= c
  {
    assert c[..|a|] == (a + x)[..|a|] == a;
  }

  class Router {
    var started: bool
    const routes: seq<CompiledRoute>
    const notFound: Option<CompiledRoute>
    const linkSelector: string
    const transition: bool
    const onBeforeNavigate: Option<string -> VetoAnswer>
    const mount: MountPoint
    /** Holds `#currentView` and `#currentLayouts`; its `renderId` and `busy` are unused here. */
    const current: RenderState
    const host: Host
    /** The loader cache of `ensureComponent`, shared by every router. */
    const cache: ComponentCache
    const browser: Browser

    ghost predicate Valid()
      reads this, cache
    {
      cache.Valid(host.loads)
    }

    constructor (routes: seq<CompiledRoute>, notFound: Option<CompiledRoute>, linkSelector: string,
                 transition: bool, onBeforeNavigate: Option<string -> VetoAnswer>, mount: MountPoint,
                 host: Host, cache: ComponentCache, browser: Browser)
      ensures !started && this.routes == routes && this.notFound == notFound
      ensures this.linkSelector == linkSelector && this.transition == transition
      ensures this.onBeforeNavigate == onBeforeNavigate && this.mount == mount
      ensures this.host == host && this.cache == cache && this.browser == browser
      ensures fresh(current) && current.currentView == None && current.currentLayouts == []
    {
      started := false;
      this.routes := routes;
      this.notFound := notFound;
      this.linkSelector := linkSelector;
      this.transition := transition;
      this.onBeforeNavigate := onBeforeNavigate;
      this.mount := mount;
      current := new RenderState(0, false, None, []);
      this.host := host;
      this.cache := cache;
      this.browser := browser;
    }

    /**
     * `new Router(opts)`: an empty route table throws first; then the routes are
     * flattened and compiled, the not-found route chosen, and the mount element looked
     * up with `lookup` (`document.querySelector`, default selector `#app`), whose absence
     * throws. The link selector defaults to `[data-link]`.
     */
    static method Create(opts: Options, lookup: string -> MountPoint?, host: Host, cache: ComponentCache,
                         browser: Browser)
      returns (router: Router?, error: Option<CreateError>)
      ensures error == Some(NoRoutes) <==> opts.routes == []
      ensures error == Some(NoMount) <==> opts.routes != [] && lookup(opts.mountSelector.GetOr("#app")) == null
      ensures router != null <==> error.None?
      ensures router != null ==>
        fresh(router) && !router.started
        && router.routes == CompiledTable(opts.routes)
        && router.notFound == ChooseNotFound(router.routes, opts.notFoundPath)
        && router.mount == lookup(opts.mountSelector.GetOr("#app"))
        && router.linkSelector == opts.linkSelector.GetOr("[data-link]")
        && router.transition == opts.transition && router.onBeforeNavigate == opts.onBeforeNavigate
        && router.host == host && router.cache == cache && router.browser == browser
        && router.current.currentView == None && router.current.currentLayouts == []
    {
      if opts.routes == [] {
        return null, Some(NoRoutes);
      }
      var flat := ExpandRoutes(opts.routes, "/", []);
      var table := CompileRoutes(flat);
      var notFound := ChooseNotFound(table, opts.notFoundPath);
      var m := lookup(opts.mountSelector.GetOr("#app"));
      if m == null {
        return null, Some(NoMount);
      }
      router := new Router(table, notFound, opts.linkSelector.GetOr("[data-link]"), opts.transition,
                           opts.onBeforeNavigate, m, host, cache, browser);
      error := None;
    }

    /** The environment a render at location `loc` and history state `hs` reads. */
    function EnvAt(loc: Location, hs: HistState): Env {
      Env(routes, notFound, transition, loc, hs, browser.searchEntries, browser.decode)
    }

    /** Whether the veto stops a navigation to `url`: it answers exactly `false`, or it rejects. */
    predicate Cancels(url: string) {
      onBeforeNavigate.Some? && (onBeforeNavigate.value(url) == ExactlyFalse || onBeforeNavigate.value(url) == Fails)
    }

    /** The scene, the location, the history state and the next instance serial, as they are now. */
    ghost function Now(): World
      reads host, mount, current, browser, cache
    {
      World(SceneOf(host, mount, current, cache), browser.loc, browser.histState, host.nextSerial)
    }

    /**
     * What `navigateTo(url, opts)` does, run from world `w0` and ending in the current
     * state: asked, an exact `false` or a rejection leaves everything but the trace as it
     * was; otherwise the history entry is written, the browser moves to `url` resolved
     * against `w0`'s location, and that location is rendered.
     */
    ghost predicate Navigated(fuel: nat, w0: World, url: string, opts: NavOpts, run: NavRun)
      reads host, mount, current, browser, cache
      decreases fuel, 2
    {
      var asked := if onBeforeNavigate.Some? then [VetoAsked(url)] else [];
      var entry := if opts.replace then ReplacedState(opts.state, url) else PushedState(opts.state, url);
      (run.VetoedRun? <==> onBeforeNavigate.Some? && onBeforeNavigate.value(url) == ExactlyFalse)
      && (run.FailedRun? <==> onBeforeNavigate.Some? && onBeforeNavigate.value(url) == Fails)
      && (!run.WentRun? ==> Now() == Appended(w0, asked))
      && (run.WentRun? ==>
            Rendered(fuel, Appended(w0, asked + [entry]).(loc := browser.locate(w0.loc, url), hs := opts.state),
                     run.render))
    }

    /**
     * What `#render()` does, run from world `w0` and ending in the current state: the
     * route chosen for `w0`'s pathname, the not-found markup when there is none, and
     * otherwise the guards and what follows them.
     */
    ghost predicate Rendered(fuel: nat, w0: World, run: RenderRun)
      reads host, mount, current, browser, cache
      decreases fuel, 1
    {
      var pathname := Normalize(w0.loc.pathname);
      (run.exit.NoRoute? <==> run.chosen.None?)
      && (run.chosen.None? <==> (forall i :: 0 <= i < |routes| ==> !Matches(routes[i], pathname)) && notFound.None?)
      && (run.chosen.None? ==>
            run.redirect.None?
            && Now() == World(Scene(w0.scene.trace + [Swapped(NotFoundHtml)], NotFoundHtml,
                                    host.elementCount(NotFoundHtml), w0.scene.view, w0.scene.layouts,
                                    w0.scene.cached),
                              w0.loc, w0.hs, w0.serial))
      && (run.chosen.Some? ==>
            Selects(routes, notFound, pathname, browser.decode, run.chosen.value)
            && Guarded(fuel, w0, run.chosen.value, RouteCtx(EnvAt(w0.loc, w0.hs), run.chosen.value),
                       run.exit, run.redirect))
    }

    /**
     * What `#render()` does once the route `m` and the context `ctx` are known, run from
     * world `w0` and ending in the current state: the guards' calls, then nothing more
     * for `block` and a throw, the nested `navigateTo(to, { replace: true })` for
     * `redirect` while `fuel` lasts, and the view phase for `continue`.
     */
    ghost predicate Guarded(fuel: nat, w0: World, m: RouteMatch, ctx: Ctx, exit: RenderExit, redirect: Option<NavRun>)
      reads host, mount, current, browser, cache
      decreases fuel, 0
    {
      var chain := RouteChain(m.route);
      var outcome := Run(chain, host.guard, ctx);
      var w1 := Appended(w0, Calls(chain, host.guard, ctx));
      match exit
      case Blocked => outcome == Block && redirect.None? && Now() == w1
      case GuardsThrew => outcome == GuardThrew && redirect.None? && Now() == w1
      case Redirected(to) =>
        outcome == Redirect(to)
        && (fuel == 0 ==> redirect.None? && Now() == w1)
        && (fuel > 0 ==> redirect.Some? && Navigated(fuel - 1, w1, to, NavOpts(true, NullState), redirect.value))
      case Viewed(view) =>
        outcome == Continue && !view.Stale() && redirect.None?
        && ViewEffect(host, Legacy, transition, m.route, view, w1.scene, w0.serial, SceneOf(host, mount, current, cache))
        && browser.loc == w0.loc && browser.histState == w0.hs
      case _ => false
    }

    /**
     * A navigation the veto lets through, to a pathname no route matches and with no
     * not-found route, ends with the history entry written and the not-found markup.
     */
    lemma NavigatedNowhere(fuel: nat, w0: World, url: string, opts: NavOpts, run: NavRun)
      requires Navigated(fuel, w0, url, opts, run) && run.WentRun?
      requires forall i :: 0 <= i < |routes| ==> !Matches(routes[i], Normalize(browser.locate(w0.loc, url).pathname))
      requires notFound.None?
      ensures mount.innerHTML == NotFoundHtml
      ensures browser.loc == browser.locate(w0.loc, url) && browser.histState == opts.state
      ensures host.trace == w0.scene.trace + (if onBeforeNavigate.Some? then [VetoAsked(url)] else [])
        + [if opts.replace then ReplacedState(opts.state, url) else PushedState(opts.state, url), Swapped(NotFoundHtml)]
    {
      var asked := if onBeforeNavigate.Some? then [VetoAsked(url)] else [];
      var entry := if opts.replace then ReplacedState(opts.state, url) else PushedState(opts.state, url);
      assert w0.scene.trace + (asked + [entry]) + [Swapped(NotFoundHtml)] == w0.scene.trace + asked + [entry, Swapped(NotFoundHtml)];
    }

    /**
     * A navigation that the veto lets through and that does not end in a redirect leaves
     * the browser at `url` resolved against the location it started from, with `opts.state`.
     */
    lemma NavigatedLands(fuel: nat, w0: World, url: string, opts: NavOpts, run: NavRun)
      requires Navigated(fuel, w0, url, opts, run) && run.WentRun? && !run.render.exit.Redirected?
      ensures browser.loc == browser.locate(w0.loc, url) && browser.histState == opts.state
    {
      var w1 := Appended(w0, (if onBeforeNavigate.Some? then [VetoAsked(url)] else [])
        + [if opts.replace then ReplacedState(opts.state, url) else PushedState(opts.state, url)])
        .(loc := browser.locate(w0.loc, url), hs := opts.state);
      assert Rendered(fuel, w1, run.render);
      if run.render.chosen.Some? {
        var m := run.render.chosen.value;
        assert Guarded(fuel, w1, m, RouteCtx(EnvAt(w1.loc, w1.hs), m), run.render.exit, run.render.redirect);
      }
    }

    /** `start()`: when stopped, set the flag, add both listeners and render. */
    method Start(fuel: nat) returns (ghost run: Option<RenderRun>)
      requires Valid()
      modifies this, host, cache, mount, current, browser
      ensures Valid() && started
      ensures old(started) ==> run.None? && Now() == old(Now())
      ensures !old(started) ==> run.Some? && Rendered(fuel, Appended(old(Now()), [ListenersAdded]), run.value)
    {
      if started {
        return None;
      }
      started := true;
      host.Record(ListenersAdded);
      ghost var w1 := Now();
      assert w1 == Appended(old(Now()), [ListenersAdded]);
      var exit;
      ghost var r;
      exit, r := Render(fuel);
      run := Some(r);
    }

    /** `stop()`: when started, clear the flag and remove both listeners. */
    method Stop()
      modifies this, host
      ensures !started
      ensures host.trace == old(host.trace) + (if old(started) then [ListenersRemoved] else [])
    {
      if !started {
        return;
      }
      started := false;
      host.Record(ListenersRemoved);
    }

    /**
     * `navigateTo(url, opts)`: ask the veto (awaited); exactly `false` cancels and a
     * rejection propagates, both before any history write. Otherwise `replaceState` or `pushState` with `opts.state ?? null`, then render.
     */
    method NavigateTo(url: string, opts: NavOpts, fuel: nat) returns (r: NavResult, ghost run: NavRun)
      requires Valid()
      modifies host, cache, mount, current, browser
      ensures Valid()
      ensures r == Vetoed <==> onBeforeNavigate.Some? && onBeforeNavigate.value(url) == ExactlyFalse
      ensures r == Failed <==> onBeforeNavigate.Some? && onBeforeNavigate.value(url) == Fails
      ensures r == Vetoed <==> run.VetoedRun?
      ensures r == Failed <==> run.FailedRun?
      ensures r.Went? ==> run.WentRun? && r.exit == run.render.exit
      ensures Navigated(fuel, old(Now()), url, opts, run)
      ensures r.Went? ==>
        old(host.trace) + (if onBeforeNavigate.Some? then [VetoAsked(url)] else [])
          + [if opts.replace then ReplacedState(opts.state, url) else PushedState(opts.state, url)]
        <= host.trace
      decreases fuel, 3
    {
      if onBeforeNavigate.Some? {
        host.Record(VetoAsked(url));
        var answer := onBeforeNavigate.value(url);
        host.Await(null);
        if answer == ExactlyFalse {
          assert Now() == Appended(old(Now()), [VetoAsked(url)]);
          return Vetoed, VetoedRun;
        }
        if answer == Fails {
          assert Now() == Appended(old(Now()), [VetoAsked(url)]);
          return Failed, FailedRun;
        }
      }
      if opts.replace {
        host.Record(ReplacedState(opts.state, url));
      } else {
        host.Record(PushedState(opts.state, url));
      }
      browser.loc := browser.locate(browser.loc, url);
      browser.histState := opts.state;
      ghost var w1 := Now();
      assert w1 == Appended(old(Now()), (if onBeforeNavigate.Some? then [VetoAsked(url)] else [])
        + [if opts.replace then ReplacedState(opts.state, url) else PushedState(opts.state, url)])
        .(loc := browser.locate(old(browser.loc), url), hs := opts.state);
      var exit;
      ghost var rr;
      exit, rr := Render(fuel);
      PrefixOfAppend(w1.scene.trace, RenderPrefix(w1, rr), host.trace);
      r, run := Went(exit), WentRun(rr);
    }

    /** What every render from `w0` that ends as `run` has appended first: its not-found write or its guards' calls. */
    ghost function RenderPrefix(w0: World, run: RenderRun): seq<Event>
    {
      if run.chosen.None? then [Swapped(NotFoundHtml)]
      else Calls(RouteChain(run.chosen.value.route), host.guard, RouteCtx(EnvAt(w0.loc, w0.hs), run.chosen.value))
    }

    /**
     * `#render()`: `#match` the normalized pathname, else the not-found route; with
     * neither, write the not-found markup. Otherwise run the guards (awaited): `block`
     * stops, `redirect` awaits `navigateTo(to, { replace: true })` and stops; then the
     * view phase without render ids. `fuel` bounds the chain of redirects: with none
     * left, a redirect stops without navigating.
     */
    method Render(fuel: nat) returns (exit: RenderExit, ghost run: RenderRun)
      requires Valid()
      modifies host, cache, mount, current, browser
      ensures Valid()
      ensures run.exit == exit
      ensures Rendered(fuel, old(Now()), run)
      ensures old(host.trace) + RenderPrefix(old(Now()), run) <= host.trace
      ensures exit.Redirected? && fuel > 0 && !Cancels(exit.to) ==>
        old(host.trace) + RenderPrefix(old(Now()), run) + (if onBeforeNavigate.Some? then [VetoAsked(exit.to)] else [])
          + [ReplacedState(NullState, exit.to)]
        <= host.trace
      decreases fuel, 2
    {
      var pathname := Normalize(browser.loc.pathname);
      var m := ResolveRoute(routes, notFound, pathname, browser.decode);
      if m.None? {
        host.Swap(mount, NotFoundHtml, null);
        return NoRoute, RenderRun(NoRoute, None, None);
      }
      var ctx := BuildContext(pathname, m.value.params, browser.loc, browser.histState, browser.searchEntries);
      assert ctx == RouteCtx(EnvAt(browser.loc, browser.histState), m.value);
      ghost var redirect;
      exit, redirect := RenderMatch(m.value, ctx, fuel);
      run := RenderRun(exit, m, redirect);
    }

    /**
     * `#render()` once the route `m` and the context `ctx` are known: the guards, then
     * `block`, `redirect` (through `navigateTo`, while `fuel` lasts) or the view phase.
     */
    method RenderMatch(m: RouteMatch, ctx: Ctx, fuel: nat) returns (exit: RenderExit, ghost redirect: Option<NavRun>)
      requires Valid()
      modifies host, cache, mount, current, browser
      ensures Valid()
      ensures Guarded(fuel, old(Now()), m, ctx, exit, redirect)
      ensures old(host.trace) + Calls(RouteChain(m.route), host.guard, ctx) <= host.trace
      ensures exit.Redirected? && fuel > 0 && !Cancels(exit.to) ==>
        old(host.trace) + Calls(RouteChain(m.route), host.guard, ctx)
          + (if onBeforeNavigate.Some? then [VetoAsked(exit.to)] else []) + [ReplacedState(NullState, exit.to)]
        <= host.trace
      decreases fuel, 1
    {
      var route := m.route;
      var out := GuardStep(RouteChain(route), ctx);
      ghost var w1 := Now();
      assert w1 == Appended(old(Now()), Calls(RouteChain(route), host.guard, ctx));
      if out.GuardThrew? {
        return GuardsThrew, None;
      }
      if out.Block? {
        return Blocked, None;
      }
      if out.Redirect? {
        redirect := FollowRedirect(out.to, fuel);
        return Redirected(out.to), redirect;
      }
      var view := ShowRoute(host, cache, mount, current, Legacy, transition, route);
      assert ViewEffect(host, Legacy, transition, route, view, w1.scene, old(host.nextSerial), SceneOf(host, mount, current, cache));
      exit, redirect := Viewed(view), None;
    }

    /** `await runGuards(parents, route, ctx)` in the legacy render. */
    method GuardStep(chain: seq<Option<GuardId>>, ctx: Ctx) returns (out: GuardOutcome)
      modifies host
      ensures out == Run(chain, host.guard, ctx)
      ensures host.trace == old(host.trace) + Calls(chain, host.guard, ctx)
      ensures host.nextSerial == old(host.nextSerial)
    {
      out := RunGuards(host, chain, ctx, null);
      host.Await(null);
    }

    /**
     * `await this.navigateTo(to, { replace: true })`, skipped once `fuel` is spent: the
     * history entry is replaced with a null state unless the veto cancels or rejects.
     */
    method FollowRedirect(to: string, fuel: nat) returns (ghost run: Option<NavRun>)
      requires Valid()
      modifies host, cache, mount, current, browser
      ensures Valid()
      ensures old(host.trace) <= host.trace
      ensures fuel == 0 ==> run.None? && Now() == old(Now())
      ensures fuel > 0 ==> run.Some? && Navigated(fuel - 1, old(Now()), to, NavOpts(true, NullState), run.value)
      ensures fuel > 0 && !Cancels(to) ==>
        old(host.trace) + (if onBeforeNavigate.Some? then [VetoAsked(to)] else []) + [ReplacedState(NullState, to)]
        <= host.trace
      decreases fuel, 0
    {
      if fuel > 0 {
        var r;
        ghost var nav;
        r, nav := NavigateTo(to, NavOpts(true, NullState), fuel - 1);
        run := Some(nav);
        if !r.Went? {
          assert host.trace == old(host.trace) + [VetoAsked(to)];
        } else {
          PrefixOfAppend(old(host.trace), (if onBeforeNavigate.Some? then [VetoAsked(to)] else [])
                         + [ReplacedState(NullState, to)], host.trace);
        }
      } else {
        run := None;
      }
    }

    /** `#onPopState`: render the current location. */
    method OnPopState(fuel: nat) returns (exit: RenderExit, ghost run: RenderRun)
      requires Valid()
      modifies host, cache, mount, current, browser
      ensures Valid()
      ensures run.exit == exit && Rendered(fuel, old(Now()), run)
    {
      exit, run := Render(fuel);
    }

    /**
     * `#onClick(event)`: a click the filter takes over is prevented and becomes
     * `navigateTo(pathname + search + hash)`; any other click changes nothing.
     */
    method OnClick(c: Click, fuel: nat) returns (ghost run: Option<NavRun>)
      requires Valid()
      modifies host, cache, mount, current, browser
      ensures Valid()
      ensures ClickEffects(c, linkSelector, browser.origin, browser.resolve) == [] ==>
        run.None? && Now() == old(Now())
      ensures ClickEffects(c, linkSelector, browser.origin, browser.resolve) != [] ==>
        var fx := ClickEffects(c, linkSelector, browser.origin, browser.resolve);
        run.Some? && Navigated(fuel, Appended(old(Now()), [DefaultPrevented]), fx[1].to.url, NavOpts(false, NullState), run.value)
    {
      var fx := ClickEffects(c, linkSelector, browser.origin, browser.resolve);
      if fx == [] {
        return None;
      }
      host.Record(DefaultPrevented);
      ghost var w1 := Now();
      assert w1 == Appended(old(Now()), [DefaultPrevented]);
      var r;
      ghost var nav;
      r, nav := NavigateTo(fx[1].to.url, NavOpts(false, NullState), fuel);
      run := Some(nav);
    }
  }
}
