# mini-router in Dafny

This is a model of the core of **mini-router**, a small single-page-application router. The model covers:

- route patterns compiled from `/posts/:id` strings, a `*` catch-all, and nested route definitions flattened into a table of full paths with their ancestor chains;
- matching a pathname (the first match in table order, or the best match under a fixed ranking);
- the view context (`path`, `params`, `query`, `hash`, `state`);
- `beforeEnter` guards run parents first;
- lazy component loading with a per-loader cache;
- layouts composed around the leaf view through a `<!-- router-slot -->` marker (the composition functions take the marker as a parameter, `Commit.Slot` is the one the router passes);
- the render state machine with its render-id staleness checks;
- the `Router` class (construction, `start`/`stop`, `navigateTo`, its own `#render`), the delegated link-click filter and the popstate handler;
- transition-engine selection, the default animation hook, and the authentication guards.

The application's code and the browser are an environment (`Runtime.Host`) whose answers are fixed functions:

- guard answers, loader results, markup, element counts;
- `decodeURIComponent`, `URLSearchParams`, `new URL`;
- `locate`: where `pushState(…, "", url)` leaves the location when it starts from the current one (`url` resolved against the document URL).

Every call the router makes into that code (guards, loaders, constructors, `destroy`, `mount`, transitions, history, DOM writes) is appended to a trace. The exception is `getHTML`: its answer is the fixed `markup` function, and the call has no effect of its own, so it is not traced. Each `await` is a step at which the environment may start a newer render, which bumps `state.renderId`. The one exception is the legacy render's `await this.navigateTo(…)` after a redirect (Router.js:249): it is modelled as the nested navigation itself, with no step of its own, because the render does nothing after it. Each `innerHTML` write (`Runtime.Host.Swap`) is such a step as well, although the source does not await there (render.js:52,120, Router.js:238,295). The reason is that the setter runs custom-element reactions synchronously, and those may start a render. Awaits and DOM writes are the only points where the model lets one render overtake another. The pure parts (patterns, matching ranking, composition, click filter, engines) are functions with lemmas. The state-changing parts are methods over classes (`RenderState`, `MountPoint`, `Host`, `ComponentCache`, `Router`, `Browser`, `AuthService`, `Helpers`), specified against those functions.

Modules, one file each:

- `Wrappers` (`Option`)
- `Text` (`startsWith`, `includes`, first-occurrence `replace`)
- `Paths` (`normalize`, `parseQuery`)
- `Patterns` (`pathToRegex` and a matcher for the expressions it builds)
- `Context` (`buildContext`)
- `Runtime` (the environment and the instance events)
- `Routes` (`expandRoutes`)
- `Matching` (`#match`, `matchPathname`)
- `Guards` (`runGuards`)
- `Components` (`ensureComponent`)
- `Commit` (`domCommit`)
- `Render` (`renderPipeline`)
- `Events` (`createHandlers`)
- `SpaRouter` (`Router`)
- `Engines` (`toEngine`, `pickEngine`)
- `AnimationHook` (`AbstractAnimationHook`)
- `Auth` (`requireAuth`, `onBeforeNavigate`)

Three things tie the render model together:

- `Render.Variant` covers both renders at once: `Pipeline(rid)` is `renderPipeline`, with a render-id check after every await except the redirect's `await env.navigate` (render.js:72), which has none; `Legacy` is `Router`'s own `#render`, with none.
- `Render.ViewEffect` describes everything a render does after its guards. The loading part is the function `Render.Load` over the route's parts: which loaders are called, which instances are constructed and in which order, and where it fails. A stale check can cut it short part of the way. After loading come the composition, the swap, the mounts and the in transition, and the state that results from each way it can end.
- `SpaRouter.Router.Navigated`, `Rendered` and `Guarded` describe the whole world a navigation or a `#render()` leaves behind. That world is a `SpaRouter.World`: the scene, the location, the history state and the next instance serial. A redirect's nested navigation is described inside the render that started it, and the ghost results `NavRun` and `RenderRun` record which way each step ended.

## Model

| member | source | states |
|---|---|---|
| Text.IndexFrom | router/internals/pipelines/domCommit.js:39-42 | the index found is an occurrence of the pattern and no earlier index is one; `None` means there is no occurrence at all |
| Text.ReplaceFirst | router/internals/pipelines/domCommit.js:42 | without an occurrence the string is unchanged; otherwise only the first occurrence is spliced out and the replacement put in its place |
| Text.Utf16Length | router/internals/matching/matchPathname.js:51-52 | a string's `length` lies between its character count and twice that, and equals the character count exactly when no character lies outside the Basic Multilingual Plane |
| Text.ContainsIffOccurs | router/internals/pipelines/domCommit.js:39 | `includes` holds exactly when the pattern occurs at some index |
| Paths.StripTrailingSlashes | router/internals/routing.js:31 | the result is a prefix with no trailing `/`, and everything removed was `/` |
| Paths.Normalize | router/internals/routing.js:30-32 | `"/"` stays `"/"`; any other path becomes a prefix of itself without a trailing `/`, with only `/` cut off |
| Paths.NormalizeUnique | router/routerTools.js:30-32 | those three properties determine the result: the whole trailing run of `/` is removed |
| Paths.NormalizeNoTrailingSlash | router/internals/routing.js:30-32 | a normalized path ends in `/` only if it is `"/"` |
| Paths.NormalizeIdempotent | router/routerTools.js:30-32 | normalizing twice is normalizing once |
| Paths.NormalizeExamples | router/routerTools.js:31 | `"/a//"` gives `"/a"`, `"//"` gives `""`, `"/"` gives `"/"` |
| Paths.FromEntries | router/internals/routing.js:35 | the map's keys are exactly the keys the entries mention |
| Paths.ParseQuery | router/internals/routing.js:34-36 | the query's keys are exactly the keys of the entries `URLSearchParams` yields |
| Paths.FromEntriesLastWins | router/internals/routing.js:34-36 | an entry whose key does not occur later gives that key its value |
| Paths.ParseQueryLastWins | router/routerTools.js:34-36 | `parseQuery` keeps the last value of a repeated key |
| Patterns.PathToRegex | router/internals/routing.js:13-27 | the loop that rewrites the pattern and pushes `keys` yields the compiled value of the pattern |
| Patterns.Compile | router/internals/routing.js:13-27 | the value is the catch-all (any string, no keys) exactly for `"*"`; otherwise an anchored expression whose `keys` are the names of its capture tokens |
| Patterns.Tokenize | router/internals/routing.js:19-24 | the scan yields the pattern's tokens, and `keys` are the names of its `:name` tokens in order |
| Patterns.ScanToken | router/internals/routing.js:21 | one scan step consumes one token and makes progress |
| Patterns.FindWordEnd | router/internals/routing.js:21 | the loop finds the end of the run of `\w` characters |
| Patterns.WordEndMaximal | router/internals/routing.js:21 | `(\w+)` takes every word character of the run and stops at the first other one |
| Patterns.LexParamNames | router/internals/routing.js:21 | `:(\w+)` names every capture by a non-empty run of word characters |
| Patterns.CompileCatchAll | router/routerTools.js:14 | the catch-all flag is set exactly for `"*"`, and then there are no keys and the expression matches anything |
| Patterns.CatchAllMatchesEverything | router/internals/routing.js:14 | `/.*/` matches every pathname with no captures |
| Patterns.SegmentKeys | router/routerTools.js:16-24 | for a pattern written as `/text` and `/:name` segments, `keys` are the `:name` segments left to right, and the pattern is not the catch-all |
| Patterns.MatchFromSound | router/internals/routing.js:17-25 | every match the anchored matcher reports fills the pattern, and each capture is non-empty and free of `/` |
| Patterns.MatchFromComplete | router/internals/routing.js:17-25 | every way of filling the pattern with non-empty `/`-free values is matched |
| Patterns.AnchoredMatchIff | router/internals/routing.js:17-25 | a non-`*` pattern matches a pathname exactly when the whole pathname fills the pattern with valid captures |
| Patterns.SegmentRoundTrip | router/internals/routing.js:17-27 | writing valid values into a segment pattern and matching gives back exactly those values, one per key |
| Patterns.SegmentMatchIff | router/internals/routing.js:17-25 | a segment pattern matches exactly the pathnames obtained by writing valid values into its parameters |
| Patterns.PlainPatternMatchesExactly | router/routerTools.js:17-27 | a pattern without `:` has no keys and matches exactly the identical pathname |
| Patterns.PostsExample | router/internals/routing.js:21-23 | `/posts/:id` has the key `id` and matches `/posts/42` capturing `42` |
| Patterns.PostsEmptyParamExample | router/internals/routing.js:23 | `/posts/:id` does not match `/posts/` |
| Context.StripHash | router/internals/context/buildContext.js:26 | the hash loses at most one leading `#` and nothing else |
| Context.StripHashInverse | router/internals/context/buildContext.js:26 | stripping undoes prefixing `#`; a hash without a leading `#` and the empty hash are unchanged |
| Context.StripHashExample | router/internals/context/buildContext.js:26 | `"##x"` keeps its second `#` |
| Context.BuildContext | router/internals/context/buildContext.js:21-29 | `path`, `params` and `state` are passed through, `query` is `parseQuery(location.search)`, `hash` is the location hash with one leading `#` removed |
| Context.BuildContextHash | router/internals/context/buildContext.js:26 | a location hash `"#" + h` reaches the context as `h` |
| Runtime.MountAll | router/internals/pipelines/domCommit.js:50-51 | the trace grows by the `mount` calls of the instances that define `mount`, in order |
| Runtime.DestroyAll | router/internals/render.js:86 | the trace grows by the `destroy` calls of the instances that define `destroy`, in order |
| Runtime.MountEventsExact | router/internals/pipelines/domCommit.js:50 | every instance that defines `mount` is mounted |
| Runtime.MountEventsOnly | router/internals/pipelines/domCommit.js:50 | nothing but instances that define `mount` is mounted, and only instances of the list |
| Routes.ExpandRoutes | router/internals/routing.js:47-75 | the loop yields the depth-first pre-order flattening of the route forest |
| Routes.ExpandOne | router/internals/routing.js:52-72 | one iteration yields the route's entry followed by the expansion of its children under its full path |
| Routes.FlattenCount | router/internals/routing.js:51-74 | there is exactly one entry per node of the tree |
| Routes.FlattenWellChained | router/internals/routing.js:65-71 | every entry's `parents` is the chain of its ancestors' entries, outermost first, each ancestor's entry comes before it, and each full path is its own path resolved against its parent's full path (the base at top level) |
| Routes.ParentsOfTopLevel | router/internals/routing.js:47-71 | in a fresh expansion an entry with no parents takes its full path from `/`; any other entry's innermost parent comes earlier in the expansion, carries the rest of the entry's chain, and is the base its path is resolved against |
| Routes.FlattenDeeper | router/internals/routing.js:71 | every entry below a level extends that level's chain |
| Routes.FlattenSiblings | router/internals/routing.js:51-68 | the entries of one level are exactly the sibling routes' entries, in input order |
| Routes.RelativeChildPath | router/internals/routing.js:52-54 | a relative child under a non-root parent gets `parent + "/" + path` |
| Routes.FullPathOf | router/internals/routing.js:52-54 | a full path never ends in `/` unless it is `/`, and an absolute path ignores the base it would be resolved against |
| Routes.NestedExample | router/internals/routing.js:51-74 | `[{path: "/a", children: [{path: "b"}]}]` flattens to `/a` then `/a/b`, the child with the parent as its chain |
| Routes.CatchAllEntry | router/Router.js:102 | an entry compiles to the catch-all exactly when its full path is `/*` or `*` |
| Matching.Params | router/internals/matching/matchPathname.js:32-34 | `params` has exactly one key per route key |
| Matching.FillParams | router/internals/matching/matchPathname.js:34 | the `forEach` loop fills exactly those params |
| Matching.ParamsLastWins | router/internals/matching/matchPathname.js:34 | a key that does not repeat holds the decoded capture at its position, `""` when the capture is missing |
| Matching.CapturesMatchKeys | router/internals/matching/matchPathname.js:32-34 | a compiled pattern yields one capture per key |
| Matching.TryRoute | router/internals/matching/matchPathname.js:30-35 | a route yields its match object exactly when its expression matches |
| Matching.FirstMatch | router/Router.js:186-199 | `null` exactly when no route matches; otherwise the first matching route in table order, with its params |
| Matching.Compare | router/internals/matching/matchPathname.js:40-60 | two routes tie exactly when they agree on catch-all status, having a view, full-path length in UTF-16 code units (JavaScript's `length`) and nesting depth; a catch-all always sorts after a non-catch-all |
| Matching.CompareAntisymmetric | router/internals/matching/matchPathname.js:40-60 | the comparator is antisymmetric and reflexive |
| Matching.CompareTransitive | router/internals/matching/matchPathname.js:40-60 | the comparator is transitive, strictly so when one step is strict |
| Matching.SelectBest | router/internals/matching/matchPathname.js:40-62 | the selected match ranks at least as high as every match, and strictly higher than every earlier one (what a stable sort puts first) |
| Matching.CollectMatches | router/internals/matching/matchPathname.js:29-36 | exactly the matching routes are collected, in table order, each with its match object |
| Matching.CollectedSnoc | router/internals/matching/matchPathname.js:30-35 | a matching route is pushed with its match object, and what has been gathered stays exactly the matching routes so far, in order |
| Matching.CollectedSkip | router/internals/matching/matchPathname.js:31 | a route that does not match is skipped and what has been gathered still covers every route so far |
| Matching.MatchPathname | router/internals/matching/matchPathname.js:26-63 | `null` exactly when nothing matches; otherwise the chosen route (best rank, earliest among equals) with its params |
| Matching.ChosenAvoidsCatchAll | router/internals/matching/matchPathname.js:41-44 | the catch-all is chosen only when no other route matches |
| Matching.ChosenPrefersView | router/internals/matching/matchPathname.js:46-49 | at equal catch-all status a route with a view or component beats one without |
| Matching.ChosenPrefersLonger | router/internals/matching/matchPathname.js:51-59 | at equal earlier ranks the full path longer in UTF-16 code units wins, then the longer parent chain |
| Matching.CompareCountsUtf16 | router/internals/matching/matchPathname.js:51-59 | `/😀` and `/:x` tie: both are 3 code units long, although `/😀` has two characters |
| Matching.ChosenUnique | router/internals/matching/matchPathname.js:40-62 | exactly one route is chosen |
| Matching.FirstIsChosenWhenSorted | router/internals/matching/matchPathname.js:40-62 | on a table already in ranking order the first match is the chosen one |
| Guards.Chain | router/internals/routing.js:117 | the chain is the parents' `beforeEnter` slots followed by the leaf's |
| Guards.RunGuards | router/internals/routing.js:116-132 | the loop's outcome, its guard calls and its awaits are those of the chain's specification |
| Guards.GuardAt | router/internals/routing.js:119-130 | one pass of the loop: an empty slot is skipped; a guard that lets the chain go on leaves the rest of the chain to account for the outcome, calls and awaits; any other verdict is the chain's outcome, with all of its calls and awaits made |
| Guards.CallGuard | router/internals/routing.js:123-129 | one guard call is recorded, awaited only when it returns a promise, and its verdict is `false` → block, a string → redirect, anything else → go on |
| Guards.FirstVerdictStops | router/internals/routing.js:126-129 | the first guard that blocks, redirects or throws decides, and no later guard is called |
| Guards.NoVerdictContinues | router/internals/routing.js:119-131 | when no guard decides the outcome is `continue` and every guard is called once, in order |
| Guards.RunIsSomeVerdict | router/internals/routing.js:119-131 | an outcome other than `continue` is the verdict of a guard of the chain |
| Guards.CallsOfChain | router/internals/routing.js:119-125 | every recorded call is to a guard of the chain, at most one per slot |
| Guards.RunAppend | router/internals/routing.js:119-130 | a chain in two parts runs its second part only when the first continues |
| Guards.ParentVerdictSkipsLeaf | router/internals/routing.js:117-129 | a parent's verdict means the leaf's guard is never called |
| Guards.SkipEmptySlot | router/internals/routing.js:120-121 | slots without a guard change neither outcome, calls nor awaits |
| Components.EnsureComponent | router/internals/routing.js:86-103 | the result is the resolution of the reference; a lazy loader is called (and cached) only when it is not cached yet, and a cached one returns the cached value without a call |
| Components.Instantiate | router/internals/render.js:96-102 | `new C(ctx)` records one fresh instance of a class and fails on anything else |
| Components.DefaultFallback | router/internals/routing.js:98 | a module without a default export resolves to the namespace object, which is no class |
| Components.LazyYieldsClass | router/internals/routing.js:97-100 | a loader yields a class exactly when its module is that class or exports it by default |
| Commit.Wrap | router/internals/pipelines/domCommit.js:39-42 | a layout without the slot fails; otherwise its first slot is replaced by the inner page |
| Commit.Shells | router/internals/pipelines/domCommit.js:38 | each layout's markup is taken as text (`String(...)` for non-strings) |
| Commit.ComposeNoLayouts | router/internals/pipelines/domCommit.js:29-46 | with no layouts the page is the leaf markup |
| Commit.ComposeAppend | router/internals/pipelines/domCommit.js:34-43 | composing through `a + b` composes through `b`, then `a` |
| Commit.ComposeOutermost | router/internals/pipelines/domCommit.js:34-43 | `layouts[0]` wraps everything else: it is the outermost layout |
| Commit.ComposeSomeIff | router/internals/pipelines/domCommit.js:39-41 | composition succeeds exactly when every layout carries the slot |
| Commit.ComposeKeepsLeaf | router/internals/pipelines/domCommit.js:42 | the leaf markup occurs in the composed page |
| Commit.ComposeOneLayout | router/internals/pipelines/domCommit.js:42 | with one layout the page is that layout with its first slot replaced by the leaf |
| Commit.ComposeLayouts | router/internals/pipelines/domCommit.js:34-43 | the reverse loop yields the composition, the missing-slot error or a stale exit, and without an interrupt no stale exit |
| Commit.WrapLayout | router/internals/pipelines/domCommit.js:35-42 | one iteration awaits the layout's markup, checks the render id and fills its slot with the page built so far (the result is what that layout alone composes to); composing the remaining layouts from the result gives the same page as before the step, and a missing slot means the whole composition fails |
| Commit.DomCommit | router/internals/pipelines/domCommit.js:26-54 | either returns `{null, []}` on a stale render id, throws on a missing slot with the mount point untouched, or swaps in the composed page and mounts the layouts in order then the leaf, returning them; the render id is never written |
| Render.LayoutRefs | router/internals/render.js:92-93 | only parents with a `layout` contribute, in chain order |
| Render.TransitionOut | router/internals/render.js:78-81 | the out transition runs only when configured and, in the pipeline, the mount point has children |
| Render.Teardown | router/internals/render.js:84-87 | the old view and then every old layout are destroyed, and the state is reset to no view and no layouts |
| Render.LoadLayouts | router/internals/render.js:91-97 | the loop keeps to `Load` of the parents' layout references: unless a stale check cuts it short, the result, the trace (a loader call for each uncached lazy layout, one construction per layout, outer to inner) and the cached loaders are exactly `Load`'s; cut short, the trace and the cache are part of the way there; serials advance by one per instance |
| Render.LoadLayoutAt | router/internals/render.js:92-96 | one pass of the loop: what `Load` says of the first `i` parents' layouts, it then says of the first `i + 1`; a parent without a layout adds nothing |
| Render.LoadOne | router/internals/render.js:99-102 | the leaf (or one layout) keeps to `Load` of that one reference: its loader is called only when uncached, one instance is constructed exactly when it resolves to a class, and a rejection or a non-class is reported as such |
| Render.BuildPage | router/internals/render.js:103-117 | the page text is the composition of the leaf's and layouts' markup, or the missing-slot error, or a stale exit |
| Render.CommitPage | router/internals/render.js:120-126 | one swap of the page, then the layouts become current and are mounted, then the leaf |
| Render.TransitionIn | router/internals/render.js:129-132 | the in transition runs when configured and its stale check is reported |
| Render.LoadParts | router/internals/render.js:91-102 | loading keeps to `Load` of the route's parts, the parent layouts outer to inner and then the leaf: result, trace and cache exactly as `Load` says, or part of the way on a stale exit |
| Render.Present | router/internals/render.js:103-132 | a stale page, a missing slot or a written page; a missing slot only when the composition of the leaf into the layouts' shells fails; a written page is that composition, swapped in, then the layouts and the leaf mounted, then the in transition |
| Render.CommitAndEnter | router/internals/render.js:120-132 | commit followed by the in transition |
| Render.LoadAndShow | router/internals/render.js:91-132 | from a torn-down state, `ShownEffect`: loading as `Load` says, a load error or a non-class exactly when `Load` ends in one, and once loaded, the composed page, mounts and in transition |
| Render.ShowRoute | router/internals/render.js:77-132 | the view phase: out transition, teardown, loading, composition, swap, mounts, in transition, with exactly the effect `ViewEffect` describes for each exit, including the cause of every failure exit; stale exits only on a newer render, none without an interrupt |
| Render.Load | router/internals/render.js:91-102 | loading a list of references never reports staleness, only adds to the cache, and when it succeeds gives one instance per reference |
| Render.Parts | router/internals/render.js:92-99 | the parts of a route are its parents' layouts, outer to inner, then its own `component` or `view`; the route's own `layout` is not among them |
| Render.LoadedIff | router/internals/render.js:91-102 | loading succeeds exactly when every reference resolves to a class, and then the `i`th instance is of the `i`th reference's class with serial `n + i` |
| Render.LoadFailsAt | router/internals/render.js:94-99 | when the `k`th reference is the first that is no class, loading reports a load error exactly when its loader rejects and a non-class exactly when it resolves to something else |
| Render.LoadAppend | router/internals/render.js:91-102 | loading `a + b` is loading `a` and then, only if all of `a` loaded, `b` from where `a` left off |
| Render.ShownInstances | router/internals/render.js:123-125 | a written page's layouts are one instance per parent layout, outer to inner, and its view an instance of the leaf, with consecutive serials |
| Render.ViewShown | router/internals/render.js:91-132 | with no stale exit, a route whose parts all resolve to classes and whose layouts all carry the slot is shown |
| Render.ViewSlotMissing | router/internals/render.js:107-117 | with no stale exit, a route whose parts all resolve to classes but whose composition fails ends in the missing-slot throw |
| Render.ViewThrows | router/internals/render.js:94-99 | a load error or a non-class names the first part that is no class, and which of the two it is |
| Render.LoadedMade | router/internals/render.js:94-102 | when every reference is a class, loading gives exactly the instances `Made` lists |
| Render.PresentLoaded | router/internals/render.js:102-132 | `LoadedEffect` of the loaded instances: nothing traced before the swap; a missing slot only when the composition fails; a written page is that composition followed by the swap, the mounts and the in transition |
| Render.ResolveRoute | router/internals/render.js:36-49 | the route is the first match in table order, else the not-found route with empty params, else none |
| Render.RouteCtx | router/internals/render.js:58-64 | the context is built from the normalized pathname, the match's params and the location |
| Render.RouteChain | router/internals/render.js:67-68 | the guard chain is the route's parents then the route |
| Render.GuardPhase | router/internals/render.js:66-75 | the guards run, then the stale check; block stops; redirect navigates with `replace` and releases `busy`; continue goes on |
| Render.RenderPipeline | router/internals/render.js:32-135 | no route writes the not-found markup and releases `busy`; a guard verdict, stale exit or error stops with the state as described; otherwise the view phase's effect (`ViewEffect`: loading as `Load` says, each failure exit with its cause); `busy` is released exactly on no route, redirect and a shown view |
| Events.ClickEffects | router/internals/events.js:21-42 | each ignore condition gives no effect; otherwise exactly `preventDefault` then one navigation to `pathname + search + hash` |
| Events.ClickNavigates | router/internals/events.js:40-41 | a click passing every check is taken over |
| Events.ClickIgnoredIff | router/internals/events.js:22-38 | a click is ignored exactly when one of the checks rejects it |
| Events.PopStateEffects | router/internals/events.js:19 | popstate is exactly one navigation request carrying the popstate symbol |
| SpaRouter.CompiledTable | router/Router.js:100-113 | one compiled route per flattened entry, in order |
| SpaRouter.CompileRoutes | router/Router.js:101-113 | the `map` loop compiles every entry |
| SpaRouter.FirstCatchAll | router/Router.js:117 | the first catch-all in table order, or none when there is none |
| SpaRouter.FirstNamed | router/Router.js:119 | the first route whose `fullPath` or `path` equals `notFoundPath`, or none |
| SpaRouter.ChooseNotFound | router/Router.js:116-120 | the first catch-all, else the first route named by `notFoundPath` when one is given, else none |
| SpaRouter.TopLevelStarIsCatchAll | router/Router.js:102 | a top-level `*` route gets the full path `/*` and compiles to the catch-all |
| SpaRouter.Router.Create | router/Router.js:94-130 | throws exactly for empty routes, then exactly for a missing mount element; otherwise a stopped router with the compiled table, the not-found choice, `#app` and `[data-link]` defaults |
| SpaRouter.Router.Start | router/Router.js:137-143 | a no-op when started: the whole world is unchanged; otherwise sets the flag, adds the listeners and then renders the current location, with the render's full effect (`Rendered`) from the world after `ListenersAdded` |
| SpaRouter.Router.Stop | router/Router.js:148-154 | a no-op when stopped; otherwise clears the flag and removes the listeners |
| SpaRouter.Router.NavigateTo | router/Router.js:164-177 | cancels exactly when the veto answers exactly `false`, and rejects exactly when the veto rejects; in both cases only the veto call is added; otherwise `replaceState` or `pushState` with the state, the browser at `url` resolved against the location it was at, and the render of that location with its full effect (`Navigated`) |
| SpaRouter.Router.Render | router/Router.js:230-307 | the route is the first match or the not-found route; no route writes the not-found markup and changes nothing else; block and a throw change nothing after the guard calls; a redirect runs `navigateTo(to, { replace: true })` with its own full effect and replaces the history entry unless vetoed; otherwise the view phase's effect, with the location unchanged (`Rendered`): loading as `Load` says, a load error or non-class exactly when `Load` ends in one, a missing slot only when the composition fails |
| SpaRouter.Router.RenderMatch | router/Router.js:242-306 | the guard calls, then exactly the verdict's effect: nothing more for block and a throw, the nested navigation for a redirect, the view phase for `continue` (`Guarded`, through `ViewEffect`): loading as `Load` of the route's parts says, a load error or non-class exactly when `Load` ends in one, a missing slot only when the composition fails, otherwise the page shown |
| SpaRouter.Router.GuardStep | router/Router.js:245-246 | the guard chain's outcome and calls |
| SpaRouter.Router.FollowRedirect | router/Router.js:248-250 | with fuel, exactly the effect of `navigateTo(to, { replace: true })`, so unless vetoed the history entry is replaced with a null state; without fuel nothing changes |
| SpaRouter.Router.OnPopState | router/Router.js:59 | popstate renders the current location with the render's full effect (`Rendered`) |
| SpaRouter.Router.OnClick | router/Router.js:61-88 | an ignored click changes nothing at all; a taken-over click is prevented, then has exactly the effect of `navigateTo` to the link's path, query and fragment (`Navigated`) |
| SpaRouter.Router.NavigatedNowhere | router/Router.js:172-177 | a navigation the veto lets through to a pathname no route matches, with no not-found route, writes the history entry, moves the browser to `url` resolved against where it was, and shows the not-found markup, and nothing else is called |
| SpaRouter.Router.NavigatedLands | router/Router.js:172-177 | a navigation the veto lets through (neither `false` nor a rejection) and that is not redirected leaves the browser at `url` resolved against the location it started from, with `opts.state` |
| Engines.ToEngine | router/transitions/index.js:21-48 | falsy and other values → noop; a function → the `fn` wrapper; an object with `run` → itself; a spec with a registered engine → the factory's engine; the noop engine results exactly in those cases |
| Engines.PickEngine | router/transitions/index.js:54-58 | a truthy navigation-state spec first, then a truthy route value, then the router default |
| Engines.FunctionBeforeRun | router/transitions/index.js:25-30 | a function with a `run` method is still wrapped, under the name `fn` |
| Engines.WrapperIgnoresCtx | router/transitions/index.js:28 | the wrapper calls the function with element and phase, whatever the context |
| Engines.NavStateWins | router/transitions/index.js:55 | a truthy navigation-state spec decides alone |
| Engines.RouteMetaBeatsDefault | router/transitions/index.js:56-57 | without one, a truthy route value decides over the default |
| Engines.UnknownEngineIsNoop | router/transitions/index.js:39-43 | an engine name missing from the registry gives noop |
| AnimationHook.AbstractAnimationHook.Mount | transitions/AbstractAnimationHook.js:18-21 | exactly one `teardown()` then one `commit()` without options, settling as the commit does |
| Auth.LoginRedirect | auth/guards.js:28-36 | the target is `loginPath` (default `/login`) + `?next=` + the encoded wanted URL (context path, else location pathname, then search and hash) |
| Auth.AuthCalls | auth/guards.js:34-63 | `isLoggedIn` first; nothing else when logged out; `initFromStorage` exactly when logged in and expired; `clear` exactly after a failed or throwing session check, as the last call |
| Auth.RequireAuth | auth/guards.js:24-67 | lets through exactly when logged in, not expired or refreshed, and the session check (when given) is truthy; else the login redirect; the service calls are exactly `AuthCalls` |
| Auth.RequireAuthNeverBlocks | auth/guards.js:25-67 | as a `beforeEnter` answer the guard never blocks, and continues exactly when it admits |
| Auth.FailedRefreshStops | auth/guards.js:40-46 | a failed refresh redirects with no session check and no `clear` |
| Auth.OnBeforeNavigate | auth/guards.js:76-78 | exactly `false` precisely for URLs starting with `/api/`; `undefined` otherwise |

## Left out

- Real event-loop interleaving. Each `await` and each `innerHTML` write is one step at which the environment may start a newer render and bump `renderId`. The write counts because the setter runs custom-element reactions synchronously; the source has no `await` there. The router has no other concurrency.
- SpaRouter.Router.NavigateTo: `navigateTo` does not await `#render()`. The model runs that render to completion before returning, so it does not capture a render overlapping the caller's next step (`Start`, `OnClick` and `OnPopState` likewise).
- SpaRouter.Router.Render: a chain of guard redirects is bounded by a `fuel` parameter. With no fuel left, a redirect stops without navigating; the source has no such bound.
- Patterns.PathToRegex: only `/` is escaped. Literal segments are modelled as plain characters, so regular-expression metacharacters in a route path (for example a nested `*`) are not interpreted.
- `decodeURIComponent`, `URLSearchParams` and `new URL` are uninterpreted functions. Their exceptions (a malformed `%` escape, an invalid URL) are not modelled.
- The `$` substitution patterns of `String.prototype.replace` are not modelled. The slot replacement is a literal first-occurrence splice.
- Render.LoadParts: on a stale exit the trace is only promised to be a prefix of `Load`'s events, and the cached loaders to lie between the old ones and `Load`'s. The model does not say at which part the stale check stopped it. The same holds for `LoadLayouts`, `LoadOne` and the `StaleLoading` exit of `ShownEffect`.
- Render.ShowRoute: exceptions from `getHTML`, `mount`, `destroy` and transitions are not modelled. Modelled throws are a rejected loader, a non-class constructor and a missing slot; a throwing guard is modelled in `Guards`.
- Components.EnsureComponent: the `maybe.length === 0` arity heuristic is a `Direct`/`Lazy` tagged union. The cache is an explicit object shared by the routers instead of a property of the function.
- Matching.SelectBest: `matches.sort` is modelled as selecting its first element. This is the element a stable sort puts first; the sorted array itself is not kept.
- Context.BuildContext: the context carries `history.state` as an identity (`HistState`). Instances do not record the context they were constructed with.
- SpaRouter.Router.Create: a non-array `routes` (a JavaScript type error) is not representable. Only the empty list is checked.
- Routes.FullPathOf: `RouteDef.path` is always a string, so a route without `path` (which routing.js:52-53 turns into `/undefined` or `base/undefined`) is not representable.
- Engines.ToEngine: the registry is a map of registered factories. Keys inherited from `Object.prototype` and the `console.warn` for an unknown engine are not modelled. `router/transitions/noopEngine.js` is not part of this model: the noop engine is a constant that calls nothing.
- Auth.AuthService.InitFromStorage: the auth service is an oracle with fixed answers. Its storage, token decoding and clock are not modelled, and neither is its internal `clear()` after a failed restore; `auth/AuthService.js` is not part of this model.
- The logger calls of `requireAuth` are not modelled.
- `router/routerInternals.js` is not part of this model. `Router.js` imports `ensureComponent` and `runGuards` from it, and the model uses the definitions in `router/internals/routing.js`.
- Neither render increments `renderId`, and `navigateTo` has no busy or same-URL check. The model therefore leaves those to the environment and invents no policy.

The model follows the code as written:

- `renderPipeline` releases `busy` only on no route, after a redirect and after a shown view. A block, a stale exit and a thrown error leave it set; there is no cleanup path.
- Router.js:165's comment says any falsy answer cancels; the code cancels only on `false`.
- The doc comment of `domCommit` calls the last layout outermost. The composition loop makes `layouts[0]` the outermost (`Commit.ComposeOutermost`).
- Neither render reuses layouts, commits only the leaf, or runs animation hooks.
