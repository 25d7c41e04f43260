/**
 * The render state machine of `renderPipeline(env, rid)` (router/internals/render.js).
 * Its view phase (out transition, teardown, loading, composition, swap, mounts, in
 * transition) is shared with the id-less `Router#render` (router/Router.js), which runs
 * the same steps without render-id checks and without the child-count condition on the
 * out transition.
 */
module Render {
  import opened Wrappers
  import opened Text
  import opened Paths
  import opened Context
  import opened Runtime
  import opened Routes
  import opened Matching
  import opened Guards
  import opened Components
  import opened Commit

  /** Which of the two render implementations runs: with a captured render id, or without. */
  datatype Variant = Pipeline(rid: int) | Legacy

  /** The state awaits may bump: `state` for the pipeline, none for the legacy render. */
  function Waiter(v: Variant, st: RenderState): RenderState? {
    if v.Pipeline? then st else null
  }

  /** The check `rid !== state.renderId` (never made by the legacy render). */
  predicate IsStale(v: Variant, st: RenderState)
    reads st
  {
    v.Pipeline? && v.rid != st.renderId
  }

  /** The layouts of the parent chain, outer to inner (`for (const p of parents) if (p.layout)`). */
  function LayoutRefs(parents: seq<Entry>): (refs: seq<ComponentRef>)
    ensures |refs| <= |parents|
    decreases |parents|
  {
    if parents == [] then []
    else (if parents[0].layout.Some? then [parents[0].layout.value] else []) + LayoutRefs(parents[1..])
  }

  /** `route.component || route.view`. */
  function LeafRef(route: CompiledRoute): Option<ComponentRef> {
    if route.component.Some? then route.component else route.view
  }

  /** The value `ref` resolves to is a class, and `inst` is an instance of it. */
  predicate InstanceOf(loads: LoaderId -> LoadAnswer, ref: Option<ComponentRef>, inst: Inst) {
    Resolve(loads, ref) == Value(Constructor(inst.ctor))
  }

  function OptSeq(view: Option<Inst>): seq<Inst> {
    if view.Some? then [view.value] else []
  }

  // ---------------------------------------------------------------------------------
  // The phases

  /**
   * The out transition: `await Promise.resolve(transition(mountEl, "out"))` when a
   * transition is configured and (in the pipeline) the mount point has children.
   */
  method TransitionOut(host: Host, mount: MountPoint, st: RenderState, v: Variant, transition: bool)
    returns (stale: bool)
    modifies host, st
    ensures var ran := transition && (v.Legacy? || mount.childElementCount > 0);
      (ran ==> host.trace == old(host.trace) + [Transitioned(Out)] && host.step == old(host.step) + 1)
      && (!ran ==> host.trace == old(host.trace) && host.step == old(host.step) && host.launched == old(host.launched))
      && (stale <==> ran && IsStale(v, st))
    ensures host.nextSerial == old(host.nextSerial) && host.launched >= old(host.launched)
    ensures st.renderId == old(st.renderId) + (if v.Pipeline? then host.launched - old(host.launched) else 0)
    ensures st.busy == old(st.busy) && st.currentView == old(st.currentView) && st.currentLayouts == old(st.currentLayouts)
  {
    stale := false;
    if transition && (v.Legacy? || mount.childElementCount > 0) {
      host.Record(Transitioned(Out));
      host.Await(Waiter(v, st));
      stale := v.Pipeline? && v.rid != st.renderId;
    }
  }

  /**
   * Teardown: `currentView?.destroy?.()`, `currentView = null`, then `destroy?.()` on
   * every old layout and `currentLayouts = []`.
   */
  method Teardown(host: Host, st: RenderState)
    modifies host, st
    ensures host.trace == old(host.trace) + DestroyEvents(OptSeq(old(st.currentView))) + DestroyEvents(old(st.currentLayouts))
    ensures st.currentView == None && st.currentLayouts == []
    ensures st.renderId == old(st.renderId) && st.busy == old(st.busy)
    ensures host.step == old(host.step) && host.launched == old(host.launched) && host.nextSerial == old(host.nextSerial)
  {
    DestroyAll(host, OptSeq(st.currentView));
    st.currentView := None;
    DestroyAll(host, st.currentLayouts);
    st.currentLayouts := [];
  }

  datatype LoadResult = Loaded(insts: seq<Inst>) | LoadStale | LoadThrew | LoadNotClass


  // ---------------------------------------------------------------------------------
  // What loading does

  /** `refs`, each as the value handed to `ensureComponent`. */
  function Opts(refs: seq<ComponentRef>): (r: seq<Option<ComponentRef>>)
    ensures |r| == |refs| && forall i :: 0 <= i < |refs| ==> r[i] == Some(refs[i])
  {
    seq(|refs|, i requires 0 <= i < |refs| => Some(refs[i]))
  }

  lemma OptsAppend(a: seq<ComponentRef>, b: seq<ComponentRef>)
    ensures Opts(a + b) == Opts(a) + Opts(b)
  {
    assert forall i :: 0 <= i < |a + b| ==> Opts(a + b)[i] == (Opts(a) + Opts(b))[i];
  }

  /**
   * What a render hands to `ensureComponent`, in order: the layouts of the parent chain,
   * outer to inner, then `route.component || route.view`. The route's own `layout` is
   * not among them.
   */
  function Parts(route: CompiledRoute): (refs: seq<Option<ComponentRef>>)
    ensures |refs| == |LayoutRefs(route.parents)| + 1 && refs[|refs| - 1] == LeafRef(route)
    ensures forall i :: 0 <= i < |refs| - 1 ==> refs[i] == Some(LayoutRefs(route.parents)[i])
  {
    Opts(LayoutRefs(route.parents)) + [LeafRef(route)]
  }

  /** The loader call `ensureComponent(ref)` makes: one, for a lazy reference whose loader is not cached. */
  function Fetch(ref: Option<ComponentRef>, cached: set<LoaderId>): seq<Event> {
    if ref.Some? && ref.value.Lazy? && ref.value.loader !in cached then [LoaderCalled(ref.value.loader)] else []
  }

  /** The cached loaders after `ensureComponent(ref)`: a lazy reference whose load resolves is cached. */
  function CachedAfter(loads: LoaderId -> LoadAnswer, ref: Option<ComponentRef>, cached: set<LoaderId>): set<LoaderId> {
    if ref.Some? && ref.value.Lazy? && loads(ref.value.loader).Resolved? then cached + {ref.value.loader} else cached
  }

  /** The value `ref` resolves to is a class. */
  predicate IsClass(loads: LoaderId -> LoadAnswer, ref: Option<ComponentRef>) {
    Resolve(loads, ref).Value? && Resolve(loads, ref).v.Constructor?
  }

  /** How loading ends when no stale check cuts it short: its result, its events and the cached loaders. */
  datatype Loading = Loading(result: LoadResult, events: seq<Event>, cached: set<LoaderId>)

  /** `done` loaded, then `r`: the instances joined when `r` loaded too, otherwise `r`'s exit. */
  function Then(done: seq<Inst>, r: LoadResult): LoadResult {
    if r.Loaded? then Loaded(done + r.insts) else r
  }

  /**
   * Loading `refs` in order, from the cached loaders `cached` and with `n` the serial of
   * the next instance, when no stale check fails: each reference is resolved (its loader
   * called when it is not cached) and its class instantiated once; the first reference
   * whose load rejects, or whose value is no class, ends the loading with that error.
   */
  function Load(loads: LoaderId -> LoadAnswer, refs: seq<Option<ComponentRef>>, cached: set<LoaderId>, n: nat)
    : (l: Loading)
    ensures !l.result.LoadStale? && cached <= l.cached
    ensures l.result.Loaded? ==> |l.result.insts| == |refs|
    decreases |refs|
  {
    if refs == [] then Loading(Loaded([]), [], cached)
    else
      var f := Fetch(refs[0], cached);
      var c := CachedAfter(loads, refs[0], cached);
      match Resolve(loads, refs[0])
      case LoadFailed => Loading(LoadThrew, f, c)
      case Value(v) =>
        if !v.Constructor? then Loading(LoadNotClass, f, c)
        else
          var inst := Inst(v.ctor, n);
          var rest := Load(loads, refs[1..], c, n + 1);
          Loading(Then([inst], rest.result), f + [Constructed(inst)] + rest.events, rest.cached)
  }

  /** Loading one reference: its loader call when needed, then its instance or its error. */
  lemma LoadSingle(loads: LoaderId -> LoadAnswer, ref: Option<ComponentRef>, cached: set<LoaderId>, n: nat)
    ensures var l := Load(loads, [ref], cached, n);
      var f := Fetch(ref, cached);
      var c := CachedAfter(loads, ref, cached);
      (Resolve(loads, ref).LoadFailed? ==> l == Loading(LoadThrew, f, c))
      && (Resolve(loads, ref).Value? && !IsClass(loads, ref) ==> l == Loading(LoadNotClass, f, c))
      && (IsClass(loads, ref) ==>
            l == Loading(Loaded([Inst(Resolve(loads, ref).v.ctor, n)]), f + [Constructed(Inst(Resolve(loads, ref).v.ctor, n))], c))
  {
    assert [ref][0] == ref && [ref][1..] == [];
    if IsClass(loads, ref) {
      var inst := Inst(Resolve(loads, ref).v.ctor, n);
      assert [inst] + [] == [inst];
      assert Fetch(ref, cached) + [Constructed(inst)] + [] == Fetch(ref, cached) + [Constructed(inst)];
    }
  }

  /** Loading `a + b` is loading `a` and, when all of `a` loaded, then `b` from where `a` left off. */
  /** Loading `a` and then, if it all loaded, `b`: the events and caches follow on, the instances concatenate. */
  function Join(la: Loading, lb: Loading): Loading
  {
    if la.result.Loaded? then Loading(Then(la.result.insts, lb.result), la.events + lb.events, lb.cached) else la
  }

  /** One loaded instance in front of a loading of the rest. */
  function Cons(inst: Inst, head: seq<Event>, rest: Loading): Loading
  {
    Loading(Then([inst], rest.result), head + rest.events, rest.cached)
  }

  predicate AppendLaw(loads: LoaderId -> LoadAnswer, a: seq<Option<ComponentRef>>, b: seq<Option<ComponentRef>>,
                      cached: set<LoaderId>, n: nat)
  {
    var la := Load(loads, a, cached, n);
    Load(loads, a + b, cached, n) == Join(la, Load(loads, b, la.cached, n + |a|))
  }

  lemma {:induction false} LoadAppend(loads: LoaderId -> LoadAnswer, a: seq<Option<ComponentRef>>,
                                      b: seq<Option<ComponentRef>>, cached: set<LoaderId>, n: nat)
    ensures AppendLaw(loads, a, b, cached, n)
    decreases |a|
  {
    if a == [] {
      assert a + b == b;
      var lb := Load(loads, b, cached, n);
      assert [] + lb.events == lb.events;
      if lb.result.Loaded? {
        assert [] + lb.result.insts == lb.result.insts;
      }
    } else {
      assert (a + b)[0] == a[0] && (a + b)[1..] == a[1..] + b;
      if IsClass(loads, a[0]) {
        LoadAppend(loads, a[1..], b, CachedAfter(loads, a[0], cached), n + 1);
        AppendLawCons(loads, a, b, cached, n);
      }
    }
  }

  /** The law for `a` follows from the law for `a[1..]` when `a[0]` is a class. */
  lemma AppendLawCons(loads: LoaderId -> LoadAnswer, a: seq<Option<ComponentRef>>, b: seq<Option<ComponentRef>>,
                      cached: set<LoaderId>, n: nat)
    requires a != [] && IsClass(loads, a[0])
    requires AppendLaw(loads, a[1..], b, CachedAfter(loads, a[0], cached), n + 1)
    ensures AppendLaw(loads, a, b, cached, n)
  {
    var inst := Inst(Resolve(loads, a[0]).v.ctor, n);
    var head := Fetch(a[0], cached) + [Constructed(inst)];
    var la' := Load(loads, a[1..], CachedAfter(loads, a[0], cached), n + 1);
    var lb := Load(loads, b, la'.cached, n + 1 + |a[1..]|);
    LoadClassHead(loads, a, cached, n);
    assert (a + b)[0] == a[0] && (a + b)[1..] == a[1..] + b;
    LoadClassHead(loads, a + b, cached, n);
    ConsJoin(inst, head, la', lb);
  }

  lemma ConsJoin(inst: Inst, head: seq<Event>, la: Loading, lb: Loading)
    ensures Cons(inst, head, Join(la, lb)) == Join(Cons(inst, head, la), lb)
  {
    if la.result.Loaded? {
      assert head + (la.events + lb.events) == (head + la.events) + lb.events;
      if lb.result.Loaded? {
        assert [inst] + (la.result.insts + lb.result.insts) == ([inst] + la.result.insts) + lb.result.insts;
      }
    }
  }

  /** Loading references that start with a class: its loader call, its instance, then the rest. */
  lemma LoadClassHead(loads: LoaderId -> LoadAnswer, refs: seq<Option<ComponentRef>>, cached: set<LoaderId>, n: nat)
    requires refs != [] && IsClass(loads, refs[0])
    ensures var inst := Inst(Resolve(loads, refs[0]).v.ctor, n);
      Load(loads, refs, cached, n)
        == Cons(inst, Fetch(refs[0], cached) + [Constructed(inst)],
                Load(loads, refs[1..], CachedAfter(loads, refs[0], cached), n + 1))
  {
  }

  /** Every reference but the `k`th resolves to a class before it, and the `k`th does not. */
  predicate FirstNonClass(loads: LoaderId -> LoadAnswer, refs: seq<Option<ComponentRef>>, k: nat) {
    k < |refs| && !IsClass(loads, refs[k]) && forall j :: 0 <= j < k ==> IsClass(loads, refs[j])
  }

  /**
   * Loading succeeds exactly when every reference resolves to a class, and then yields
   * one instance per reference, of its class, with consecutive serials from `n`.
   */
  lemma {:induction false} LoadedIff(loads: LoaderId -> LoadAnswer, refs: seq<Option<ComponentRef>>,
                                     cached: set<LoaderId>, n: nat)
    ensures var r := Load(loads, refs, cached, n).result;
      (r.Loaded? <==> forall i :: 0 <= i < |refs| ==> IsClass(loads, refs[i]))
      && (r.Loaded? ==> forall i :: 0 <= i < |refs| ==> Resolve(loads, refs[i]) == Value(Constructor(r.insts[i].ctor))
                                                        && r.insts[i].serial == n + i)
    decreases |refs|
  {
    if refs != [] && IsClass(loads, refs[0]) {
      var c := CachedAfter(loads, refs[0], cached);
      var inst := Inst(Resolve(loads, refs[0]).v.ctor, n);
      LoadedIff(loads, refs[1..], c, n + 1);
      var rest := Load(loads, refs[1..], c, n + 1).result;
      assert forall i :: 1 <= i < |refs| ==> refs[i] == refs[1..][i - 1];
      if rest.Loaded? {
        var insts := [inst] + rest.insts;
        assert forall i :: 1 <= i < |refs| ==> insts[i] == rest.insts[i - 1];
      }
    }
  }

  /**
   * Loading fails exactly at the first reference that is no class: with a thrown error
   * when that reference's load rejects, and with `LoadNotClass` when its value is no class.
   */
  lemma {:induction false} LoadFailsAt(loads: LoaderId -> LoadAnswer, refs: seq<Option<ComponentRef>>,
                                       cached: set<LoaderId>, n: nat, k: nat)
    requires FirstNonClass(loads, refs, k)
    ensures var r := Load(loads, refs, cached, n).result;
      (r == LoadThrew <==> Resolve(loads, refs[k]).LoadFailed?) && (r == LoadNotClass <==> Resolve(loads, refs[k]).Value?)
    decreases k
  {
    if k > 0 {
      assert IsClass(loads, refs[0]);
      var c := CachedAfter(loads, refs[0], cached);
      assert FirstNonClass(loads, refs[1..], k - 1) by {
        assert forall j :: 0 <= j < k - 1 ==> refs[1..][j] == refs[j + 1];
      }
      LoadFailsAt(loads, refs[1..], c, n + 1, k - 1);
    }
  }

  /**
   * A loading that began at trace `t0` with cached loaders `c0`, and has reached trace `t`
   * and cached loaders `c` with result `r`, kept to `l`: exactly `l`'s result, events and
   * cache when no stale check cut it short, and otherwise part of the way.
   */
  predicate Followed(r: LoadResult, l: Loading, t0: seq<Event>, t: seq<Event>, c0: set<LoaderId>, c: set<LoaderId>) {
    (!r.LoadStale? ==> r == l.result && t == t0 + l.events && c == l.cached)
    && (r.LoadStale? ==> t0 <= t <= t0 + l.events && c0 <= c <= l.cached)
  }

  /** A loading cut short within `a` is one cut short within `a + b`. */
  lemma FollowedPrefix(loads: LoaderId -> LoadAnswer, a: seq<Option<ComponentRef>>, b: seq<Option<ComponentRef>>,
                       c0: set<LoaderId>, n: nat, r: LoadResult, t0: seq<Event>, t: seq<Event>, c: set<LoaderId>)
    requires Followed(r, Load(loads, a, c0, n), t0, t, c0, c) && !r.Loaded?
    ensures Followed(r, Load(loads, a + b, c0, n), t0, t, c0, c)
  {
    LoadAppend(loads, a, b, c0, n);
    var la := Load(loads, a, c0, n);
    if la.result.Loaded? {
      var lb := Load(loads, b, la.cached, n + |a|);
      assert t0 + la.events <= t0 + (la.events + lb.events);
    }
  }

  /** Loading all of `a`, then `b` from where `a` left off, is loading `a + b`. */
  lemma FollowedThen(loads: LoaderId -> LoadAnswer, a: seq<Option<ComponentRef>>, b: seq<Option<ComponentRef>>,
                     c0: set<LoaderId>, n: nat, r: LoadResult, t0: seq<Event>, t: seq<Event>, c: set<LoaderId>)
    requires Load(loads, a, c0, n).result.Loaded?
    requires var la := Load(loads, a, c0, n);
      Followed(r, Load(loads, b, la.cached, n + |a|), t0 + la.events, t, la.cached, c)
    ensures Followed(Then(Load(loads, a, c0, n).result.insts, r), Load(loads, a + b, c0, n), t0, t, c0, c)
  {
    LoadAppend(loads, a, b, c0, n);
    var la := Load(loads, a, c0, n);
    FollowedJoin(r, la, Load(loads, b, la.cached, n + |a|), t0, t, c0, c);
  }

  lemma FollowedJoin(r: LoadResult, la: Loading, lb: Loading, t0: seq<Event>, t: seq<Event>,
                     c0: set<LoaderId>, c: set<LoaderId>)
    requires la.result.Loaded? && c0 <= la.cached
    requires Followed(r, lb, t0 + la.events, t, la.cached, c)
    ensures Followed(Then(la.result.insts, r), Join(la, lb), t0, t, c0, c)
  {
    assert t0 + la.events + lb.events == t0 + (la.events + lb.events);
    if r.LoadStale? {
      assert t0 <= t0 + la.events;
    }
  }

  /**
   * `for (const p of parents) { if (!p.layout) continue; const C = await
   * ensureComponent(p.layout); <stale check>; layoutInsts.push(new C(ctx)); }`: the
   * loading of the chain's layouts, outer to inner, that `Load` describes.
   */
  method LoadLayouts(host: Host, cache: ComponentCache, st: RenderState, v: Variant, parents: seq<Entry>)
    returns (r: LoadResult)
    requires cache.Valid(host.loads)
    modifies host, cache, st
    ensures cache.Valid(host.loads)
    ensures Followed(r, Load(host.loads, Opts(LayoutRefs(parents)), old(cache.entries.Keys), old(host.nextSerial)),
                     old(host.trace), host.trace, old(cache.entries.Keys), cache.entries.Keys)
    ensures r.Loaded? ==> host.nextSerial == old(host.nextSerial) + |r.insts|
    ensures r.LoadStale? ==> IsStale(v, st)
    ensures v.Pipeline? && v.rid == old(st.renderId) && host.launched == old(host.launched) ==> !r.LoadStale?
    ensures v.Legacy? ==> !r.LoadStale?
    ensures host.nextSerial >= old(host.nextSerial) && host.launched >= old(host.launched)
    ensures st.renderId == old(st.renderId) + (if v.Pipeline? then host.launched - old(host.launched) else 0)
    ensures st.busy == old(st.busy) && st.currentView == old(st.currentView) && st.currentLayouts == old(st.currentLayouts)
  {
    ghost var t0, c0, n := host.trace, cache.entries.Keys, host.nextSerial;
    var insts: seq<Inst> := [];
    var i := 0;
    assert parents[..0] == [] && t0 + [] == t0;
    while i < |parents|
      invariant 0 <= i <= |parents|
      invariant cache.Valid(host.loads)
      invariant Followed(Loaded(insts), Load(host.loads, Opts(LayoutRefs(parents[..i])), c0, n), t0, host.trace, c0,
                         cache.entries.Keys)
      invariant host.nextSerial == n + |insts|
      invariant v.Pipeline? && v.rid == old(st.renderId) ==> v.rid == st.renderId || host.launched != old(host.launched)
      invariant host.launched >= old(host.launched)
      invariant st.renderId == old(st.renderId) + (if v.Pipeline? then host.launched - old(host.launched) else 0)
      invariant st.busy == old(st.busy) && st.currentView == old(st.currentView) && st.currentLayouts == old(st.currentLayouts)
    {
      var step := LoadLayoutAt(host, cache, st, v, parents, i, insts, t0, c0, n);
      if !step.Loaded? {
        RefsOfRest(parents, i + 1);
        FollowedPrefix(host.loads, Opts(LayoutRefs(parents[..i + 1])), Opts(LayoutRefs(parents[i + 1..])), c0, n, step,
                       t0, host.trace, cache.entries.Keys);
        return step;
      }
      insts := step.insts;
      i := i + 1;
    }
    assert parents[..i] == parents;
    return Loaded(insts);
  }

  /** The chain's layouts are those of its first `k` parents followed by those of the rest. */
  lemma RefsOfRest(parents: seq<Entry>, k: nat)
    requires k <= |parents|
    ensures Opts(LayoutRefs(parents)) == Opts(LayoutRefs(parents[..k])) + Opts(LayoutRefs(parents[k..]))
  {
    assert parents[..k] + parents[k..] == parents;
    LayoutRefsAppend(parents[..k], parents[k..]);
    OptsAppend(LayoutRefs(parents[..k]), LayoutRefs(parents[k..]));
  }

  /**
   * One iteration, for `parents[i]`: nothing without a layout, else its class loaded,
   * checked for staleness and instantiated. Having kept to `Load` over the first `i`
   * parents' layouts, the loading keeps to it over the first `i + 1`.
   */
  method LoadLayoutAt(host: Host, cache: ComponentCache, st: RenderState, v: Variant, parents: seq<Entry>, i: nat,
                      insts: seq<Inst>, ghost t0: seq<Event>, ghost c0: set<LoaderId>, ghost n: nat)
    returns (r: LoadResult)
    requires i < |parents|
    requires cache.Valid(host.loads)
    requires Followed(Loaded(insts), Load(host.loads, Opts(LayoutRefs(parents[..i])), c0, n), t0, host.trace, c0,
                      cache.entries.Keys)
    requires host.nextSerial == n + |insts|
    modifies host, cache, st
    ensures cache.Valid(host.loads)
    ensures Followed(r, Load(host.loads, Opts(LayoutRefs(parents[..i + 1])), c0, n), t0, host.trace, c0,
                     cache.entries.Keys)
    ensures r.Loaded? ==> host.nextSerial == n + |r.insts|
    ensures r.LoadStale? ==> IsStale(v, st)
    ensures v.Pipeline? && v.rid == old(st.renderId) && host.launched == old(host.launched) ==> !r.LoadStale?
    ensures v.Legacy? ==> !r.LoadStale?
    ensures host.nextSerial >= old(host.nextSerial) && host.launched >= old(host.launched)
    ensures st.renderId == old(st.renderId) + (if v.Pipeline? then host.launched - old(host.launched) else 0)
    ensures st.busy == old(st.busy) && st.currentView == old(st.currentView) && st.currentLayouts == old(st.currentLayouts)
  {
    LayoutRefsAt(parents, i);
    var p := parents[i];
    if p.layout.None? {
      return Loaded(insts);
    }
    ghost var a := Opts(LayoutRefs(parents[..i]));
    OptsAppend(LayoutRefs(parents[..i]), [p.layout.value]);
    assert Opts([p.layout.value]) == [p.layout];
    var one := LoadOne(host, cache, st, v, p.layout);
    FollowedThen(host.loads, a, [p.layout], c0, n, one, t0, host.trace, cache.entries.Keys);
    return Then(insts, one);
  }

  /**
   * `const C = await ensureComponent(ref); <stale check>; new C(ctx)`, which `Load` of
   * `[ref]` describes. A rejected load throws at the await, before the check; `new` on
   * a non-class throws a `TypeError`.
   */
  method LoadOne(host: Host, cache: ComponentCache, st: RenderState, v: Variant, ref: Option<ComponentRef>)
    returns (r: LoadResult)
    requires cache.Valid(host.loads)
    modifies host, cache, st
    ensures cache.Valid(host.loads)
    ensures Followed(r, Load(host.loads, [ref], old(cache.entries.Keys), old(host.nextSerial)),
                     old(host.trace), host.trace, old(cache.entries.Keys), cache.entries.Keys)
    ensures host.nextSerial == old(host.nextSerial) + (if r.Loaded? then 1 else 0)
    ensures r.Loaded? ==> !IsStale(v, st)
    ensures r.LoadStale? ==> IsStale(v, st)
    ensures v.Pipeline? && v.rid == old(st.renderId) && host.launched == old(host.launched) ==> !r.LoadStale?
    ensures v.Legacy? ==> !r.LoadStale?
    ensures host.launched >= old(host.launched)
    ensures st.renderId == old(st.renderId) + (if v.Pipeline? then host.launched - old(host.launched) else 0)
    ensures st.busy == old(st.busy) && st.currentView == old(st.currentView) && st.currentLayouts == old(st.currentLayouts)
  {
    ghost var t0, c0 := host.trace, cache.entries.Keys;
    LoadSingle(host.loads, ref, c0, host.nextSerial);
    var res := EnsureComponent(host, cache, ref, Waiter(v, st));
    assert host.trace == t0 + Fetch(ref, c0);
    assert cache.entries.Keys == CachedAfter(host.loads, ref, c0);
    host.Await(Waiter(v, st));
    if res.LoadFailed? {
      return LoadThrew;
    }
    if v.Pipeline? && v.rid != st.renderId {
      return LoadStale;
    }
    var inst := Instantiate(host, res.v);
    if inst.None? {
      return LoadNotClass;
    }
    return Loaded([inst.value]);
  }

  lemma LayoutRefsAt(parents: seq<Entry>, i: nat)
    requires i < |parents|
    ensures parents[i].layout.Some? ==> LayoutRefs(parents[..i + 1]) == LayoutRefs(parents[..i]) + [parents[i].layout.value]
    ensures parents[i].layout.None? ==> LayoutRefs(parents[..i + 1]) == LayoutRefs(parents[..i])
  {
    LayoutRefsAppend(parents[..i], [parents[i]]);
    assert parents[..i + 1] == parents[..i] + [parents[i]];
    assert [parents[i]][1..] == [];
    assert LayoutRefs(parents[..i]) + [] == LayoutRefs(parents[..i]);
  }

  lemma {:induction false} LayoutRefsAppend(a: seq<Entry>, b: seq<Entry>)
    ensures LayoutRefs(a + b) == LayoutRefs(a) + LayoutRefs(b)
    decreases |a|
  {
    if a == [] {
      assert a + b == b;
    } else {
      var h := if a[0].layout.Some? then [a[0].layout.value] else [];
      assert (a + b)[0] == a[0] && (a + b)[1..] == a[1..] + b;
      assert LayoutRefs(a + b) == h + LayoutRefs(a[1..] + b);
      LayoutRefsAppend(a[1..], b);
      assert LayoutRefs(a) == h + LayoutRefs(a[1..]);
    }
  }


  /** `let html = await leaf.getHTML()`, the stale check, then the layouts' composition. */
  method BuildPage(host: Host, st: RenderState, v: Variant, layouts: seq<Inst>, leaf: Inst)
    returns (r: ComposeResult)
    modifies host, st
    ensures r.Composed? ==> Compose(ToText(host.markup(leaf)), Shells(host.markup, layouts), Slot) == Some(r.html)
    ensures r.MissingSlot? ==> Compose(ToText(host.markup(leaf)), Shells(host.markup, layouts), Slot).None?
    ensures r.ComposeStale? ==> IsStale(v, st)
    ensures v.Pipeline? && v.rid == old(st.renderId) && host.launched == old(host.launched) ==> !r.ComposeStale?
    ensures v.Legacy? ==> !r.ComposeStale?
    ensures host.trace == old(host.trace) && host.nextSerial == old(host.nextSerial) && host.launched >= old(host.launched)
    ensures st.renderId == old(st.renderId) + (if v.Pipeline? then host.launched - old(host.launched) else 0)
    ensures st.busy == old(st.busy) && st.currentView == old(st.currentView) && st.currentLayouts == old(st.currentLayouts)
  {
    host.Await(Waiter(v, st));
    if v.Pipeline? && v.rid != st.renderId {
      return ComposeStale;
    }
    var html := ToText(host.markup(leaf));
    r := ComposeLayouts(host, layouts, html, Slot, if v.Pipeline? then Some(v.rid) else None, Waiter(v, st));
  }

  /**
   * `mountEl.innerHTML = html`, then `currentLayouts = layouts` with each layout's
   * `mount?.()` in order, then `currentView = leaf` and `leaf.mount?.()`.
   */
  method CommitPage(host: Host, mount: MountPoint, st: RenderState, v: Variant, page: string, layouts: seq<Inst>, leaf: Inst)
    modifies host, mount, st
    ensures mount.innerHTML == page && mount.childElementCount == host.elementCount(page)
    ensures host.trace == old(host.trace) + [Swapped(page)] + MountEvents(layouts + [leaf])
    ensures st.currentLayouts == layouts && st.currentView == Some(leaf) && st.busy == old(st.busy)
    ensures host.nextSerial == old(host.nextSerial) && host.launched >= old(host.launched)
    ensures st.renderId == old(st.renderId) + (if v.Pipeline? then host.launched - old(host.launched) else 0)
  {
    host.Swap(mount, page, Waiter(v, st));
    st.currentLayouts := layouts;
    MountAll(host, layouts);
    st.currentView := Some(leaf);
    MountAll(host, [leaf]);
    MountEventsAppend(layouts, [leaf]);
  }

  /** The in transition: `await Promise.resolve(transition(mountEl, "in"))`, then the stale check. */
  method TransitionIn(host: Host, st: RenderState, v: Variant, transition: bool) returns (stale: bool)
    modifies host, st
    ensures host.trace == old(host.trace) + (if transition then [Transitioned(In)] else [])
    ensures stale <==> transition && IsStale(v, st)
    ensures !transition ==> host.launched == old(host.launched)
    ensures host.nextSerial == old(host.nextSerial) && host.launched >= old(host.launched)
    ensures st.renderId == old(st.renderId) + (if v.Pipeline? then host.launched - old(host.launched) else 0)
    ensures st.busy == old(st.busy) && st.currentView == old(st.currentView) && st.currentLayouts == old(st.currentLayouts)
  {
    stale := false;
    if transition {
      host.Record(Transitioned(In));
      host.Await(Waiter(v, st));
      stale := v.Pipeline? && v.rid != st.renderId;
    }
  }

  // ---------------------------------------------------------------------------------
  // The view phase as a whole

  /** How the view phase ends: shown, abandoned as stale at one of its checks, or thrown. */
  datatype ViewExit =
    | Shown
    | StaleOut | StaleLoading | StalePage | StaleIn
    | LoadError | NotAClass | SlotMissing
  {
    /** Exits after the teardown that leave the mount point as it was. */
    predicate Unwritten() {
      StaleLoading? || StalePage? || LoadError? || NotAClass? || SlotMissing?
    }
    /** Exits after the swap. */
    predicate Written() {
      Shown? || StaleIn?
    }
    predicate Stale() {
      StaleOut? || StaleLoading? || StalePage? || StaleIn?
    }
  }

  /** What the view phase changes: the trace, the mount point, the current view and layouts, the cached loaders. */
  datatype Scene = Scene(trace: seq<Event>, html: string, count: nat, view: Option<Inst>, layouts: seq<Inst>,
                         cached: set<LoaderId>)

  function SceneOf(host: Host, mount: MountPoint, st: RenderState, cache: ComponentCache): Scene
    reads host, mount, st, cache
  {
    Scene(host.trace, mount.innerHTML, mount.childElementCount, st.currentView, st.currentLayouts, cache.entries.Keys)
  }

  /** The page for loaded instances (the layouts, then the leaf): the leaf's markup composed into the layouts' shells. */
  function Page(host: Host, insts: seq<Inst>): Option<string>
    requires |insts| > 0
  {
    Compose(ToText(host.markup(insts[|insts| - 1])), Shells(host.markup, insts[..|insts| - 1]), Slot)
  }

  /**
   * The scene `s` once `insts` (the layouts, then the leaf) are loaded and the trace was
   * `pre`: a stale page or a missing slot adds nothing, and the missing slot means the
   * composition fails; otherwise the instances are current, the mount point holds the
   * composed page, and the trace shows the swap, the mounts (layouts outer to inner,
   * then the leaf) and the in transition.
   */
  predicate LoadedEffect(host: Host, transition: bool, exit: ViewExit, pre: seq<Event>, insts: seq<Inst>, s: Scene)
    requires |insts| > 0
  {
    (!exit.Written() ==> s.trace == pre)
    && (exit.SlotMissing? ==> Page(host, insts).None?)
    && (exit.Written() ==>
          s.view == Some(insts[|insts| - 1]) && s.layouts == insts[..|insts| - 1]
          && Page(host, insts) == Some(s.html) && s.count == host.elementCount(s.html)
          && s.trace == pre + [Swapped(s.html)] + MountEvents(insts) + (if transition then [Transitioned(In)] else []))
  }

  /**
   * The scene `s` after the teardown, when `pre` was the trace at the teardown's end,
   * `cached` the cached loaders and `serial0` the next serial: nothing is current before
   * the swap; loading keeps to `Load` of the route's parts, only part of the way when a
   * stale check cuts it short; a load error or a non-class is reported exactly when
   * `Load` ends in it; once everything is loaded, `LoadedEffect` holds.
   */
  predicate ShownEffect(host: Host, transition: bool, route: CompiledRoute, exit: ViewExit,
                        pre: seq<Event>, cached: set<LoaderId>, serial0: nat, s: Scene)
  {
    var l := Load(host.loads, Parts(route), cached, serial0);
    (exit.Unwritten() ==> s.view == None && s.layouts == [])
    && (exit.StaleLoading? ==> pre <= s.trace <= pre + l.events && cached <= s.cached <= l.cached)
    && (!exit.StaleLoading? ==> s.cached == l.cached)
    && (exit.LoadError? || exit.NotAClass? ==> s.trace == pre + l.events)
    && (exit.LoadError? <==> l.result == LoadThrew && !exit.StaleLoading?)
    && (exit.NotAClass? <==> l.result == LoadNotClass && !exit.StaleLoading?)
    && (l.result.Loaded? && !exit.StaleLoading? ==> LoadedEffect(host, transition, exit, pre + l.events, l.result.insts, s))
  }

  /**
   * The whole view phase from scene `s0` to scene `s`: a stale out transition leaves
   * everything in place; any other exit comes after the teardown of `s0.view` and
   * `s0.layouts` and is described by `ShownEffect`; no exit before the swap writes the
   * mount point.
   */
  predicate ViewEffect(host: Host, v: Variant, transition: bool, route: CompiledRoute, exit: ViewExit,
                       s0: Scene, serial0: nat, s: Scene)
  {
    var ran := transition && (v.Legacy? || s0.count > 0);
    var outEv := if ran then [Transitioned(Out)] else [];
    (exit.StaleOut? ==>
       ran && s.trace == s0.trace + outEv && s.view == s0.view && s.layouts == s0.layouts && s.cached == s0.cached)
    && (!exit.StaleOut? ==>
          ShownEffect(host, transition, route, exit,
                      s0.trace + outEv + DestroyEvents(OptSeq(s0.view)) + DestroyEvents(s0.layouts), s0.cached, serial0, s))
    && (exit.StaleOut? || exit.Unwritten() ==> s.html == s0.html && s.count == s0.count)
  }

  /**
   * A shown page's view and layouts are the instances `Load` makes: of the leaf's class
   * and of each parent layout's class, outer to inner, with consecutive serials.
   */
  lemma ShownInstances(host: Host, transition: bool, route: CompiledRoute, exit: ViewExit,
                       pre: seq<Event>, cached: set<LoaderId>, serial0: nat, s: Scene)
    requires ShownEffect(host, transition, route, exit, pre, cached, serial0, s) && exit.Written()
    ensures s.view.Some? && InstanceOf(host.loads, LeafRef(route), s.view.value)
    ensures |s.layouts| == |LayoutRefs(route.parents)| && s.view.value.serial == serial0 + |s.layouts|
    ensures forall i :: 0 <= i < |s.layouts| ==>
      InstanceOf(host.loads, Some(LayoutRefs(route.parents)[i]), s.layouts[i]) && s.layouts[i].serial == serial0 + i
  {
    var refs := Parts(route);
    LoadedIff(host.loads, refs, cached, serial0);
    var insts := Load(host.loads, refs, cached, serial0).result.insts;
    assert forall i :: 0 <= i < |s.layouts| ==> s.layouts[i] == insts[i];
  }

  /**
   * With no stale check failing, a route whose parts all resolve to classes and whose
   * layouts all carry the slot is shown.
   */
  lemma ViewShown(host: Host, v: Variant, transition: bool, route: CompiledRoute, exit: ViewExit,
                  s0: Scene, serial0: nat, s: Scene)
    requires ViewEffect(host, v, transition, route, exit, s0, serial0, s) && !exit.Stale()
    requires forall i :: 0 <= i < |Parts(route)| ==> IsClass(host.loads, Parts(route)[i])
    requires Page(host, Made(host.loads, Parts(route), serial0)).Some?
    ensures exit == Shown
  {
    var refs := Parts(route);
    var outEv := if transition && (v.Legacy? || s0.count > 0) then [Transitioned(Out)] else [];
    var pre := s0.trace + outEv + DestroyEvents(OptSeq(s0.view)) + DestroyEvents(s0.layouts);
    LoadedMade(host.loads, refs, s0.cached, serial0);
    var l := Load(host.loads, refs, s0.cached, serial0);
    assert ShownEffect(host, transition, route, exit, pre, s0.cached, serial0, s);
    assert LoadedEffect(host, transition, exit, pre + l.events, l.result.insts, s);
  }

  /**
   * With no stale check failing, a route whose parts all resolve to classes but some of
   * whose layouts lack the slot ends in the missing-slot throw.
   */
  lemma ViewSlotMissing(host: Host, v: Variant, transition: bool, route: CompiledRoute, exit: ViewExit,
                        s0: Scene, serial0: nat, s: Scene)
    requires ViewEffect(host, v, transition, route, exit, s0, serial0, s) && !exit.Stale()
    requires forall i :: 0 <= i < |Parts(route)| ==> IsClass(host.loads, Parts(route)[i])
    requires Page(host, Made(host.loads, Parts(route), serial0)).None?
    ensures exit == SlotMissing
  {
    var refs := Parts(route);
    var outEv := if transition && (v.Legacy? || s0.count > 0) then [Transitioned(Out)] else [];
    var pre := s0.trace + outEv + DestroyEvents(OptSeq(s0.view)) + DestroyEvents(s0.layouts);
    LoadedMade(host.loads, refs, s0.cached, serial0);
    var l := Load(host.loads, refs, s0.cached, serial0);
    assert ShownEffect(host, transition, route, exit, pre, s0.cached, serial0, s);
    assert LoadedEffect(host, transition, exit, pre + l.events, l.result.insts, s);
  }

  /** When every reference is a class, loading yields exactly the instances `Made` lists. */
  lemma LoadedMade(loads: LoaderId -> LoadAnswer, refs: seq<Option<ComponentRef>>, cached: set<LoaderId>, n: nat)
    requires forall i :: 0 <= i < |refs| ==> IsClass(loads, refs[i])
    ensures Load(loads, refs, cached, n).result == Loaded(Made(loads, refs, n))
  {
    LoadedIff(loads, refs, cached, n);
    var insts := Load(loads, refs, cached, n).result.insts;
    assert forall i :: 0 <= i < |refs| ==> insts[i] == Made(loads, refs, n)[i];
  }

  /** The instances loading makes when every reference is a class: one per reference, of its class, serials from `n`. */
  function Made(loads: LoaderId -> LoadAnswer, refs: seq<Option<ComponentRef>>, n: nat): (insts: seq<Inst>)
    requires forall i :: 0 <= i < |refs| ==> IsClass(loads, refs[i])
    ensures |insts| == |refs|
  {
    seq(|refs|, i requires 0 <= i < |refs| && IsClass(loads, refs[i]) => Inst(Resolve(loads, refs[i]).v.ctor, n + i))
  }

  /**
   * A view phase that throws names the part at fault: the first part that is no class
   * either fails to load (`LoadError`) or is some other non-class value (`NotAClass`).
   */
  lemma ViewThrows(host: Host, v: Variant, transition: bool, route: CompiledRoute, exit: ViewExit,
                   s0: Scene, serial0: nat, s: Scene)
    requires ViewEffect(host, v, transition, route, exit, s0, serial0, s) && (exit.LoadError? || exit.NotAClass?)
    ensures exists k: nat :: FirstNonClass(host.loads, Parts(route), k)
                        && (exit.LoadError? <==> Resolve(host.loads, Parts(route)[k]).LoadFailed?)
  {
    var refs := Parts(route);
    LoadedIff(host.loads, refs, s0.cached, serial0);
    var k :| 0 <= k < |refs| && !IsClass(host.loads, refs[k]);
    var k0 := FirstOf(host.loads, refs, k);
    LoadFailsAt(host.loads, refs, s0.cached, serial0, k0);
  }

  /** Some reference at or before `k` is the first that is no class. */
  lemma {:induction false} FirstOf(loads: LoaderId -> LoadAnswer, refs: seq<Option<ComponentRef>>, k: nat) returns (k0: nat)
    requires k < |refs| && !IsClass(loads, refs[k])
    ensures k0 <= k && FirstNonClass(loads, refs, k0)
    decreases k
  {
    if forall j :: 0 <= j < k ==> IsClass(loads, refs[j]) {
      k0 := k;
    } else {
      var j :| 0 <= j < k && !IsClass(loads, refs[j]);
      k0 := FirstOf(loads, refs, j);
    }
  }

  /** Loads the layouts of `route.parents`, then its leaf, as `Load` of `Parts(route)` describes. */
  method LoadParts(host: Host, cache: ComponentCache, st: RenderState, v: Variant, route: CompiledRoute)
    returns (r: LoadResult)
    requires cache.Valid(host.loads)
    modifies host, cache, st
    ensures cache.Valid(host.loads)
    ensures Followed(r, Load(host.loads, Parts(route), old(cache.entries.Keys), old(host.nextSerial)),
                     old(host.trace), host.trace, old(cache.entries.Keys), cache.entries.Keys)
    ensures r.LoadStale? ==> IsStale(v, st)
    ensures v.Legacy? || (v.rid == old(st.renderId) && host.launched == old(host.launched)) ==> !r.LoadStale?
    ensures host.launched >= old(host.launched)
    ensures st.renderId == old(st.renderId) + (if v.Pipeline? then host.launched - old(host.launched) else 0)
    ensures st.busy == old(st.busy) && st.currentView == old(st.currentView) && st.currentLayouts == old(st.currentLayouts)
  {
    ghost var t0, c0, n := host.trace, cache.entries.Keys, host.nextSerial;
    ghost var a := Opts(LayoutRefs(route.parents));
    var lr := LoadLayouts(host, cache, st, v, route.parents);
    if !lr.Loaded? {
      FollowedPrefix(host.loads, a, [LeafRef(route)], c0, n, lr, t0, host.trace, cache.entries.Keys);
      return lr;
    }
    var lf := LoadOne(host, cache, st, v, LeafRef(route));
    FollowedThen(host.loads, a, [LeafRef(route)], c0, n, lf, t0, host.trace, cache.entries.Keys);
    r := Then(lr.insts, lf);
  }

  /** Composition, swap, mounts and the in transition for loaded `layouts` and `leaf`. */
  method Present(host: Host, mount: MountPoint, st: RenderState, v: Variant, transition: bool,
                 layouts: seq<Inst>, leaf: Inst)
    returns (exit: ViewExit)
    modifies host, mount, st
    ensures exit == StalePage || exit == SlotMissing || exit.Written()
    ensures !exit.Written() ==>
      host.trace == old(host.trace) && st.currentView == old(st.currentView) && st.currentLayouts == old(st.currentLayouts)
      && mount.innerHTML == old(mount.innerHTML) && mount.childElementCount == old(mount.childElementCount)
    ensures exit == SlotMissing ==> Compose(ToText(host.markup(leaf)), Shells(host.markup, layouts), Slot).None?
    ensures exit.Written() ==>
      st.currentView == Some(leaf) && st.currentLayouts == layouts
      && Compose(ToText(host.markup(leaf)), Shells(host.markup, layouts), Slot) == Some(mount.innerHTML)
      && mount.childElementCount == host.elementCount(mount.innerHTML)
      && host.trace == old(host.trace) + ([Swapped(mount.innerHTML)] + MountEvents(layouts + [leaf])
                                         + (if transition then [Transitioned(In)] else []))
    ensures exit.Stale() ==> IsStale(v, st)
    ensures v.Legacy? || (v.rid == old(st.renderId) && host.launched == old(host.launched)) ==> !exit.Stale()
    ensures host.launched >= old(host.launched)
    ensures st.renderId == old(st.renderId) + (if v.Pipeline? then host.launched - old(host.launched) else 0)
    ensures st.busy == old(st.busy)
  {
    var pg := BuildPage(host, st, v, layouts, leaf);
    if !pg.Composed? {
      return if pg.ComposeStale? then StalePage else SlotMissing;
    }
    exit := CommitAndEnter(host, mount, st, v, transition, pg.html, layouts, leaf);
  }

  /** The swap and mounts of `CommitPage`, then the in transition. */
  method CommitAndEnter(host: Host, mount: MountPoint, st: RenderState, v: Variant, transition: bool,
                        page: string, layouts: seq<Inst>, leaf: Inst)
    returns (exit: ViewExit)
    modifies host, mount, st
    ensures exit.Written() && (exit.StaleIn? <==> transition && IsStale(v, st))
    ensures st.currentView == Some(leaf) && st.currentLayouts == layouts
    ensures mount.innerHTML == page && mount.childElementCount == host.elementCount(page)
    ensures host.trace == old(host.trace) + ([Swapped(page)] + MountEvents(layouts + [leaf])
                                            + (if transition then [Transitioned(In)] else []))
    ensures host.launched >= old(host.launched)
    ensures st.renderId == old(st.renderId) + (if v.Pipeline? then host.launched - old(host.launched) else 0)
    ensures st.busy == old(st.busy)
  {
    ghost var t2 := host.trace;
    ghost var inEv: seq<Event> := if transition then [Transitioned(In)] else [];
    CommitPage(host, mount, st, v, page, layouts, leaf);
    ghost var t3 := host.trace;
    var late := TransitionIn(host, st, v, transition);
    assert host.trace == t3 + inEv;
    assert t3 + inEv == t2 + ([Swapped(page)] + MountEvents(layouts + [leaf]) + inEv);
    exit := if late then StaleIn else Shown;
  }

  /** Loading, composition, swap, mounts and the in transition, after the teardown. */
  method LoadAndShow(host: Host, cache: ComponentCache, mount: MountPoint, st: RenderState, v: Variant,
                     transition: bool, route: CompiledRoute)
    returns (exit: ViewExit)
    requires cache.Valid(host.loads)
    requires st.currentView == None && st.currentLayouts == []
    modifies host, cache, mount, st
    ensures cache.Valid(host.loads)
    ensures !exit.StaleOut?
    ensures ShownEffect(host, transition, route, exit, old(host.trace), old(cache.entries.Keys), old(host.nextSerial),
                        SceneOf(host, mount, st, cache))
    ensures old(host.trace) <= host.trace
    ensures exit.Unwritten() ==> mount.innerHTML == old(mount.innerHTML) && mount.childElementCount == old(mount.childElementCount)
    ensures exit.Stale() ==> IsStale(v, st)
    ensures v.Legacy? || (v.rid == old(st.renderId) && host.launched == old(host.launched)) ==> !exit.Stale()
    ensures host.launched >= old(host.launched)
    ensures st.renderId == old(st.renderId) + (if v.Pipeline? then host.launched - old(host.launched) else 0)
    ensures st.busy == old(st.busy)
  {
    ghost var pre, c0, n := host.trace, cache.entries.Keys, host.nextSerial;
    ghost var l := Load(host.loads, Parts(route), c0, n);
    var lr := LoadParts(host, cache, st, v, route);
    if !lr.Loaded? {
      exit := if lr.LoadStale? then StaleLoading else if lr.LoadThrew? then LoadError else NotAClass;
      ShownUnloaded(host, transition, route, exit, pre, c0, n, SceneOf(host, mount, st, cache), lr);
      return;
    }
    assert lr == l.result && host.trace == pre + l.events && cache.entries.Keys == l.cached;
    exit := PresentLoaded(host, cache, mount, st, v, transition, lr.insts);
    ShownLoaded(host, transition, route, exit, pre, c0, n, SceneOf(host, mount, st, cache));
  }

  /** `Present` for loaded `insts`, the layouts and then the leaf. */
  method PresentLoaded(host: Host, cache: ComponentCache, mount: MountPoint, st: RenderState, v: Variant,
                       transition: bool, insts: seq<Inst>)
    returns (exit: ViewExit)
    requires |insts| > 0
    modifies host, mount, st
    ensures exit == StalePage || exit == SlotMissing || exit.Written()
    ensures LoadedEffect(host, transition, exit, old(host.trace), insts, SceneOf(host, mount, st, cache))
    ensures !exit.Written() ==>
      st.currentView == old(st.currentView) && st.currentLayouts == old(st.currentLayouts)
      && mount.innerHTML == old(mount.innerHTML) && mount.childElementCount == old(mount.childElementCount)
    ensures exit.Stale() ==> IsStale(v, st)
    ensures v.Legacy? || (v.rid == old(st.renderId) && host.launched == old(host.launched)) ==> !exit.Stale()
    ensures host.launched >= old(host.launched)
    ensures st.renderId == old(st.renderId) + (if v.Pipeline? then host.launched - old(host.launched) else 0)
    ensures st.busy == old(st.busy)
  {
    var layouts := insts[..|insts| - 1];
    var leaf := insts[|insts| - 1];
    assert layouts + [leaf] == insts;
    exit := Present(host, mount, st, v, transition, layouts, leaf);
    PresentedEffect(host, transition, exit, old(host.trace), layouts, leaf, SceneOf(host, mount, st, cache));
  }

  lemma ShownUnloaded(host: Host, transition: bool, route: CompiledRoute, exit: ViewExit,
                      pre: seq<Event>, cached: set<LoaderId>, serial0: nat, s: Scene, r: LoadResult)
    requires Followed(r, Load(host.loads, Parts(route), cached, serial0), pre, s.trace, cached, s.cached) && !r.Loaded?
    requires exit == if r.LoadStale? then StaleLoading else if r.LoadThrew? then LoadError else NotAClass
    requires s.view == None && s.layouts == []
    ensures ShownEffect(host, transition, route, exit, pre, cached, serial0, s)
  {
  }

  lemma ShownLoaded(host: Host, transition: bool, route: CompiledRoute, exit: ViewExit,
                    pre: seq<Event>, cached: set<LoaderId>, serial0: nat, s: Scene)
    requires Load(host.loads, Parts(route), cached, serial0).result.Loaded?
    requires s.cached == Load(host.loads, Parts(route), cached, serial0).cached
    requires exit == StalePage || exit == SlotMissing || exit.Written()
    requires !exit.Written() ==> s.view == None && s.layouts == []
    requires LoadedEffect(host, transition, exit, pre + Load(host.loads, Parts(route), cached, serial0).events,
                          Load(host.loads, Parts(route), cached, serial0).result.insts, s)
    ensures ShownEffect(host, transition, route, exit, pre, cached, serial0, s)
  {
  }

  /** `Present`'s outcome for `layouts` and `leaf` is the `LoadedEffect` of `layouts + [leaf]`. */
  lemma PresentedEffect(host: Host, transition: bool, exit: ViewExit, pre: seq<Event>, layouts: seq<Inst>, leaf: Inst,
                        s: Scene)
    requires !exit.Written() ==> s.trace == pre
    requires exit == SlotMissing ==> Compose(ToText(host.markup(leaf)), Shells(host.markup, layouts), Slot).None?
    requires exit.Written() ==>
      s.view == Some(leaf) && s.layouts == layouts
      && Compose(ToText(host.markup(leaf)), Shells(host.markup, layouts), Slot) == Some(s.html)
      && s.count == host.elementCount(s.html)
      && s.trace == pre + ([Swapped(s.html)] + MountEvents(layouts + [leaf]) + (if transition then [Transitioned(In)] else []))
    ensures LoadedEffect(host, transition, exit, pre, layouts + [leaf], s)
  {
    var insts := layouts + [leaf];
    assert insts[..|insts| - 1] == layouts && insts[|insts| - 1] == leaf;
  }

  /**
   * The view phase: out transition, stale check, teardown, then `LoadAndShow`. Shared by
   * the pipeline (`Pipeline(rid)`) and the legacy render (`Legacy`).
   */
  method ShowRoute(host: Host, cache: ComponentCache, mount: MountPoint, st: RenderState, v: Variant,
                   transition: bool, route: CompiledRoute)
    returns (exit: ViewExit)
    requires cache.Valid(host.loads)
    modifies host, cache, mount, st
    ensures cache.Valid(host.loads)
    ensures ViewEffect(host, v, transition, route, exit, old(SceneOf(host, mount, st, cache)), old(host.nextSerial),
                       SceneOf(host, mount, st, cache))
    ensures old(host.trace) <= host.trace
    ensures exit.Stale() ==> IsStale(v, st)
    ensures v.Legacy? || (v.rid == old(st.renderId) && host.launched == old(host.launched)) ==> !exit.Stale()
    ensures host.launched >= old(host.launched)
    ensures st.renderId == old(st.renderId) + (if v.Pipeline? then host.launched - old(host.launched) else 0)
    ensures st.busy == old(st.busy)
  {
    ghost var s0 := SceneOf(host, mount, st, cache);
    ghost var outEv: seq<Event> := if transition && (v.Legacy? || s0.count > 0) then [Transitioned(Out)] else [];
    var early := TransitionOut(host, mount, st, v, transition);
    assert host.trace == s0.trace + outEv;
    if early {
      return StaleOut;
    }
    Teardown(host, st);
    ghost var pre := host.trace;
    assert pre == s0.trace + outEv + DestroyEvents(OptSeq(s0.view)) + DestroyEvents(s0.layouts);
    assert cache.entries.Keys == s0.cached && host.nextSerial == old(host.nextSerial);
    exit := LoadAndShow(host, cache, mount, st, v, transition, route);
    ViewOfShown(host, v, transition, route, exit, s0, old(host.nextSerial), SceneOf(host, mount, st, cache));
  }

  /** A view phase that got past the outgoing transition: torn down, then loaded and shown. */
  lemma ViewOfShown(host: Host, v: Variant, transition: bool, route: CompiledRoute, exit: ViewExit,
                    s0: Scene, serial0: nat, s: Scene)
    requires !exit.StaleOut?
    requires var outEv := if transition && (v.Legacy? || s0.count > 0) then [Transitioned(Out)] else [];
      ShownEffect(host, transition, route, exit,
                  s0.trace + outEv + DestroyEvents(OptSeq(s0.view)) + DestroyEvents(s0.layouts), s0.cached, serial0, s)
    requires exit.Unwritten() ==> s.html == s0.html && s.count == s0.count
    ensures ViewEffect(host, v, transition, route, exit, s0, serial0, s)
  {
  }

  // ---------------------------------------------------------------------------------
  // renderPipeline(env, rid)

  /** What a render reads from the router and the browser. */
  datatype Env = Env(routes: seq<CompiledRoute>, notFound: Option<CompiledRoute>, transition: bool,
                     loc: Location, histState: HistState,
                     searchEntries: string -> seq<(string, string)>, decode: string -> string)

  const NotFoundHtml := "<h1>Not Found</h1>"

  /**
   * `match?.route || notFound` with `match?.params || {}`: the first route whose pattern
   * matches, else the not-found route with no parameters.
   */
  ghost predicate Selects(routes: seq<CompiledRoute>, notFound: Option<CompiledRoute>, pathname: string,
                     decode: string -> string, m: RouteMatch)
  {
    (exists i: nat :: FirstAt(routes, pathname, i) && m == MatchOf(routes[i], pathname, decode))
    || ((forall i :: 0 <= i < |routes| ==> !Matches(routes[i], pathname))
        && notFound == Some(m.route) && m.params == map[])
  }

  method ResolveRoute(routes: seq<CompiledRoute>, notFound: Option<CompiledRoute>, pathname: string,
                      decode: string -> string)
    returns (m: Option<RouteMatch>)
    ensures m.None? <==> (forall i :: 0 <= i < |routes| ==> !Matches(routes[i], pathname)) && notFound.None?
    ensures m.Some? ==> Selects(routes, notFound, pathname, decode, m.value)
  {
    m := FirstMatch(pathname, routes, decode);
    if m.None? && notFound.Some? {
      m := Some(RouteMatch(notFound.value, map[]));
    }
  }

  /** The context built for a resolved route. */
  function RouteCtx(env: Env, m: RouteMatch): (c: Ctx)
    ensures c.path == Normalize(env.loc.pathname) && c.params == m.params && c.state == env.histState
  {
    BuildContext(Normalize(env.loc.pathname), m.params, env.loc, env.histState, env.searchEntries)
  }

  /** The guards `runGuards(parents, route, ctx)` consults: the parents', then the route's. */
  function RouteChain(r: CompiledRoute): (c: seq<Option<GuardId>>)
    ensures |c| == |r.parents| + 1 && c[|r.parents|] == r.beforeEnter
  {
    Chain(r.parents, r.beforeEnter)
  }

  /** How `renderPipeline` ends. */
  datatype RenderExit =
    | NoRoute
    | StaleGuards | Blocked | Redirected(to: string) | GuardsThrew
    | Viewed(view: ViewExit)

  /**
   * `const guardRes = await runGuards(...)`, the stale check, then `block` (return with
   * `busy` still set) and `redirect` (`await env.navigate(to, { replace: true })`, then
   * `busy = false`). `None` lets the render go on to the view phase.
   */
  method GuardPhase(host: Host, st: RenderState, rid: int, chain: seq<Option<GuardId>>, ctx: Ctx)
    returns (stop: Option<RenderExit>)
    modifies host, st
    ensures stop.None? ==> Run(chain, host.guard, ctx) == Continue && rid == st.renderId
    ensures stop.Some? ==> stop.value in {StaleGuards, Blocked, GuardsThrew} || stop.value.Redirected?
    ensures stop == Some(GuardsThrew) <==> Run(chain, host.guard, ctx) == GuardThrew
    ensures stop == Some(StaleGuards) ==> Run(chain, host.guard, ctx) != GuardThrew && rid != st.renderId
    ensures rid == old(st.renderId) && host.launched == old(host.launched) ==> stop != Some(StaleGuards)
    ensures stop == Some(Blocked) ==> Run(chain, host.guard, ctx) == Block
    ensures stop.Some? && stop.value.Redirected? ==> Run(chain, host.guard, ctx) == Redirect(stop.value.to)
    ensures host.trace == old(host.trace) + Calls(chain, host.guard, ctx)
                          + (if stop.Some? && stop.value.Redirected? then [Navigated(stop.value.to, true)] else [])
    ensures st.busy == (old(st.busy) && !(stop.Some? && stop.value.Redirected?))
    ensures host.nextSerial == old(host.nextSerial) && host.launched >= old(host.launched)
    ensures st.renderId == old(st.renderId) + (host.launched - old(host.launched))
    ensures st.currentView == old(st.currentView) && st.currentLayouts == old(st.currentLayouts)
  {
    var out := RunGuards(host, chain, ctx, st);
    host.Await(st);
    if out.GuardThrew? {
      return Some(GuardsThrew);
    }
    if rid != st.renderId {
      return Some(StaleGuards);
    }
    match out {
      case Block =>
        return Some(Blocked);
      case Redirect(to) =>
        host.Record(Navigated(to, true));
        host.Await(st);
        st.busy := false;
        return Some(Redirected(to));
      case Continue =>
        return None;
    }
  }

  /**
   * `renderPipeline(env, rid)`: resolve the route; with none, write the not-found markup
   * and release `busy`; otherwise run the guards and then the view phase with the render
   * id `rid`, releasing `busy` only on a redirect or once the view has been shown.
   */
  method RenderPipeline(host: Host, cache: ComponentCache, env: Env, mount: MountPoint, st: RenderState, rid: int)
    returns (exit: RenderExit, ghost chosen: Option<RouteMatch>)
    requires cache.Valid(host.loads)
    modifies host, cache, mount, st
    ensures cache.Valid(host.loads)
    ensures exit.NoRoute? <==> chosen.None?
    ensures chosen.None? <==>
      (forall i :: 0 <= i < |env.routes| ==> !Matches(env.routes[i], Normalize(env.loc.pathname))) && env.notFound.None?
    ensures chosen.Some? ==> Selects(env.routes, env.notFound, Normalize(env.loc.pathname), env.decode, chosen.value)
    ensures exit.NoRoute? ==>
      mount.innerHTML == NotFoundHtml && !st.busy && host.trace == old(host.trace) + [Swapped(NotFoundHtml)]
      && st.currentView == old(st.currentView) && st.currentLayouts == old(st.currentLayouts)
    ensures !exit.NoRoute? && !exit.Viewed? ==>
      var outcome := Run(RouteChain(chosen.value.route), host.guard, RouteCtx(env, chosen.value));
      host.trace == old(host.trace) + Calls(RouteChain(chosen.value.route), host.guard, RouteCtx(env, chosen.value))
                    + (if exit.Redirected? then [Navigated(exit.to, true)] else [])
      && mount.innerHTML == old(mount.innerHTML) && mount.childElementCount == old(mount.childElementCount)
      && st.currentView == old(st.currentView) && st.currentLayouts == old(st.currentLayouts)
      && (exit.GuardsThrew? <==> outcome == GuardThrew)
      && (exit.Blocked? ==> outcome == Block)
      && (exit.Redirected? ==> outcome == Redirect(exit.to))
    ensures exit.Viewed? ==>
      Run(RouteChain(chosen.value.route), host.guard, RouteCtx(env, chosen.value)) == Continue
      && ViewEffect(host, Pipeline(rid), env.transition, chosen.value.route, exit.view,
                    old(SceneOf(host, mount, st, cache)).(trace := old(host.trace)
                      + Calls(RouteChain(chosen.value.route), host.guard, RouteCtx(env, chosen.value))),
                    old(host.nextSerial), SceneOf(host, mount, st, cache))
    ensures !st.busy <==> exit.NoRoute? || exit.Redirected? || exit == Viewed(Shown) || !old(st.busy)
    ensures exit == StaleGuards || (exit.Viewed? && exit.view.Stale()) ==> rid != st.renderId
    ensures rid == old(st.renderId) && host.launched == old(host.launched) ==>
      exit != StaleGuards && !(exit.Viewed? && exit.view.Stale())
    ensures st.renderId == old(st.renderId) + (host.launched - old(host.launched))
  {
    var pathname := Normalize(env.loc.pathname);
    var m := ResolveRoute(env.routes, env.notFound, pathname, env.decode);
    chosen := m;
    if m.None? {
      host.Swap(mount, NotFoundHtml, st);
      st.busy := false;
      return NoRoute, chosen;
    }
    ghost var s0 := SceneOf(host, mount, st, cache);
    var route := m.value.route;
    var ctx := BuildContext(pathname, m.value.params, env.loc, env.histState, env.searchEntries);
    assert ctx == RouteCtx(env, m.value);
    var stop := GuardPhase(host, st, rid, Chain(route.parents, route.beforeEnter), ctx);
    if stop.Some? {
      return stop.value, chosen;
    }
    ghost var s1 := SceneOf(host, mount, st, cache);
    assert s1 == s0.(trace := s0.trace + Calls(RouteChain(route), host.guard, ctx));
    var view := ShowRoute(host, cache, mount, st, Pipeline(rid), env.transition, route);
    ghost var s2 := SceneOf(host, mount, st, cache);
    assert ViewEffect(host, Pipeline(rid), env.transition, route, view, s1, old(host.nextSerial), s2);
    if view.Shown? {
      st.busy := false;
    }
    assert SceneOf(host, mount, st, cache) == s2;
    exit := Viewed(view);
  }
}
