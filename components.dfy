/**
 * `ensureComponent` (router/internals/routing.js) with its module-level cache of
 * loader results, and `new C(ctx)` on the value it yields.
 */
module Components {
  import opened Wrappers
  import opened Runtime

  /** What `await ensureComponent(maybe)` yields: a value, or the loader's rejection. */
  datatype Resolution = Value(v: CtorValue) | LoadFailed

  /** `mod?.default ?? mod`: the default export when there is one, else the module itself. */
  function Unwrap(m: Module): CtorValue {
    match m
    case NoModule => NullValue
    case Namespace(d) => if d.NullValue? then NotConstructor else d
    case BareCtor(c) => Constructor(c)
  }

  /** What `ensureComponent` yields for `maybe` when nothing is cached. */
  function Resolve(loads: LoaderId -> LoadAnswer, maybe: Option<ComponentRef>): Resolution {
    match maybe
    case None => Value(NullValue)
    case Some(Direct(c)) => Value(Constructor(c))
    case Some(Lazy(l)) => if loads(l).Resolved? then Value(Unwrap(loads(l).mod)) else LoadFailed
  }

  /** The `WeakMap` from loader to the value its module resolved to. */
  class ComponentCache {
    var entries: map<LoaderId, CtorValue>

    constructor ()
      ensures entries == map[]
    {
      entries := map[];
    }

    /** Every cached value is what its loader's module unwraps to. */
    predicate Valid(loads: LoaderId -> LoadAnswer)
      reads this
    {
      forall l :: l in entries ==> loads(l).Resolved? && entries[l] == Unwrap(loads(l).mod)
    }
  }

  /**
   * `ensureComponent(maybe)`. A falsy value gives `null`, a class is returned as is, a
   * loader is answered from the cache or else called, awaited and its result cached.
   * The cache is transparent: the result is always `Resolve(loads, maybe)`.
   */
  method EnsureComponent(host: Host, cache: ComponentCache, maybe: Option<ComponentRef>, st: RenderState?)
    returns (r: Resolution)
    requires cache.Valid(host.loads)
    modifies host, cache, st
    ensures cache.Valid(host.loads)
    ensures r == Resolve(host.loads, maybe)
    ensures (maybe.Some? && maybe.value.Lazy? && maybe.value.loader !in old(cache.entries)) ==>
      host.trace == old(host.trace) + [LoaderCalled(maybe.value.loader)] && host.step == old(host.step) + 1
      && cache.entries == (if r.Value? then old(cache.entries)[maybe.value.loader := r.v] else old(cache.entries))
    ensures !(maybe.Some? && maybe.value.Lazy? && maybe.value.loader !in old(cache.entries)) ==>
      host.trace == old(host.trace) && host.step == old(host.step) && cache.entries == old(cache.entries)
    ensures host.nextSerial == old(host.nextSerial) && host.launched >= old(host.launched)
    ensures st != null ==> st.renderId == old(st.renderId) + (host.launched - old(host.launched))
    ensures st != null ==> st.busy == old(st.busy) && st.currentView == old(st.currentView)
    ensures st != null ==> st.currentLayouts == old(st.currentLayouts)
  {
    if maybe.None? {
      return Value(NullValue);
    }
    match maybe.value {
      case Direct(c) =>
        return Value(Constructor(c));
      case Lazy(l) =>
        if l in cache.entries {
          return Value(cache.entries[l]);
        }
        host.Record(LoaderCalled(l));
        var answer := host.loads(l);
        host.Await(st);
        if answer.Rejected? {
          return LoadFailed;
        }
        var ctor := Unwrap(answer.mod);
        cache.entries := cache.entries[l := ctor];
        return Value(ctor);
    }
  }

  /** `new C(ctx)`: an instance when `C` is a class; `None` stands for the `TypeError` otherwise. */
  method Instantiate(host: Host, v: CtorValue) returns (inst: Option<Inst>)
    modifies host
    ensures v.Constructor? ==>
      inst == Some(Inst(v.ctor, old(host.nextSerial)))
      && host.trace == old(host.trace) + [Constructed(inst.value)] && host.nextSerial == old(host.nextSerial) + 1
    ensures !v.Constructor? ==> inst.None? && host.trace == old(host.trace) && host.nextSerial == old(host.nextSerial)
    ensures host.step == old(host.step) && host.launched == old(host.launched)
  {
    if !v.Constructor? {
      return None;
    }
    var i := host.Construct(v.ctor);
    inst := Some(i);
  }

  /** A module whose default export is missing yields the namespace object, which is no class. */
  lemma DefaultFallback(loads: LoaderId -> LoadAnswer, l: LoaderId)
    requires loads(l) == Resolved(Namespace(NullValue))
    ensures Resolve(loads, Some(Lazy(l))) == Value(NotConstructor)
  {
  }

  /** A loader yields a class exactly when its module is that class or exports it as default. */
  lemma LazyYieldsClass(loads: LoaderId -> LoadAnswer, l: LoaderId, c: Ctor)
    ensures Resolve(loads, Some(Lazy(l))) == Value(Constructor(c)) <==>
      loads(l) == Resolved(BareCtor(c)) || loads(l) == Resolved(Namespace(Constructor(c)))
  {
  }
}
