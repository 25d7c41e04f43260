/**
 * The JavaScript environment the router runs in, reduced to what its code observes.
 *
 * Application code (views, layouts, loaders, guards) is abstract: a `Host` answers
 * for it through fixed oracle functions, and every call the router makes into it is
 * recorded in `Host.trace`. Every `await` is one `Await` step; at the steps listed in
 * `interrupts` the environment starts a newer render, which bumps `renderId`. The
 * router code itself never writes `renderId`.
 */
module Runtime {
  import opened Wrappers
  import opened Context

  /** The identity of a zero-argument loader function `() => import(...)`. */
  type LoaderId = nat

  /** The identity of a `beforeEnter` guard function. */
  type GuardId = nat

  /** A view or layout class: whether its instances define `mount` and `destroy`. */
  datatype Ctor = Ctor(id: nat, hasMount: bool, hasDestroy: bool)

  /** A value the router may try to `new`: `null`, a class, or anything else. */
  datatype CtorValue = NullValue | Constructor(ctor: Ctor) | NotConstructor

  /**
   * What a loader's promise resolves to: nothing (`null`/`undefined`), a module
   * namespace with its `default` export (`NullValue` when absent), or a class itself.
   */
  datatype Module = NoModule | Namespace(defaultExport: CtorValue) | BareCtor(c: Ctor)

  datatype LoadAnswer = Resolved(mod: Module) | Rejected

  /** A route's `component`/`view`/`layout` value: a class, or a lazy loader. */
  datatype ComponentRef = Direct(ctor: Ctor) | Lazy(loader: LoaderId)

  /** The settled value of a guard: `false`, a string, or anything else. */
  datatype GuardValue = GFalse | GString(s: string) | GOther

  /**
   * What calling a guard does: return a plain value, return a promise that fulfils
   * or rejects, or throw.
   */
  datatype GuardAnswer = Returns(v: GuardValue) | Resolves(rv: GuardValue) | Rejects | Throws

  /** The value `getHTML()` resolves to: a string, or another value and its `String(...)`. */
  datatype Markup = Str(s: string) | NonString(shown: string)

  /** `typeof html === "string" ? html : String(html)`. */
  function ToText(m: Markup): string {
    match m
    case Str(s) => s
    case NonString(shown) => shown
  }

  /** An instance created by `new C(ctx)`; `serial` tells instances of one class apart. */
  datatype Inst = Inst(ctor: Ctor, serial: nat)

  datatype Phase = Out | In

  /** One call from the router into application code or the browser. */
  datatype Event =
    | GuardCalled(g: GuardId)
    | LoaderCalled(l: LoaderId)
    | Constructed(inst: Inst)
    | Destroyed(inst: Inst)
    | Mounted(inst: Inst)
    | Swapped(html: string)
    | Transitioned(phase: Phase)
    | Navigated(to: string, replace: bool)
    | PushedState(state: HistState, url: string)
    | ReplacedState(state: HistState, url: string)
    | VetoAsked(url: string)
    | ListenersAdded
    | ListenersRemoved
    | DefaultPrevented

  /** The `state` object of `renderPipeline`'s environment. */
  class RenderState {
    var renderId: int
    var busy: bool
    var currentView: Option<Inst>
    var currentLayouts: seq<Inst>

    constructor (renderId: int, busy: bool, view: Option<Inst>, layouts: seq<Inst>)
      ensures this.renderId == renderId && this.busy == busy
      ensures currentView == view && currentLayouts == layouts
    {
      this.renderId := renderId;
      this.busy := busy;
      currentView := view;
      currentLayouts := layouts;
    }
  }

  /** The mount element: its markup and how many element children that markup has. */
  class MountPoint {
    var innerHTML: string
    var childElementCount: nat

    constructor (html: string, count: nat)
      ensures innerHTML == html && childElementCount == count
    {
      innerHTML := html;
      childElementCount := count;
    }
  }

  /** The environment: the scheduler, the application's answers, and the call trace. */
  class Host {
    /** How many awaits have been passed so far. */
    var step: nat
    /** The awaits at which the environment starts a newer render. */
    const interrupts: set<nat>
    /** How many newer renders the environment has started. */
    ghost var launched: nat
    /** Every call into application code and the browser, in order. */
    var trace: seq<Event>
    /** The serial number of the next instance. */
    var nextSerial: nat

    const markup: Inst -> Markup
    const loads: LoaderId -> LoadAnswer
    const guard: (GuardId, Ctx) -> GuardAnswer
    /** The number of element children the parser builds for some markup. */
    const elementCount: string -> nat

    constructor (interrupts: set<nat>, markup: Inst -> Markup, loads: LoaderId -> LoadAnswer,
                 guard: (GuardId, Ctx) -> GuardAnswer, elementCount: string -> nat)
      ensures step == 0 && launched == 0 && trace == [] && nextSerial == 0
      ensures this.interrupts == interrupts && this.markup == markup && this.loads == loads
      ensures this.guard == guard && this.elementCount == elementCount
    {
      step := 0;
      this.interrupts := interrupts;
      launched := 0;
      trace := [];
      nextSerial := 0;
      this.markup := markup;
      this.loads := loads;
      this.guard := guard;
      this.elementCount := elementCount;
    }

    /** Whether the environment starts a newer render at the current await. */
    predicate Interrupted()
      reads this
    {
      step in interrupts
    }

    /**
     * One `await`: control goes back to the event loop, which may start a newer render
     * (incrementing `st.renderId` when there is a render state) before resuming.
     */
    method Await(st: RenderState?)
      modifies this, st
      ensures step == old(step) + 1
      ensures launched == old(launched) + (if old(Interrupted()) then 1 else 0)
      ensures trace == old(trace) && nextSerial == old(nextSerial)
      ensures st != null ==> st.renderId == old(st.renderId) + (if old(Interrupted()) then 1 else 0)
      ensures st != null ==> st.busy == old(st.busy) && st.currentView == old(st.currentView)
      ensures st != null ==> st.currentLayouts == old(st.currentLayouts)
    {
      if step in interrupts {
        launched := launched + 1;
        if st != null {
          st.renderId := st.renderId + 1;
        }
      }
      step := step + 1;
    }

    /** `new C(ctx)` for a class `C`: a fresh instance, recorded in the trace. */
    method Construct(c: Ctor) returns (inst: Inst)
      modifies this
      ensures inst == Inst(c, old(nextSerial)) && nextSerial == old(nextSerial) + 1
      ensures trace == old(trace) + [Constructed(inst)]
      ensures step == old(step) && launched == old(launched)
    {
      inst := Inst(c, nextSerial);
      nextSerial := nextSerial + 1;
      trace := trace + [Constructed(inst)];
    }

    /** Appends one event to the trace. */
    method Record(e: Event)
      modifies this
      ensures trace == old(trace) + [e]
      ensures step == old(step) && launched == old(launched) && nextSerial == old(nextSerial)
    {
      trace := trace + [e];
    }

    /**
     * `mountEl.innerHTML = html`. The setter runs custom-element reactions
     * synchronously, so it is a point where a newer render can start.
     */
    method Swap(mount: MountPoint, html: string, st: RenderState?)
      modifies this, mount, st
      ensures mount.innerHTML == html && mount.childElementCount == elementCount(html)
      ensures trace == old(trace) + [Swapped(html)] && nextSerial == old(nextSerial)
      ensures step == old(step) + 1
      ensures launched == old(launched) + (if old(Interrupted()) then 1 else 0)
      ensures st != null ==> st.renderId == old(st.renderId) + (if old(Interrupted()) then 1 else 0)
      ensures st != null ==> st.busy == old(st.busy) && st.currentView == old(st.currentView)
      ensures st != null ==> st.currentLayouts == old(st.currentLayouts)
    {
      mount.innerHTML := html;
      mount.childElementCount := elementCount(html);
      trace := trace + [Swapped(html)];
      Await(st);
    }
  }

  /** The events `inst.mount?.()` produces for each instance in turn. */
  function MountEvents(insts: seq<Inst>): seq<Event> {
    if insts == [] then []
    else (if insts[0].ctor.hasMount then [Mounted(insts[0])] else []) + MountEvents(insts[1..])
  }

  /** The events `inst?.destroy?.()` produces for each instance in turn. */
  function DestroyEvents(insts: seq<Inst>): seq<Event> {
    if insts == [] then []
    else (if insts[0].ctor.hasDestroy then [Destroyed(insts[0])] else []) + DestroyEvents(insts[1..])
  }

  lemma TailOfAppend<T>(a: seq<T>, b: seq<T>)
    requires a != []
    ensures (a + b)[0] == a[0] && (a + b)[1..] == a[1..] + b
  {
  }

  lemma SeqAssoc<T>(x: seq<T>, y: seq<T>, z: seq<T>)
    ensures x + (y + z) == (x + y) + z
  {
  }

  lemma PrefixCons<T>(h: seq<T>, x: seq<T>, y: seq<T>)
    requires x <= y
    ensures h + x <= h + y
  {
    assert (h + y)[..|h + x|] == h + y[..|x|];
  }

  lemma {:induction false} MountEventsAppend(a: seq<Inst>, b: seq<Inst>)
    ensures MountEvents(a + b) == MountEvents(a) + MountEvents(b)
    decreases |a|
  {
    if a == [] {
      assert a + b == b;
    } else {
      TailOfAppend(a, b);
      var h := if a[0].ctor.hasMount then [Mounted(a[0])] else [];
      assert MountEvents(a + b) == h + MountEvents(a[1..] + b);
      MountEventsAppend(a[1..], b);
      assert MountEvents(a) == h + MountEvents(a[1..]);
      SeqAssoc(h, MountEvents(a[1..]), MountEvents(b));
    }
  }

  lemma {:induction false} DestroyEventsAppend(a: seq<Inst>, b: seq<Inst>)
    ensures DestroyEvents(a + b) == DestroyEvents(a) + DestroyEvents(b)
    decreases |a|
  {
    if a == [] {
      assert a + b == b;
    } else {
      TailOfAppend(a, b);
      var h := if a[0].ctor.hasDestroy then [Destroyed(a[0])] else [];
      assert DestroyEvents(a + b) == h + DestroyEvents(a[1..] + b);
      DestroyEventsAppend(a[1..], b);
      assert DestroyEvents(a) == h + DestroyEvents(a[1..]);
      SeqAssoc(h, DestroyEvents(a[1..]), DestroyEvents(b));
    }
  }

  /** Every instance that defines `mount` is mounted. */
  lemma {:induction false} MountEventsExact(insts: seq<Inst>, i: nat)
    requires i < |insts| && insts[i].ctor.hasMount
    ensures Mounted(insts[i]) in MountEvents(insts)
    decreases |insts|
  {
    if i > 0 {
      MountEventsExact(insts[1..], i - 1);
    }
  }

  /** Nothing but the instances that define `mount` is mounted. */
  lemma {:induction false} MountEventsOnly(insts: seq<Inst>)
    ensures forall ev :: ev in MountEvents(insts) ==> ev.Mounted? && ev.inst in insts && ev.inst.ctor.hasMount
    decreases |insts|
  {
    if insts != [] {
      MountEventsOnly(insts[1..]);
      forall ev | ev in MountEvents(insts)
        ensures ev.Mounted? && ev.inst in insts && ev.inst.ctor.hasMount
      {
        var h := if insts[0].ctor.hasMount then [Mounted(insts[0])] else [];
        assert MountEvents(insts) == h + MountEvents(insts[1..]);
        if ev !in h {
          assert ev in MountEvents(insts[1..]);
          assert ev.inst in insts[1..];
        }
      }
    }
  }

  /** `for (const inst of insts) inst.mount?.()`. */
  method MountAll(host: Host, insts: seq<Inst>)
    modifies host
    ensures host.trace == old(host.trace) + MountEvents(insts)
    ensures host.step == old(host.step) && host.launched == old(host.launched) && host.nextSerial == old(host.nextSerial)
  {
    var k := 0;
    while k < |insts|
      invariant 0 <= k <= |insts|
      invariant host.trace == old(host.trace) + MountEvents(insts[..k])
      invariant host.step == old(host.step) && host.launched == old(host.launched) && host.nextSerial == old(host.nextSerial)
    {
      MountEventsAppend(insts[..k], [insts[k]]);
      assert insts[..k + 1] == insts[..k] + [insts[k]];
      if insts[k].ctor.hasMount {
        host.Record(Mounted(insts[k]));
      }
      k := k + 1;
    }
    assert insts[..k] == insts;
  }

  /** `for (const inst of insts) inst?.destroy?.()`. */
  method DestroyAll(host: Host, insts: seq<Inst>)
    modifies host
    ensures host.trace == old(host.trace) + DestroyEvents(insts)
    ensures host.step == old(host.step) && host.launched == old(host.launched) && host.nextSerial == old(host.nextSerial)
  {
    var k := 0;
    while k < |insts|
      invariant 0 <= k <= |insts|
      invariant host.trace == old(host.trace) + DestroyEvents(insts[..k])
      invariant host.step == old(host.step) && host.launched == old(host.launched) && host.nextSerial == old(host.nextSerial)
    {
      DestroyEventsAppend(insts[..k], [insts[k]]);
      assert insts[..k + 1] == insts[..k] + [insts[k]];
      if insts[k].ctor.hasDestroy {
        host.Record(Destroyed(insts[k]));
      }
      k := k + 1;
    }
    assert insts[..k] == insts;
  }
}
