/**
 * `runGuards` (router/internals/routing.js): the `beforeEnter` guards of the parent
 * chain, then of the leaf, run in order until one blocks, redirects or throws.
 */
module Guards {
  import opened Wrappers
  import opened Context
  import opened Runtime
  import opened Routes

  /** The value `runGuards` resolves to, or the rejection it propagates. */
  datatype GuardOutcome = Continue | Block | Redirect(to: string) | GuardThrew

  /** `false` blocks, a string redirects, anything else lets the chain go on. */
  function OfValue(v: GuardValue): GuardOutcome {
    match v
    case GFalse => Block
    case GString(s) => Redirect(s)
    case GOther => Continue
  }

  /** What one guard call decides; a promise is awaited first, a rejection propagates. */
  function Verdict(a: GuardAnswer): GuardOutcome {
    match a
    case Returns(v) => OfValue(v)
    case Resolves(v) => OfValue(v)
    case Rejects => GuardThrew
    case Throws => GuardThrew
  }

  /** Whether the guard's answer is a promise, so `runGuards` awaits it. */
  predicate Suspends(a: GuardAnswer) {
    a.Resolves? || a.Rejects?
  }

  /** `[...parents, leaf]`, as the list of `beforeEnter` slots. */
  function Chain(parents: seq<Entry>, leaf: Option<GuardId>): (c: seq<Option<GuardId>>)
    ensures |c| == |parents| + 1 && c[|parents|] == leaf
    ensures forall i :: 0 <= i < |parents| ==> c[i] == parents[i].beforeEnter
  {
    seq(|parents|, i requires 0 <= i < |parents| => parents[i].beforeEnter) + [leaf]
  }

  /** The outcome of running the guards of `chain` (slots without a guard are skipped). */
  function Run(chain: seq<Option<GuardId>>, guard: (GuardId, Ctx) -> GuardAnswer, ctx: Ctx): GuardOutcome
    decreases |chain|
  {
    if chain == [] then Continue
    else if chain[0].None? then Run(chain[1..], guard, ctx)
    else
      var v := Verdict(guard(chain[0].value, ctx));
      if v == Continue then Run(chain[1..], guard, ctx) else v
  }

  /** The guard calls `runGuards` makes, in order. */
  function Calls(chain: seq<Option<GuardId>>, guard: (GuardId, Ctx) -> GuardAnswer, ctx: Ctx): seq<Event>
    decreases |chain|
  {
    if chain == [] then []
    else if chain[0].None? then Calls(chain[1..], guard, ctx)
    else
      var g := chain[0].value;
      [GuardCalled(g)] + (if Verdict(guard(g, ctx)) == Continue then Calls(chain[1..], guard, ctx) else [])
  }

  /** The number of guard promises `runGuards` awaits. */
  function Waits(chain: seq<Option<GuardId>>, guard: (GuardId, Ctx) -> GuardAnswer, ctx: Ctx): nat
    decreases |chain|
  {
    if chain == [] then 0
    else if chain[0].None? then Waits(chain[1..], guard, ctx)
    else
      var a := guard(chain[0].value, ctx);
      (if Suspends(a) then 1 else 0) + (if Verdict(a) == Continue then Waits(chain[1..], guard, ctx) else 0)
  }

  /** `runGuards(parents, leaf, ctx)` over the chain's `beforeEnter` slots. */
  method RunGuards(host: Host, chain: seq<Option<GuardId>>, ctx: Ctx, st: RenderState?) returns (out: GuardOutcome)
    modifies host, st
    ensures out == Run(chain, host.guard, ctx)
    ensures host.trace == old(host.trace) + Calls(chain, host.guard, ctx)
    ensures host.step == old(host.step) + Waits(chain, host.guard, ctx)
    ensures host.nextSerial == old(host.nextSerial) && host.launched >= old(host.launched)
    ensures st != null ==> st.renderId == old(st.renderId) + (host.launched - old(host.launched))
    ensures st != null ==> st.busy == old(st.busy) && st.currentView == old(st.currentView)
    ensures st != null ==> st.currentLayouts == old(st.currentLayouts)
  {
    var i := 0;
    while i < |chain|
      invariant 0 <= i <= |chain|
      invariant Run(chain, host.guard, ctx) == Run(chain[i..], host.guard, ctx)
      invariant old(host.trace) + Calls(chain, host.guard, ctx) == host.trace + Calls(chain[i..], host.guard, ctx)
      invariant old(host.step) + Waits(chain, host.guard, ctx) == host.step + Waits(chain[i..], host.guard, ctx)
      invariant host.nextSerial == old(host.nextSerial) && host.launched >= old(host.launched)
      invariant st != null ==> st.renderId == old(st.renderId) + (host.launched - old(host.launched))
      invariant st != null ==> st.busy == old(st.busy) && st.currentView == old(st.currentView)
      invariant st != null ==> st.currentLayouts == old(st.currentLayouts)
    {
      var v := GuardAt(host, chain, i, ctx, st);
      if v != Continue {
        return v;
      }
      i := i + 1;
    }
    assert chain[i..] == [];
    AppendNil(host.trace);
    return Continue;
  }

  /**
   * One iteration, for slot `i`: an empty slot is skipped; otherwise its guard runs, and a
   * verdict other than go-on ends the chain with what is left of it accounted for.
   */
  method GuardAt(host: Host, chain: seq<Option<GuardId>>, i: nat, ctx: Ctx, st: RenderState?) returns (v: GuardOutcome)
    requires i < |chain|
    modifies host, st
    ensures v == Continue ==>
      Run(chain[i..], host.guard, ctx) == Run(chain[i + 1..], host.guard, ctx)
      && old(host.trace) + Calls(chain[i..], host.guard, ctx) == host.trace + Calls(chain[i + 1..], host.guard, ctx)
      && old(host.step) + Waits(chain[i..], host.guard, ctx) == host.step + Waits(chain[i + 1..], host.guard, ctx)
    ensures v != Continue ==>
      v == Run(chain[i..], host.guard, ctx)
      && host.trace == old(host.trace) + Calls(chain[i..], host.guard, ctx)
      && host.step == old(host.step) + Waits(chain[i..], host.guard, ctx)
    ensures host.nextSerial == old(host.nextSerial) && host.launched >= old(host.launched)
    ensures st != null ==> st.renderId == old(st.renderId) + (host.launched - old(host.launched))
    ensures st != null ==> st.busy == old(st.busy) && st.currentView == old(st.currentView)
    ensures st != null ==> st.currentLayouts == old(st.currentLayouts)
  {
    UnfoldAt(chain, i, host.guard, ctx);
    if chain[i].None? {
      return Continue;
    }
    v := CallGuard(host, chain[i].value, ctx, st);
    if v != Continue {
      AppendNil(host.trace);
    }
  }

  lemma AppendNil(t: seq<Event>)
    ensures t + [] == t
  {
  }

  /** One step of the chain: the slot at `i`, then the rest. */
  lemma UnfoldAt(chain: seq<Option<GuardId>>, i: nat, guard: (GuardId, Ctx) -> GuardAnswer, ctx: Ctx)
    requires i < |chain|
    ensures chain[i].None? ==>
      Run(chain[i..], guard, ctx) == Run(chain[i + 1..], guard, ctx)
      && Calls(chain[i..], guard, ctx) == Calls(chain[i + 1..], guard, ctx)
      && Waits(chain[i..], guard, ctx) == Waits(chain[i + 1..], guard, ctx)
    ensures chain[i].Some? ==>
      var a := guard(chain[i].value, ctx);
      Run(chain[i..], guard, ctx) == (if Verdict(a) == Continue then Run(chain[i + 1..], guard, ctx) else Verdict(a))
      && Calls(chain[i..], guard, ctx)
         == [GuardCalled(chain[i].value)] + (if Verdict(a) == Continue then Calls(chain[i + 1..], guard, ctx) else [])
      && Waits(chain[i..], guard, ctx)
         == (if Suspends(a) then 1 else 0) + (if Verdict(a) == Continue then Waits(chain[i + 1..], guard, ctx) else 0)
  {
    assert chain[i..][0] == chain[i] && chain[i..][1..] == chain[i + 1..];
  }

  /** One guard call: `beforeEnter(ctx)`, awaited when it returns a promise. */
  method CallGuard(host: Host, g: GuardId, ctx: Ctx, st: RenderState?) returns (v: GuardOutcome)
    modifies host, st
    ensures v == Verdict(host.guard(g, ctx))
    ensures host.trace == old(host.trace) + [GuardCalled(g)]
    ensures host.step == old(host.step) + (if Suspends(host.guard(g, ctx)) then 1 else 0)
    ensures host.nextSerial == old(host.nextSerial) && host.launched >= old(host.launched)
    ensures st != null ==> st.renderId == old(st.renderId) + (host.launched - old(host.launched))
    ensures st != null ==> st.busy == old(st.busy) && st.currentView == old(st.currentView)
    ensures st != null ==> st.currentLayouts == old(st.currentLayouts)
  {
    host.Record(GuardCalled(g));
    var a := host.guard(g, ctx);
    if a.Resolves? || a.Rejects? {
      host.Await(st);
    }
    match a {
      case Throws => v := GuardThrew;
      case Rejects => v := GuardThrew;
      case Returns(x) => v := if x.GFalse? then Block else if x.GString? then Redirect(x.s) else Continue;
      case Resolves(x) => v := if x.GFalse? then Block else if x.GString? then Redirect(x.s) else Continue;
    }
  }

  // ---------------------------------------------------------------------------------
  // Properties of the guard chain

  /** The guard of slot `i` decides. */
  predicate Decides(chain: seq<Option<GuardId>>, guard: (GuardId, Ctx) -> GuardAnswer, ctx: Ctx, i: nat)
    requires i < |chain|
  {
    chain[i].Some? && Verdict(guard(chain[i].value, ctx)) != Continue
  }

  /** The calls made on the slots `chain[..n]` when every one of them lets the chain go on. */
  function CallsOf(chain: seq<Option<GuardId>>): seq<Event>
    decreases |chain|
  {
    if chain == [] then [] else (if chain[0].Some? then [GuardCalled(chain[0].value)] else []) + CallsOf(chain[1..])
  }

  /**
   * The first deciding guard gives the outcome, and no guard after it is called: the
   * calls are those of the slots up to and including it.
   */
  lemma {:induction false} FirstVerdictStops(chain: seq<Option<GuardId>>, guard: (GuardId, Ctx) -> GuardAnswer, ctx: Ctx, i: nat)
    requires i < |chain| && Decides(chain, guard, ctx, i)
    requires forall j :: 0 <= j < i ==> !Decides(chain, guard, ctx, j)
    ensures Run(chain, guard, ctx) == Verdict(guard(chain[i].value, ctx))
    ensures Calls(chain, guard, ctx) == CallsOf(chain[..i + 1])
    decreases |chain|
  {
    assert chain[..i + 1][0] == chain[0];
    if i > 0 {
      assert !Decides(chain, guard, ctx, 0);
      forall j | 0 <= j < i - 1 ensures !Decides(chain[1..], guard, ctx, j) {
        assert !Decides(chain, guard, ctx, j + 1);
      }
      FirstVerdictStops(chain[1..], guard, ctx, i - 1);
      assert chain[..i + 1][1..] == chain[1..][..i];
    } else {
      assert chain[..1][1..] == [];
    }
  }

  /** When no guard decides, the chain continues and every guard is called once, in order. */
  lemma {:induction false} NoVerdictContinues(chain: seq<Option<GuardId>>, guard: (GuardId, Ctx) -> GuardAnswer, ctx: Ctx)
    requires forall j :: 0 <= j < |chain| ==> !Decides(chain, guard, ctx, j)
    ensures Run(chain, guard, ctx) == Continue
    ensures Calls(chain, guard, ctx) == CallsOf(chain)
    decreases |chain|
  {
    if chain != [] {
      assert !Decides(chain, guard, ctx, 0);
      forall j | 0 <= j < |chain| - 1 ensures !Decides(chain[1..], guard, ctx, j) {
        assert !Decides(chain, guard, ctx, j + 1);
      }
      NoVerdictContinues(chain[1..], guard, ctx);
    }
  }

  /** A chain that does not continue ends with the verdict of one of its guards. */
  lemma {:induction false} RunIsSomeVerdict(chain: seq<Option<GuardId>>, guard: (GuardId, Ctx) -> GuardAnswer, ctx: Ctx)
    ensures Run(chain, guard, ctx) != Continue ==>
      exists i :: 0 <= i < |chain| && Decides(chain, guard, ctx, i) && Verdict(guard(chain[i].value, ctx)) == Run(chain, guard, ctx)
    decreases |chain|
  {
    if chain != [] && Run(chain, guard, ctx) != Continue && !Decides(chain, guard, ctx, 0) {
      RunIsSomeVerdict(chain[1..], guard, ctx);
      var i :| 0 <= i < |chain[1..]| && Decides(chain[1..], guard, ctx, i)
               && Verdict(guard(chain[1..][i].value, ctx)) == Run(chain[1..], guard, ctx);
      assert chain[i + 1] == chain[1..][i];
      assert Decides(chain, guard, ctx, i + 1);
    }
  }

  /** Every call `runGuards` makes is to a guard of the chain, and there is at most one per slot. */
  lemma {:induction false} CallsOfChain(chain: seq<Option<GuardId>>, guard: (GuardId, Ctx) -> GuardAnswer, ctx: Ctx)
    ensures |Calls(chain, guard, ctx)| <= |chain|
    ensures forall e :: e in Calls(chain, guard, ctx) ==> e.GuardCalled? && Some(e.g) in chain
    decreases |chain|
  {
    if chain != [] {
      CallsOfChain(chain[1..], guard, ctx);
      forall e | e in Calls(chain, guard, ctx)
        ensures e.GuardCalled? && Some(e.g) in chain
      {
        if e in Calls(chain[1..], guard, ctx) {
          var j :| 0 <= j < |chain[1..]| && chain[1..][j] == Some(e.g);
          assert chain[j + 1] == Some(e.g);
        }
      }
    }
  }

  /** Running a chain in two parts: the second part runs only when the first continues. */
  lemma {:induction false} RunAppend(a: seq<Option<GuardId>>, b: seq<Option<GuardId>>, guard: (GuardId, Ctx) -> GuardAnswer, ctx: Ctx)
    ensures Run(a + b, guard, ctx) == if Run(a, guard, ctx) == Continue then Run(b, guard, ctx) else Run(a, guard, ctx)
    ensures Calls(a + b, guard, ctx)
         == Calls(a, guard, ctx) + (if Run(a, guard, ctx) == Continue then Calls(b, guard, ctx) else [])
    decreases |a|
  {
    if a == [] {
      assert a + b == b;
    } else {
      TailOfAppend(a, b);
      RunAppend(a[1..], b, guard, ctx);
      if a[0].Some? && Verdict(guard(a[0].value, ctx)) == Continue {
        var x := if Run(a[1..], guard, ctx) == Continue then Calls(b, guard, ctx) else [];
        SeqAssoc([GuardCalled(a[0].value)], Calls(a[1..], guard, ctx), x);
      }
    }
  }

  /** A parent's block or redirect means the leaf's guard is never called. */
  lemma ParentVerdictSkipsLeaf(parents: seq<Entry>, leaf: GuardId, guard: (GuardId, Ctx) -> GuardAnswer, ctx: Ctx)
    requires Run(Chain(parents, None), guard, ctx) != Continue
    ensures Run(Chain(parents, Some(leaf)), guard, ctx) == Run(Chain(parents, None), guard, ctx)
    ensures Calls(Chain(parents, Some(leaf)), guard, ctx) == Calls(Chain(parents, None), guard, ctx)
  {
    var ps := seq(|parents|, i requires 0 <= i < |parents| => parents[i].beforeEnter);
    assert Chain(parents, Some(leaf)) == ps + [Some(leaf)] && Chain(parents, None) == ps + [None];
    RunAppend(ps, [Some(leaf)], guard, ctx);
    RunAppend(ps, [None], guard, ctx);
  }

  /** Slots without a guard change nothing: the chain without them behaves the same. */
  lemma {:induction false} SkipEmptySlot(a: seq<Option<GuardId>>, b: seq<Option<GuardId>>, guard: (GuardId, Ctx) -> GuardAnswer, ctx: Ctx)
    ensures Run(a + [None] + b, guard, ctx) == Run(a + b, guard, ctx)
    ensures Calls(a + [None] + b, guard, ctx) == Calls(a + b, guard, ctx)
    ensures Waits(a + [None] + b, guard, ctx) == Waits(a + b, guard, ctx)
    decreases |a|
  {
    if a == [] {
      assert a + [None] + b == [None] + b && ([None] + b)[1..] == b && a + b == b;
    } else {
      assert (a + [None] + b)[0] == a[0] && (a + [None] + b)[1..] == a[1..] + [None] + b;
      assert (a + b)[0] == a[0] && (a + b)[1..] == a[1..] + b;
      SkipEmptySlot(a[1..], b, guard, ctx);
    }
  }
}
