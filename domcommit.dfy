/**
 * Layout composition through the `<!-- router-slot -->` marker and `domCommit`
 * (router/internals/pipelines/domCommit.js). The composition loop is shared by
 * `renderPipeline` (router/internals/render.js) and `Router#render` (router/Router.js).
 */
module Commit {
  import opened Wrappers
  import opened Text
  import opened Runtime

  /** The marker a layout's markup carries where the inner content goes. */
  const Slot: string := "<!-- router-slot -->"

  /**
   * One layout step: `shell.replace(slot, inner)`, or the missing-slot error. The
   * marker is a parameter so that the composition's laws hold for any marker; the
   * router always passes `Slot`.
   */
  function Wrap(shell: string, inner: string, slot: string): (r: Option<string>)
    ensures r.None? <==> !Contains(shell, slot)
    ensures r.Some? ==>
      var k := IndexOf(shell, slot).value;
      r.value == shell[..k] + inner + shell[k + |slot|..]
  {
    if Contains(shell, slot) then Some(ReplaceFirst(shell, slot, inner)) else None
  }

  /**
   * Wrapping `html` through the layout markups `shells`, innermost (last) first, so
   * that `shells[0]` ends up outermost.
   */
  function Compose(html: string, shells: seq<string>, slot: string): Option<string>
    decreases |shells|
  {
    if shells == [] then Some(html)
    else
      var n := |shells| - 1;
      match Wrap(shells[n], html, slot)
      case None => None
      case Some(h) => Compose(h, shells[..n], slot)
  }

  /** The text of each layout's markup (`typeof shell === "string" ? shell : String(shell)`). */
  function Shells(markup: Inst -> Markup, layouts: seq<Inst>): (s: seq<string>)
    ensures |s| == |layouts| && forall i :: 0 <= i < |layouts| ==> s[i] == ToText(markup(layouts[i]))
  {
    seq(|layouts|, i requires 0 <= i < |layouts| => ToText(markup(layouts[i])))
  }

  // ---------------------------------------------------------------------------------
  // Properties of the composition

  /** With no layouts the result is the leaf markup itself. */
  lemma ComposeNoLayouts(html: string, slot: string)
    ensures Compose(html, [], slot) == Some(html)
  {
  }

  /** Composing through `a + b` is composing through `b`, then through `a`. */
  lemma {:induction false} ComposeAppend(html: string, a: seq<string>, b: seq<string>, slot: string)
    ensures Compose(html, a + b, slot) == match Compose(html, b, slot) case None => None case Some(h) => Compose(h, a, slot)
    decreases |b|
  {
    if b == [] {
      assert a + b == a;
    } else {
      var n := |b| - 1;
      assert (a + b)[|a + b| - 1] == b[n] && (a + b)[..|a + b| - 1] == a + b[..n];
      match Wrap(b[n], html, slot)
      case None =>
      case Some(h) => ComposeAppend(h, a, b[..n], slot);
    }
  }

  /** `layouts[0]` is the outermost wrapper: it is applied last, around everything else. */
  lemma ComposeOutermost(html: string, shells: seq<string>, slot: string)
    requires |shells| > 0
    ensures Compose(html, shells, slot) == match Compose(html, shells[1..], slot) case None => None case Some(h) => Wrap(shells[0], h, slot)
  {
    assert shells == [shells[0]] + shells[1..];
    ComposeAppend(html, [shells[0]], shells[1..], slot);
    assert [shells[0]][..0] == [];
  }

  /** Every layout markup in `shells` carries the marker. */
  predicate AllCarry(shells: seq<string>, slot: string) {
    forall i :: 0 <= i < |shells| ==> Contains(shells[i], slot)
  }

  /** Composition succeeds exactly when every layout's markup carries the slot. */
  lemma {:induction false} ComposeSomeIff(html: string, shells: seq<string>, slot: string)
    ensures Compose(html, shells, slot).Some? <==> AllCarry(shells, slot)
    decreases |shells|
  {
    if shells != [] {
      var n := |shells| - 1;
      CarrySplit(shells, slot);
      match Wrap(shells[n], html, slot)
      case None =>
      case Some(h) => ComposeSomeIff(h, shells[..n], slot);
    }
  }

  lemma CarrySplit(shells: seq<string>, slot: string)
    requires shells != []
    ensures AllCarry(shells, slot) <==> Contains(shells[|shells| - 1], slot) && AllCarry(shells[..|shells| - 1], slot)
  {
    var n := |shells| - 1;
    assert forall i :: 0 <= i < n ==> shells[..n][i] == shells[i];
  }

  /** The leaf markup survives composition: it occurs in the composed page. */
  lemma {:induction false} ComposeKeepsLeaf(html: string, shells: seq<string>, slot: string)
    requires Compose(html, shells, slot).Some?
    ensures exists k: nat :: OccursAt(Compose(html, shells, slot).value, html, k)
    decreases |shells|
  {
    if shells == [] {
      assert OccursAt(html, html, 0);
    } else {
      var n := |shells| - 1;
      var h := Wrap(shells[n], html, slot).value;
      var k := IndexOf(shells[n], slot).value;
      var before, after := shells[n][..k], shells[n][k + |slot|..];
      assert h == before + html + after && |before| == k;
      assert h[k..k + |html|] == html;
      assert OccursAt(h, html, k);
      ComposeKeepsLeaf(h, shells[..n], slot);
      var j: nat :| OccursAt(Compose(h, shells[..n], slot).value, h, j);
      OccursWithin(Compose(h, shells[..n], slot).value, h, html, j, k);
    }
  }

  lemma OccursWithin(s: string, t: string, u: string, j: nat, k: nat)
    requires OccursAt(s, t, j) && OccursAt(t, u, k)
    ensures OccursAt(s, u, j + k)
  {
    assert forall m :: 0 <= m < |u| ==> s[j + k + m] == s[j..j + |t|][k + m] == t[k + m] == u[m];
    assert s[j + k..j + k + |u|] == u;
  }

  /** One layout: the result is the layout's markup with its first slot replaced by the page. */
  lemma ComposeOneLayout(html: string, shell: string, slot: string)
    requires Contains(shell, slot)
    ensures Compose(html, [shell], slot) == Some(ReplaceFirst(shell, slot, html))
  {
    assert [shell][..0] == [];
  }

  // ---------------------------------------------------------------------------------
  // The composition loop

  datatype ComposeResult = Composed(html: string) | ComposeStale | MissingSlot

  /**
   * `for (let i = layouts.length - 1; i >= 0; i--)`: each layout's `getHTML()` is
   * awaited, then, when a render id is given, checked against `state.renderId`; a
   * markup without the slot throws. Without a render id (`Router#render`) there are no
   * stale checks.
   */
  method ComposeLayouts(host: Host, layouts: seq<Inst>, leafHtml: string, slot: string, rid: Option<int>, st: RenderState?)
    returns (r: ComposeResult)
    requires rid.Some? ==> st != null
    modifies host, st
    ensures r.Composed? ==> Compose(leafHtml, Shells(host.markup, layouts), slot) == Some(r.html)
    ensures r.MissingSlot? ==> Compose(leafHtml, Shells(host.markup, layouts), slot).None?
    ensures r.ComposeStale? ==> rid.Some? && rid.value != st.renderId
    ensures r.Composed? && rid.Some? && rid.value == old(st.renderId) ==> rid.value == st.renderId
    ensures rid.Some? && rid.value == old(st.renderId) && host.launched == old(host.launched) ==> !r.ComposeStale?
    ensures rid.None? ==> !r.ComposeStale?
    ensures host.trace == old(host.trace) && host.nextSerial == old(host.nextSerial)
    ensures host.step >= old(host.step) && host.launched >= old(host.launched)
    ensures st != null ==> st.renderId == old(st.renderId) + (host.launched - old(host.launched))
    ensures st != null ==> st.busy == old(st.busy) && st.currentView == old(st.currentView)
    ensures st != null ==> st.currentLayouts == old(st.currentLayouts)
  {
    ghost var shells := Shells(host.markup, layouts);
    var html := leafHtml;
    var i := |layouts|;
    assert shells[..i] == shells;
    while i > 0
      invariant 0 <= i <= |layouts|
      invariant Compose(leafHtml, shells, slot) == Compose(html, shells[..i], slot)
      invariant rid.Some? && rid.value == old(st.renderId) ==> rid.value == st.renderId
      invariant host.trace == old(host.trace) && host.nextSerial == old(host.nextSerial)
      invariant host.step >= old(host.step) && host.launched >= old(host.launched)
      invariant st != null ==> st.renderId == old(st.renderId) + (host.launched - old(host.launched))
      invariant st != null ==> st.busy == old(st.busy) && st.currentView == old(st.currentView)
      invariant st != null ==> st.currentLayouts == old(st.currentLayouts)
    {
      var step := WrapLayout(host, layouts, i, html, slot, rid, st);
      if !step.Composed? {
        return step;
      }
      html := step.html;
      i := i - 1;
    }
    assert shells[..i] == [];
    return Composed(html);
  }

  /**
   * One iteration, for layout `i - 1`: await its `getHTML()`, check the render id, fill
   * the slot; what is left to compose shrinks by that layout.
   */
  method WrapLayout(host: Host, layouts: seq<Inst>, i: nat, html: string, slot: string, rid: Option<int>, st: RenderState?)
    returns (r: ComposeResult)
    requires 0 < i <= |layouts|
    requires rid.Some? ==> st != null
    modifies host, st
    ensures r.Composed? ==> Compose(html, [ToText(host.markup(layouts[i - 1]))], slot) == Some(r.html)
    ensures r.Composed? ==>
      Compose(html, Shells(host.markup, layouts)[..i], slot) == Compose(r.html, Shells(host.markup, layouts)[..i - 1], slot)
    ensures r.MissingSlot? ==> Compose(html, Shells(host.markup, layouts)[..i], slot).None?
    ensures r.ComposeStale? ==> rid.Some? && rid.value != st.renderId
    ensures r.Composed? && rid.Some? ==> rid.value == st.renderId
    ensures host.trace == old(host.trace) && host.nextSerial == old(host.nextSerial)
    ensures host.step == old(host.step) + 1 && host.launched >= old(host.launched)
    ensures st != null ==> st.renderId == old(st.renderId) + (host.launched - old(host.launched))
    ensures st != null ==> st.busy == old(st.busy) && st.currentView == old(st.currentView)
    ensures st != null ==> st.currentLayouts == old(st.currentLayouts)
  {
    ComposeAt(Shells(host.markup, layouts), i, html, slot);
    host.Await(st);
    if rid.Some? && rid.value != st.renderId {
      return ComposeStale;
    }
    var shell := ToText(host.markup(layouts[i - 1]));
    if !Contains(shell, slot) {
      return MissingSlot;
    }
    return Composed(ReplaceFirst(shell, slot, html));
  }

  /** One step of the loop: layout `i - 1` wraps the page composed so far. */
  lemma ComposeAt(shells: seq<string>, i: nat, html: string, slot: string)
    requires 0 < i <= |shells|
    ensures Compose(html, shells[..i], slot)
         == match Wrap(shells[i - 1], html, slot) case None => None case Some(h) => Compose(h, shells[..i - 1], slot)
  {
    assert shells[..i][i - 1] == shells[i - 1] && shells[..i][..i - 1] == shells[..i - 1];
  }

  // ---------------------------------------------------------------------------------
  // domCommit

  /** `{ viewInstance, layoutInstances }`, or the missing-slot error `domCommit` throws. */
  datatype CommitResult = Done(viewInstance: Option<Inst>, layoutInstances: seq<Inst>) | SlotError

  /**
   * `domCommit({ mountEl, layouts, leaf, rid, state })`: the leaf's markup wrapped by
   * the layouts, one swap of the mount point, then the mount hooks of the layouts in
   * order and of the leaf. A stale render id after any await returns the empty result.
   */
  method DomCommit(host: Host, mount: MountPoint, layouts: seq<Inst>, leaf: Inst, rid: int, st: RenderState)
    returns (out: CommitResult)
    modifies host, mount, st
    ensures var page := Compose(ToText(host.markup(leaf)), Shells(host.markup, layouts), Slot);
      // nothing written: a stale exit before the swap, or the missing slot
      (mount.innerHTML == old(mount.innerHTML) && mount.childElementCount == old(mount.childElementCount)
       && host.trace == old(host.trace) && (out == SlotError || out == Done(None, [])))
      // or the page swapped in, followed (when still current) by the mount hooks
      || (page.Some? && mount.innerHTML == page.value && mount.childElementCount == host.elementCount(page.value)
          && ((out == Done(None, []) && host.trace == old(host.trace) + [Swapped(page.value)])
              || (out == Done(Some(leaf), layouts)
                  && host.trace == old(host.trace) + [Swapped(page.value)] + MountEvents(layouts + [leaf]))))
    ensures out == SlotError ==> Compose(ToText(host.markup(leaf)), Shells(host.markup, layouts), Slot).None?
    ensures out == Done(None, []) ==> rid != st.renderId
    ensures out.Done? && out.viewInstance.Some? ==> rid == st.renderId && out == Done(Some(leaf), layouts)
    ensures out.Done? ==> out == Done(None, []) || out == Done(Some(leaf), layouts)
    ensures rid == old(st.renderId) && host.launched == old(host.launched) ==>
      (out == SlotError <==> Compose(ToText(host.markup(leaf)), Shells(host.markup, layouts), Slot).None?)
      && (out != SlotError ==> out == Done(Some(leaf), layouts))
    ensures host.nextSerial == old(host.nextSerial) && host.launched >= old(host.launched)
    ensures st.renderId == old(st.renderId) + (host.launched - old(host.launched))
    ensures st.busy == old(st.busy) && st.currentView == old(st.currentView) && st.currentLayouts == old(st.currentLayouts)
  {
    host.Await(st);
    if rid != st.renderId {
      return Done(None, []);
    }
    var html := ToText(host.markup(leaf));
    var composed := ComposeLayouts(host, layouts, html, Slot, Some(rid), st);
    if composed.ComposeStale? {
      return Done(None, []);
    }
    if composed.MissingSlot? {
      return SlotError;
    }
    host.Swap(mount, composed.html, st);
    if rid != st.renderId {
      return Done(None, []);
    }
    ghost var swapped := host.trace;
    assert swapped == old(host.trace) + [Swapped(composed.html)];
    MountAll(host, layouts);
    MountAll(host, [leaf]);
    MountEventsAppend(layouts, [leaf]);
    SeqAssoc(swapped, MountEvents(layouts), MountEvents([leaf]));
    assert host.trace == old(host.trace) + [Swapped(composed.html)] + MountEvents(layouts + [leaf]);
    return Done(Some(leaf), layouts);
  }
}
