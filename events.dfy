/**
 * The delegated link-click filter and the popstate handler of `createHandlers`
 * (router/internals/events.js); `Router`'s own `#onClick` (router/Router.js) is the same
 * chain of checks and uses this model.
 */
module Events {
  import opened Wrappers
  import opened Text

  /** The element `closest(linkSelector)` finds: its `target`, `download`, `rel` and `href`. */
  datatype Link = Link(target: string, hasDownload: bool, rel: Option<string>, href: string)

  /** A click's target: not an `Element`, or an element and the answers of its `closest`. */
  datatype Target = NonElement | Element(closest: string -> Option<Link>)

  datatype Click = Click(defaultPrevented: bool, button: int,
                         metaKey: bool, ctrlKey: bool, shiftKey: bool, altKey: bool, target: Target)

  /** The parts of `new URL(href, origin)` the filter reads. */
  datatype Url = Url(origin: string, pathname: string, search: string, hash: string)

  /** What `onNavigate` is called with: a URL, or `Symbol.for("popstate")`. */
  datatype NavRequest = ToUrl(url: string) | PopState

  datatype Effect = PreventDefault | Navigate(to: NavRequest)

  /** A plain left click nobody has handled yet. */
  predicate PlainClick(c: Click) {
    !c.defaultPrevented && c.button == 0 && !(c.metaKey || c.ctrlKey || c.shiftKey || c.altKey)
  }

  /** `t instanceof Element && t.closest(linkSelector)`. */
  function LinkOf(c: Click, linkSelector: string): Option<Link> {
    if c.target.Element? then c.target.closest(linkSelector) else None
  }

  /** A link the browser must follow itself: a new tab, a download, or an external relation. */
  predicate NativeLink(l: Link) {
    l.target == "_blank" || l.hasDownload || l.rel == Some("external")
  }

  /** A URL the SPA does not serve: another origin, or a path under `/api/`. */
  predicate Foreign(u: Url, origin: string) {
    u.origin != origin || StartsWith(u.pathname, "/api/")
  }

  /**
   * `onClick(event)`: the effects the handler has, in order. `resolve(href, origin)` is
   * `new URL(href, window.location.origin)`.
   */
  function ClickEffects(c: Click, linkSelector: string, origin: string, resolve: (string, string) -> Url)
    : (fx: seq<Effect>)
    ensures !PlainClick(c) ==> fx == []
    ensures LinkOf(c, linkSelector).None? ==> fx == []
    ensures LinkOf(c, linkSelector).Some? && NativeLink(LinkOf(c, linkSelector).value) ==> fx == []
    ensures LinkOf(c, linkSelector).Some? && Foreign(resolve(LinkOf(c, linkSelector).value.href, origin), origin) ==> fx == []
    ensures fx == [] || |fx| == 2
    ensures |fx| == 2 ==>
      var u := resolve(LinkOf(c, linkSelector).value.href, origin);
      fx[0] == PreventDefault && fx[1] == Navigate(ToUrl(u.pathname + u.search + u.hash))
  {
    if c.defaultPrevented then []
    else if c.button != 0 then []
    else if c.metaKey || c.ctrlKey || c.shiftKey || c.altKey then []
    else if !c.target.Element? then []
    else
      var link := c.target.closest(linkSelector);
      if link.None? then []
      else if link.value.target == "_blank" then []
      else if link.value.hasDownload then []
      else if link.value.rel == Some("external") then []
      else
        var u := resolve(link.value.href, origin);
        if u.origin != origin then []
        else if StartsWith(u.pathname, "/api/") then []
        else [PreventDefault, Navigate(ToUrl(u.pathname + u.search + u.hash))]
  }

  /**
   * Every click that passes all checks is taken over: `preventDefault` once, then one
   * navigation to the URL's path, query and fragment.
   */
  lemma ClickNavigates(c: Click, linkSelector: string, origin: string, resolve: (string, string) -> Url)
    requires PlainClick(c) && LinkOf(c, linkSelector).Some? && !NativeLink(LinkOf(c, linkSelector).value)
    requires !Foreign(resolve(LinkOf(c, linkSelector).value.href, origin), origin)
    ensures var u := resolve(LinkOf(c, linkSelector).value.href, origin);
      ClickEffects(c, linkSelector, origin, resolve) == [PreventDefault, Navigate(ToUrl(u.pathname + u.search + u.hash))]
  {
  }

  /** A click is ignored (no effect at all) exactly when one of the checks rejects it. */
  lemma ClickIgnoredIff(c: Click, linkSelector: string, origin: string, resolve: (string, string) -> Url)
    ensures ClickEffects(c, linkSelector, origin, resolve) == [] <==>
      !PlainClick(c) || LinkOf(c, linkSelector).None? || NativeLink(LinkOf(c, linkSelector).value)
      || Foreign(resolve(LinkOf(c, linkSelector).value.href, origin), origin)
  {
    if PlainClick(c) && LinkOf(c, linkSelector).Some? && !NativeLink(LinkOf(c, linkSelector).value)
       && !Foreign(resolve(LinkOf(c, linkSelector).value.href, origin), origin)
    {
      ClickNavigates(c, linkSelector, origin, resolve);
    }
  }

  /** `onPopState()`: one navigation request carrying the popstate symbol, and nothing else. */
  function PopStateEffects(): (fx: seq<Effect>)
    ensures |fx| == 1 && fx[0].Navigate? && fx[0].to.PopState?
  {
    [Navigate(PopState)]
  }
}
