/**
 * The view context (router/internals/context/buildContext.js, and the identical
 * `#buildContext` of router/Router.js and the inline copy in router/internals/render.js).
 */
module Context {
  import opened Paths

  /** `history.state`: `null`, or some serializable value stored by a navigation. */
  datatype HistState = NullState | StateValue(id: nat)

  /** The parts of `window.location` the router reads. */
  datatype Location = Location(pathname: string, search: string, hash: string)

  /** The context object handed to guards, views and layouts. */
  datatype Ctx = Ctx(path: string, params: map<string, string>, query: map<string, string>,
                     hash: string, state: HistState)

  /** `(hash || "").replace(/^#/, "")`: at most one leading `#` is removed. */
  function StripHash(hash: string): (r: string)
    ensures hash == r || hash == "#" + r
    ensures |r| == |hash| - (if |hash| > 0 && hash[0] == '#' then 1 else 0)
  {
    if |hash| > 0 && hash[0] == '#' then hash[1..] else hash
  }

  /** Stripping undoes prefixing one `#`, and leaves a hash without one alone. */
  lemma StripHashInverse(h: string)
    ensures StripHash("#" + h) == h
    ensures (|h| == 0 || h[0] != '#') ==> StripHash(h) == h
    ensures StripHash("") == ""
  {
    assert ("#" + h)[1..] == h;
  }

  /** Only one `#` goes: `"##x"` keeps its second `#`. */
  lemma StripHashExample()
    ensures StripHash("##x") == "#x" && StripHash("#top") == "top" && StripHash("top") == "top"
  {
  }

  /**
   * `buildContext(pathname, params)`. `searchEntries` stands for the decoded pairs
   * `URLSearchParams` yields for `location.search`.
   */
  function BuildContext(pathname: string, params: map<string, string>, loc: Location, state: HistState,
                        searchEntries: string -> seq<(string, string)>): (c: Ctx)
    ensures c.path == pathname && c.params == params && c.state == state
    ensures c.query == ParseQuery(loc.search, searchEntries)
    ensures c.hash == loc.hash || loc.hash == "#" + c.hash
  {
    Ctx(pathname, params, ParseQuery(loc.search, searchEntries), StripHash(loc.hash), state)
  }

  /** A location hash `"#" + h` reaches the context as `h`; an empty hash as `""`. */
  lemma BuildContextHash(pathname: string, params: map<string, string>, loc: Location, state: HistState,
                         searchEntries: string -> seq<(string, string)>, h: string)
    requires loc.hash == "#" + h
    ensures BuildContext(pathname, params, loc, state, searchEntries).hash == h
  {
    StripHashInverse(h);
  }
}
