/**
 * `pathToRegex` (router/internals/routing.js, copied in router/routerTools.js) and the
 * behaviour of the regular expressions it builds.
 *
 * The compiled expression is `^` + the pattern with every `/` escaped and every `:name`
 * (a `:` followed by the maximal run of `\w` characters) replaced by `([^\/]+)` + `$`.
 * It is modelled as a token list: `Lit(c)` matches the character `c`, `Param(name)`
 * matches one or more characters other than `/`. `MatchFrom` is the backtracking
 * search ECMAScript performs for such an expression: greedy captures, longest first.
 */
module Patterns {
  import opened Wrappers

  /** The `\w` class of a regular expression without the `i` flag. */
  predicate IsWordChar(c: char) {
    ('a' <= c <= 'z') || ('A' <= c <= 'Z') || ('0' <= c <= '9') || c == '_'
  }

  /** The end of the run of `\w` characters that starts at index `i` of `p`. */
  function WordEnd(p: string, i: nat): (j: nat)
    requires i <= |p|
    ensures i <= j <= |p|
    decreases |p| - i
  {
    if i < |p| && IsWordChar(p[i]) then WordEnd(p, i + 1) else i
  }

  datatype Token = Lit(c: char) | Param(name: string)

  /**
   * The tokens of `p` from index `i` on: the left-to-right scan that
   * `replace(/:(\w+)/g, ...)` performs, where a `:` followed by a non-empty run of `\w`
   * becomes a capture and every other character stands for itself.
   */
  function LexFrom(p: string, i: nat): seq<Token>
    requires i <= |p|
    decreases |p| - i
  {
    if i == |p| then []
    else if p[i] == ':' && WordEnd(p, i + 1) > i + 1 then
      [Param(p[i + 1..WordEnd(p, i + 1)])] + LexFrom(p, WordEnd(p, i + 1))
    else [Lit(p[i])] + LexFrom(p, i + 1)
  }

  function Lex(p: string): seq<Token> {
    LexFrom(p, 0)
  }

  /** The parameter names of a token list, in order. */
  function Keys(ts: seq<Token>): seq<string> {
    if ts == [] then []
    else (if ts[0].Param? then [ts[0].name] else []) + Keys(ts[1..])
  }

  datatype Regex = AnyString | Anchored(tokens: seq<Token>)

  /** What `pathToRegex` returns: `{ regex, keys, isCatchAll }`. */
  datatype Compiled = Compiled(regex: Regex, keys: seq<string>, isCatchAll: bool)

  /** The value `pathToRegex(path)` returns. */
  function Compile(path: string): (c: Compiled)
    ensures c.isCatchAll <==> path == "*"
    ensures c.isCatchAll ==> c.regex == AnyString && c.keys == []
    ensures !c.isCatchAll ==> c.regex.Anchored? && c.keys == Keys(c.regex.tokens)
  {
    if path == "*" then Compiled(AnyString, [], true)
    else
      var ts := Lex(path);
      Compiled(Anchored(ts), Keys(ts), false)
  }

  lemma {:induction false} KeysAppend(ts: seq<Token>, t: Token)
    ensures Keys(ts + [t]) == Keys(ts) + (if t.Param? then [t.name] else [])
    decreases |ts|
  {
    if ts != [] {
      assert (ts + [t])[1..] == ts[1..] + [t];
      KeysAppend(ts[1..], t);
    }
  }

  /**
   * `pathToRegex(path)`: the catch-all for `"*"`; otherwise a scan of the pattern that
   * emits one token per literal character and, for each `:name`, a capture token while
   * pushing `name` onto `keys`.
   */
  method PathToRegex(path: string) returns (c: Compiled)
    ensures c == Compile(path)
  {
    if path == "*" {
      return Compiled(AnyString, [], true);
    }
    var tokens, keys := Tokenize(path);
    c := Compiled(Anchored(tokens), keys, false);
  }

  /** The `replace(/:(\w+)/g, ...)` pass: the pattern's tokens and the `keys` it pushes. */
  method Tokenize(path: string) returns (tokens: seq<Token>, keys: seq<string>)
    ensures tokens == Lex(path) && keys == Keys(tokens)
  {
    tokens := [];
    keys := [];
    var i := 0;
    while i < |path|
      invariant 0 <= i <= |path|
      invariant tokens + LexFrom(path, i) == Lex(path)
      invariant keys == Keys(tokens)
      decreases |path| - i
    {
      var t, j := ScanToken(path, i);
      KeysAppend(tokens, t);
      ScanStep(tokens, t, LexFrom(path, i), LexFrom(path, j));
      if t.Param? {
        keys := keys + [t.name];
      }
      tokens := tokens + [t];
      i := j;
    }
  }

  lemma ScanStep(tokens: seq<Token>, t: Token, here: seq<Token>, rest: seq<Token>)
    requires here == [t] + rest
    ensures (tokens + [t]) + rest == tokens + here
  {
  }

  /** The token that starts at index `i`: a `:name` capture or a literal character. */
  method ScanToken(path: string, i: nat) returns (t: Token, j: nat)
    requires i < |path|
    ensures i < j <= |path|
    ensures LexFrom(path, i) == [t] + LexFrom(path, j)
  {
    j := i + 1;
    if path[i] == ':' {
      j := FindWordEnd(path, i + 1);
    }
    if j > i + 1 {
      t := Param(path[i + 1..j]);
    } else {
      t := Lit(path[i]);
    }
  }

  /** Scans the run of word characters that starts at `from`. */
  method FindWordEnd(path: string, from: nat) returns (j: nat)
    requires from <= |path|
    ensures j == WordEnd(path, from)
  {
    j := from;
    while j < |path| && IsWordChar(path[j])
      invariant from <= j <= |path|
      invariant WordEnd(path, j) == WordEnd(path, from)
    {
      j := j + 1;
    }
  }

  /** `WordEnd` is the end of the maximal run of word characters. */
  lemma {:induction false} WordEndMaximal(p: string, i: nat)
    requires i <= |p|
    ensures forall k :: i <= k < WordEnd(p, i) ==> IsWordChar(p[k])
    ensures WordEnd(p, i) < |p| ==> !IsWordChar(p[WordEnd(p, i)])
    decreases |p| - i
  {
    if i < |p| && IsWordChar(p[i]) {
      WordEndMaximal(p, i + 1);
    }
  }

  /** A token that is a capture is named by a non-empty run of `\w` characters. */
  predicate WordNamed(t: Token) {
    t.Param? ==> t.name != [] && forall k :: 0 <= k < |t.name| ==> IsWordChar(t.name[k])
  }

  /** Every capture token of the scan is named by a non-empty run of `\w` characters. */
  lemma {:induction false} LexParamNames(p: string, i: nat)
    requires i <= |p|
    ensures forall t :: t in LexFrom(p, i) ==> WordNamed(t)
    decreases |p| - i
  {
    if i < |p| {
      var t := LexFrom(p, i)[0];
      var next := if p[i] == ':' && WordEnd(p, i + 1) > i + 1 then WordEnd(p, i + 1) else i + 1;
      assert LexFrom(p, i) == [t] + LexFrom(p, next);
      LexParamNames(p, next);
      if t.Param? {
        ParamNameStep(p, i);
      }
    }
  }

  /** The capture a `:` at `i` starts is named by the run of word characters after it. */
  lemma ParamNameStep(p: string, i: nat)
    requires i < |p| && p[i] == ':' && WordEnd(p, i + 1) > i + 1
    ensures WordNamed(Param(p[i + 1..WordEnd(p, i + 1)]))
  {
    var j := WordEnd(p, i + 1);
    WordEndMaximal(p, i + 1);
    var name := p[i + 1..j];
    forall k | 0 <= k < |name| ensures IsWordChar(name[k]) {
      assert name[k] == p[i + 1 + k];
    }
  }

  /** `pathToRegex` flags the catch-all exactly for `"*"`, and the catch-all has no keys. */
  lemma CompileCatchAll(path: string)
    ensures Compile(path).isCatchAll <==> path == "*"
    ensures Compile(path).isCatchAll ==> Compile(path).keys == [] && Compile(path).regex == AnyString
  {
  }

  // ---------------------------------------------------------------------------------
  // Matching (`pathname.match(regex)`, then `m.slice(1)`)

  /** How many characters `[^\/]+` can consume at the start of `s`. */
  function SegmentRun(s: string): (n: nat)
    ensures n <= |s|
    ensures forall i :: 0 <= i < n ==> s[i] != '/'
    ensures n < |s| ==> s[n] == '/'
  {
    if |s| > 0 && s[0] != '/' then 1 + SegmentRun(s[1..]) else 0
  }

  /** The captures of the anchored expression `ts` on the whole of `s`, or no match. */
  function MatchFrom(ts: seq<Token>, s: string): Option<seq<string>>
    decreases |ts|, |s| + 1
  {
    if ts == [] then (if s == [] then Some([]) else None)
    else match ts[0]
      case Lit(c) => if |s| > 0 && s[0] == c then MatchFrom(ts[1..], s[1..]) else None
      case Param(_) => TryCapture(ts[1..], s, SegmentRun(s))
  }

  /** Backtracking over one capture: its length tried from `n` down to 1. */
  function TryCapture(rest: seq<Token>, s: string, n: nat): Option<seq<string>>
    requires n <= |s|
    decreases |rest| + 1, n
  {
    if n == 0 then None
    else match MatchFrom(rest, s[n..])
      case Some(caps) => Some([s[..n]] + caps)
      case None => TryCapture(rest, s, n - 1)
  }

  /** `s.match(regex)?.slice(1)`: the capture groups of a match, or no match. */
  function Exec(re: Regex, s: string): Option<seq<string>> {
    match re
    case AnyString => Some([])
    case Anchored(ts) => MatchFrom(ts, s)
  }

  /** A capture of `([^\/]+)`: non-empty and free of `/`. */
  predicate ValidCapture(v: string) {
    |v| > 0 && forall i :: 0 <= i < |v| ==> v[i] != '/'
  }

  /** The pathname obtained by writing `caps` into the captures of `ts`. */
  function Fill(ts: seq<Token>, caps: seq<string>): string
    decreases |ts|
  {
    if ts == [] then ""
    else match ts[0]
      case Lit(c) => [c] + Fill(ts[1..], caps)
      case Param(_) =>
        if caps == [] then Fill(ts[1..], []) else caps[0] + Fill(ts[1..], caps[1..])
  }

  /**
   * Soundness of the matcher: a match yields one valid capture per key, and writing the
   * captures back into the pattern gives the whole pathname (the expression is anchored).
   */
  lemma {:induction false} MatchFromSound(ts: seq<Token>, s: string)
    ensures MatchFrom(ts, s).Some? ==>
      var caps := MatchFrom(ts, s).value;
      |caps| == |Keys(ts)| && (forall i :: 0 <= i < |caps| ==> ValidCapture(caps[i])) && Fill(ts, caps) == s
    decreases |ts|, |s| + 1
  {
    if ts != [] && MatchFrom(ts, s).Some? {
      match ts[0]
      case Lit(c) =>
        MatchFromSound(ts[1..], s[1..]);
        assert s == [c] + s[1..];
      case Param(_) =>
        TryCaptureSound(ts[1..], s, SegmentRun(s));
    }
  }

  lemma {:induction false} TryCaptureSound(rest: seq<Token>, s: string, n: nat)
    requires n <= SegmentRun(s)
    ensures TryCapture(rest, s, n).Some? ==>
      var caps := TryCapture(rest, s, n).value;
      |caps| == |Keys(rest)| + 1 && (forall i :: 0 <= i < |caps| ==> ValidCapture(caps[i]))
      && caps[0] + Fill(rest, caps[1..]) == s
    decreases |rest| + 1, n
  {
    if n > 0 && TryCapture(rest, s, n).Some? {
      match MatchFrom(rest, s[n..])
      case Some(tail) =>
        MatchFromSound(rest, s[n..]);
        CaptureHeadSound(rest, s, n, tail);
      case None =>
        TryCaptureSound(rest, s, n - 1);
    }
  }

  /** A first capture within the segment, followed by sound captures of the rest. */
  lemma CaptureHeadSound(rest: seq<Token>, s: string, n: nat, tail: seq<string>)
    requires 0 < n <= SegmentRun(s)
    requires |tail| == |Keys(rest)| && (forall i :: 0 <= i < |tail| ==> ValidCapture(tail[i]))
    requires Fill(rest, tail) == s[n..]
    ensures var caps := [s[..n]] + tail;
      |caps| == |Keys(rest)| + 1 && (forall i :: 0 <= i < |caps| ==> ValidCapture(caps[i]))
      && caps[0] + Fill(rest, caps[1..]) == s
  {
    var caps := [s[..n]] + tail;
    assert caps[1..] == tail;
    assert forall i :: 0 <= i < n ==> s[..n][i] != '/';
    assert forall i :: 1 <= i < |caps| ==> caps[i] == tail[i - 1];
    assert s == s[..n] + s[n..];
  }

  /** Backtracking finds a capture length whenever some length up to `n` works. */
  lemma {:induction false} TryCaptureFinds(rest: seq<Token>, s: string, n: nat, k: nat)
    requires 1 <= k <= n <= |s|
    requires MatchFrom(rest, s[k..]).Some?
    ensures TryCapture(rest, s, n).Some?
    decreases n
  {
    if MatchFrom(rest, s[n..]).None? {
      TryCaptureFinds(rest, s, n - 1, k);
    }
  }

  /** Completeness of the matcher: every valid way of filling the pattern is matched. */
  lemma {:induction false} MatchFromComplete(ts: seq<Token>, s: string, caps: seq<string>)
    requires |caps| == |Keys(ts)|
    requires forall i :: 0 <= i < |caps| ==> ValidCapture(caps[i])
    requires Fill(ts, caps) == s
    ensures MatchFrom(ts, s).Some?
    decreases |ts|
  {
    if ts != [] {
      match ts[0]
      case Lit(c) =>
        MatchFromComplete(ts[1..], s[1..], caps);
      case Param(_) =>
        var v := caps[0];
        var tail := Fill(ts[1..], caps[1..]);
        assert s == v + tail;
        assert s[|v|..] == tail;
        assert forall i :: 1 <= i < |caps| ==> caps[1..][i - 1] == caps[i];
        MatchFromComplete(ts[1..], tail, caps[1..]);
        assert forall i :: 0 <= i < |v| ==> s[i] == v[i] && s[i] != '/';
        assert |v| <= SegmentRun(s);
        TryCaptureFinds(ts[1..], s, SegmentRun(s), |v|);
    }
  }

  /** Anchored matching: the regex of a non-`*` pattern matches `s` exactly when `s` fills the pattern. */
  lemma AnchoredMatchIff(path: string, s: string)
    requires path != "*"
    ensures Exec(Compile(path).regex, s).Some? <==>
      exists caps :: |caps| == |Compile(path).keys| && (forall i :: 0 <= i < |caps| ==> ValidCapture(caps[i]))
                     && Fill(Lex(path), caps) == s
  {
    var ts := Lex(path);
    MatchFromSound(ts, s);
    if Exec(Compile(path).regex, s).Some? {
      var caps := MatchFrom(ts, s).value;
      assert |caps| == |Compile(path).keys| && Fill(ts, caps) == s;
    }
    forall caps | |caps| == |Compile(path).keys| && (forall i :: 0 <= i < |caps| ==> ValidCapture(caps[i]))
                  && Fill(ts, caps) == s
      ensures MatchFrom(ts, s).Some?
    {
      MatchFromComplete(ts, s, caps);
    }
  }

  /** The catch-all matches every pathname, with no captures. */
  lemma CatchAllMatchesEverything(s: string)
    ensures Exec(Compile("*").regex, s) == Some([])
  {
  }

  // ---------------------------------------------------------------------------------
  // Patterns without parameters

  function Lits(p: string): seq<Token> {
    if p == [] then [] else [Lit(p[0])] + Lits(p[1..])
  }

  lemma {:induction false} LexWithoutColon(p: string, i: nat)
    requires i <= |p|
    requires forall k :: 0 <= k < |p| ==> p[k] != ':'
    ensures LexFrom(p, i) == Lits(p[i..])
    decreases |p| - i
  {
    if i < |p| {
      LexWithoutColon(p, i + 1);
      assert p[i..][0] == p[i] && p[i..][1..] == p[i + 1..];
    } else {
      assert p[i..] == [];
    }
  }

  lemma {:induction false} MatchLits(p: string, rest: seq<Token>, r: string)
    ensures MatchFrom(Lits(p) + rest, p + r) == MatchFrom(rest, r)
    decreases |p|
  {
    if p == [] {
      assert Lits(p) + rest == rest && p + r == r;
    } else {
      LitsCons(p, rest);
      StringCons(p, r);
      MatchLitStep(Lits(p) + rest, p + r);
      MatchLits(p[1..], rest, r);
    }
  }

  lemma LitsCons(p: string, rest: seq<Token>)
    requires p != []
    ensures (Lits(p) + rest)[0] == Lit(p[0]) && (Lits(p) + rest)[1..] == Lits(p[1..]) + rest
  {
    var t, u := [Lit(p[0])], Lits(p[1..]);
    assert Lits(p) + rest == t + (u + rest);
  }

  lemma StringCons(p: string, r: string)
    requires p != []
    ensures (p + r)[0] == p[0] && (p + r)[1..] == p[1..] + r
  {
  }

  /** A literal token consumes one equal character. */
  lemma MatchLitStep(ts: seq<Token>, s: string)
    requires ts != [] && ts[0].Lit? && |s| > 0 && s[0] == ts[0].c
    ensures MatchFrom(ts, s) == MatchFrom(ts[1..], s[1..])
  {
  }

  lemma {:induction false} MatchLitsExactly(p: string, s: string)
    ensures MatchFrom(Lits(p), s) == if s == p then Some([]) else None
    decreases |p|
  {
    if p != [] {
      MatchLitsExactly(p[1..], if |s| > 0 then s[1..] else s);
      if |s| > 0 && s[0] == p[0] && s[1..] == p[1..] {
        assert s == [s[0]] + s[1..];
      }
    }
  }

  /** A pattern without `:` (other than `"*"`) matches exactly the identical pathname and captures nothing. */
  lemma PlainPatternMatchesExactly(p: string, s: string)
    requires p != "*"
    requires forall i :: 0 <= i < |p| ==> p[i] != ':'
    ensures Compile(p).keys == [] && !Compile(p).isCatchAll
    ensures Exec(Compile(p).regex, s) == if s == p then Some([]) else None
  {
    LexWithoutColon(p, 0);
    assert p[0..] == p;
    KeysOfLits(p, []);
    assert Lits(p) + [] == Lits(p);
    MatchLitsExactly(p, s);
  }

  // ---------------------------------------------------------------------------------
  // Patterns written as `/`-separated segments

  /** One `/`-introduced segment of a route pattern: `/text` or `/:name`. */
  datatype Segment = Static(text: string) | Dynamic(name: string)

  function SegmentText(g: Segment): string {
    match g
    case Static(t) => "/" + t
    case Dynamic(n) => "/:" + n
  }

  /** The pattern written from its segments. */
  function Join(segs: seq<Segment>): string {
    if segs == [] then "" else SegmentText(segs[0]) + Join(segs[1..])
  }

  /** Literal segments hold no `:` or `/`; parameter names are non-empty runs of `\w`. */
  predicate SegmentOk(g: Segment) {
    match g
    case Static(t) => forall j :: 0 <= j < |t| ==> t[j] != ':' && t[j] != '/'
    case Dynamic(n) => |n| > 0 && forall j :: 0 <= j < |n| ==> IsWordChar(n[j])
  }

  predicate WellFormed(segs: seq<Segment>) {
    forall i :: 0 <= i < |segs| ==> SegmentOk(segs[i])
  }

  lemma WellFormedTail(segs: seq<Segment>)
    requires segs != [] && WellFormed(segs)
    ensures SegmentOk(segs[0]) && WellFormed(segs[1..])
  {
    forall i | 0 <= i < |segs[1..]| ensures SegmentOk(segs[1..][i]) {
      assert segs[1..][i] == segs[i + 1];
    }
  }

  /** The parameter names of a segment list, left to right. */
  function Names(segs: seq<Segment>): seq<string> {
    if segs == [] then []
    else (if segs[0].Dynamic? then [segs[0].name] else []) + Names(segs[1..])
  }

  /** The pathname that puts `vals`, in order, into the parameter segments. */
  function Instantiate(segs: seq<Segment>, vals: seq<string>): string {
    if segs == [] then ""
    else match segs[0]
      case Static(t) => "/" + t + Instantiate(segs[1..], vals)
      case Dynamic(_) =>
        if vals == [] then "/" + Instantiate(segs[1..], [])
        else "/" + vals[0] + Instantiate(segs[1..], vals[1..])
  }

  function SegmentHead(g: Segment): seq<Token> {
    match g
    case Static(t) => [Lit('/')] + Lits(t)
    case Dynamic(n) => [Lit('/'), Param(n)]
  }

  function SegmentTokens(segs: seq<Segment>): seq<Token> {
    if segs == [] then [] else SegmentHead(segs[0]) + SegmentTokens(segs[1..])
  }

  lemma {:induction false} WordEndShift(a: string, b: string, k: nat)
    requires k <= |b|
    ensures WordEnd(a + b, |a| + k) == |a| + WordEnd(b, k)
    decreases |b| - k
  {
    if k < |b| && IsWordChar(b[k]) {
      WordEndShift(a, b, k + 1);
    }
  }

  lemma {:induction false} WordEndPrefix(a: string, b: string, i: nat)
    requires i <= |a|
    requires b == [] || !IsWordChar(b[0])
    ensures WordEnd(a + b, i) == WordEnd(a, i)
    decreases |a| - i
  {
    if i < |a| && IsWordChar(a[i]) {
      WordEndPrefix(a, b, i + 1);
    }
  }

  lemma {:induction false} WordEndAll(p: string, i: nat)
    requires i <= |p|
    requires forall k :: i <= k < |p| ==> IsWordChar(p[k])
    ensures WordEnd(p, i) == |p|
    decreases |p| - i
  {
    if i < |p| {
      WordEndAll(p, i + 1);
    }
  }

  /** Scanning `a + b` from inside `b` is scanning `b`. */
  lemma LexShift(a: string, b: string, k: nat)
    requires k <= |b|
    ensures LexFrom(a + b, |a| + k) == LexFrom(b, k)
  {
    assert (a + b)[|a| + k..] == b[k..];
    LexSuffix(a + b, |a| + k, b, k);
  }

  /** The scan from `i` depends only on what follows `i`. */
  lemma {:induction false} LexSuffix(p: string, i: nat, q: string, m: nat)
    requires i <= |p| && m <= |q| && p[i..] == q[m..]
    ensures LexFrom(p, i) == LexFrom(q, m)
    decreases |p| - i
  {
    if i < |p| {
      DropStep(p, i, q, m);
      WordEndSuffix(p, i + 1, q, m + 1);
      var j, n := WordEnd(p, i + 1), WordEnd(q, m + 1);
      if p[i] == ':' && j > i + 1 {
        DropSlice(p, i + 1, q, m + 1, j);
        LexSuffix(p, j, q, n);
        LexParamSame(p, i, j, q, m, n);
      } else {
        LexSuffix(p, i + 1, q, m + 1);
        LexLitSame(p, i, q, m);
      }
    }
  }

  /** Equal suffixes: their first characters agree, and so do the suffixes one further. */
  lemma DropStep(p: string, i: nat, q: string, m: nat)
    requires i < |p| && m <= |q| && p[i..] == q[m..]
    ensures m < |q| && p[i] == q[m] && p[i + 1..] == q[m + 1..]
  {
    assert p[i..][0] == p[i] && p[i..][1..] == p[i + 1..];
    assert q[m..][0] == q[m] && q[m..][1..] == q[m + 1..];
  }

  /** Equal suffixes agree on every stretch and on every further suffix. */
  lemma DropSlice(p: string, i: nat, q: string, m: nat, j: nat)
    requires i <= j <= |p| && m <= |q| && p[i..] == q[m..]
    ensures m + (j - i) <= |q| && p[i..j] == q[m..m + (j - i)] && p[j..] == q[m + (j - i)..]
  {
    assert p[i..][..j - i] == p[i..j] && p[i..][j - i..] == p[j..];
    assert q[m..][..j - i] == q[m..m + (j - i)] && q[m..][j - i..] == q[m + (j - i)..];
  }

  lemma {:induction false} WordEndSuffix(p: string, i: nat, q: string, m: nat)
    requires i <= |p| && m <= |q| && p[i..] == q[m..]
    ensures WordEnd(p, i) - i == WordEnd(q, m) - m
    decreases |p| - i
  {
    if i < |p| {
      DropStep(p, i, q, m);
      WordEndSuffix(p, i + 1, q, m + 1);
    }
  }

  /** Two `:name` steps that read the same name and continue alike give the same tokens. */
  lemma LexParamSame(p: string, i: nat, j: nat, q: string, m: nat, n: nat)
    requires i < |p| && p[i] == ':' && j == WordEnd(p, i + 1) > i + 1
    requires m < |q| && q[m] == ':' && n == WordEnd(q, m + 1) > m + 1
    requires p[i + 1..j] == q[m + 1..n]
    requires LexFrom(p, j) == LexFrom(q, n)
    ensures LexFrom(p, i) == LexFrom(q, m)
  {
  }

  /** Two literal steps on the same character that continue alike give the same tokens. */
  lemma LexLitSame(p: string, i: nat, q: string, m: nat)
    requires i < |p| && m < |q| && p[i] == q[m]
    requires !(p[i] == ':' && WordEnd(p, i + 1) > i + 1)
    requires WordEnd(p, i + 1) - (i + 1) == WordEnd(q, m + 1) - (m + 1)
    requires LexFrom(p, i + 1) == LexFrom(q, m + 1)
    ensures LexFrom(p, i) == LexFrom(q, m)
  {
  }

  /** The `:name` scan of `a` does not reach into a `b` that starts with a non-word character. */
  lemma {:induction false} LexPrefix(a: string, b: string, i: nat)
    requires i <= |a|
    requires b == [] || !IsWordChar(b[0])
    ensures LexFrom(a + b, i) == LexFrom(a, i) + LexFrom(a + b, |a|)
    decreases |a| - i
  {
    if i < |a| {
      WordEndPrefix(a, b, i + 1);
      var e := WordEnd(a, i + 1);
      LexPrefix(a, b, if a[i] == ':' && e > i + 1 then e else i + 1);
      assert (a + b)[..|a|] == a;
      LexPrefixStep(a, a + b, i);
    }
  }

  /** One lexer step taken on `a` and on a longer text that starts with `a`. */
  lemma LexPrefixStep(a: string, ab: string, i: nat)
    requires i < |a| <= |ab| && ab[..|a|] == a
    requires WordEnd(ab, i + 1) == WordEnd(a, i + 1)
    requires var e := WordEnd(a, i + 1);
      var next := if a[i] == ':' && e > i + 1 then e else i + 1;
      LexFrom(ab, next) == LexFrom(a, next) + LexFrom(ab, |a|)
    ensures LexFrom(ab, i) == LexFrom(a, i) + LexFrom(ab, |a|)
  {
    var e := WordEnd(a, i + 1);
    assert ab[i] == ab[..|a|][i] == a[i];
    if a[i] == ':' && e > i + 1 {
      SlicesAgree(a, ab, i + 1, e);
      LexParamStep(ab, i, e);
      LexParamStep(a, i, e);
      ConsPrefix([Param(a[i + 1..e])], LexFrom(a, i), LexFrom(ab, i), LexFrom(a, e), LexFrom(ab, e), LexFrom(ab, |a|));
    } else {
      LexLitStep(ab, i);
      LexLitStep(a, i);
      ConsPrefix([Lit(a[i])], LexFrom(a, i), LexFrom(ab, i), LexFrom(a, i + 1), LexFrom(ab, i + 1), LexFrom(ab, |a|));
    }
  }

  /** A text that starts with `a` agrees with `a` on every stretch of `a`. */
  lemma SlicesAgree(a: string, ab: string, x: nat, y: nat)
    requires x <= y <= |a| <= |ab| && ab[..|a|] == a
    ensures ab[x..y] == a[x..y]
  {
    assert forall k :: x <= k < y ==> ab[k] == ab[..|a|][k];
  }

  /** The same head in front of both sides keeps the tail relation. */
  lemma ConsPrefix(x: seq<Token>, la: seq<Token>, lab: seq<Token>, ra: seq<Token>, rab: seq<Token>, tail: seq<Token>)
    requires la == x + ra && lab == x + rab && rab == ra + tail
    ensures lab == la + tail
  {
  }

  /** One `:name` step of the lexer. */
  lemma LexParamStep(p: string, i: nat, e: nat)
    requires i < |p| && p[i] == ':' && e == WordEnd(p, i + 1) > i + 1
    ensures LexFrom(p, i) == [Param(p[i + 1..e])] + LexFrom(p, e)
  {
  }

  /** One literal step of the lexer. */
  lemma LexLitStep(p: string, i: nat)
    requires i < |p| && !(p[i] == ':' && WordEnd(p, i + 1) > i + 1)
    ensures LexFrom(p, i) == [Lit(p[i])] + LexFrom(p, i + 1)
  {
  }

  lemma LexAppend(a: string, b: string)
    requires b == [] || !IsWordChar(b[0])
    ensures Lex(a + b) == Lex(a) + Lex(b)
  {
    LexPrefix(a, b, 0);
    LexShift(a, b, 0);
  }

  lemma {:induction false} LexSegments(segs: seq<Segment>)
    requires WellFormed(segs)
    ensures Lex(Join(segs)) == SegmentTokens(segs)
    ensures Keys(SegmentTokens(segs)) == Names(segs)
    decreases |segs|
  {
    if segs != [] {
      WellFormedTail(segs);
      LexSegments(segs[1..]);
      LexSegmentsStep(segs);
    }
  }

  lemma LexSegmentsStep(segs: seq<Segment>)
    requires segs != [] && SegmentOk(segs[0])
    requires Lex(Join(segs[1..])) == SegmentTokens(segs[1..])
    requires Keys(SegmentTokens(segs[1..])) == Names(segs[1..])
    ensures Lex(Join(segs)) == SegmentTokens(segs)
    ensures Keys(SegmentTokens(segs)) == Names(segs)
  {
    var rest := Join(segs[1..]);
    assert rest == [] || rest[0] == '/' by {
      if segs[1..] != [] { assert rest == SegmentText(segs[1..][0]) + Join(segs[1..][1..]); }
    }
    LexAppend(SegmentText(segs[0]), rest);
    LexHead(segs[0]);
    KeysConcat(SegmentHead(segs[0]), SegmentTokens(segs[1..]));
  }

  lemma LexHead(g: Segment)
    requires SegmentOk(g)
    ensures Lex(SegmentText(g)) == SegmentHead(g)
    ensures Keys(SegmentHead(g)) == if g.Dynamic? then [g.name] else []
  {
    match g
    case Static(t) =>
      LexStatic(t);
      KeysOfLits(t, []);
      assert Lits(t) + [] == Lits(t);
      assert SegmentHead(g)[1..] == Lits(t);
    case Dynamic(n) =>
      LexDynamic(n);
      var h := SegmentHead(g);
      assert h[1..] == [Param(n)] && h[1..][1..] == [];
      assert Keys(h[1..]) == [n] + Keys([]);
  }

  lemma {:induction false} KeysConcat(xs: seq<Token>, ys: seq<Token>)
    ensures Keys(xs + ys) == Keys(xs) + Keys(ys)
    decreases |xs|
  {
    if xs == [] {
      assert xs + ys == ys;
    } else {
      assert (xs + ys)[0] == xs[0] && (xs + ys)[1..] == xs[1..] + ys;
      KeysConcat(xs[1..], ys);
    }
  }

  lemma LexStatic(t: string)
    requires forall j :: 0 <= j < |t| ==> t[j] != ':'
    ensures Lex("/" + t) == [Lit('/')] + Lits(t)
  {
    LexShift("/", t, 0);
    LexWithoutColon(t, 0);
    assert t[0..] == t;
  }

  lemma LexDynamic(n: string)
    requires |n| > 0 && forall j :: 0 <= j < |n| ==> IsWordChar(n[j])
    ensures Lex("/:" + n) == [Lit('/'), Param(n)]
  {
    var x := "/:" + n;
    WordEndShift("/:", n, 0);
    WordEndAll(n, 0);
    assert WordEnd(x, 2) == |x|;
    assert x[2..|x|] == n;
    assert LexFrom(x, 1) == [Param(n)] + LexFrom(x, |x|);
  }

  lemma {:induction false} KeysOfLits(t: string, rest: seq<Token>)
    ensures Keys(Lits(t) + rest) == Keys(rest)
    decreases |t|
  {
    if t == [] {
      assert Lits(t) + rest == rest;
    } else {
      var ts := Lits(t) + rest;
      assert ts[0] == Lit(t[0]) && ts[1..] == Lits(t[1..]) + rest;
      KeysOfLits(t[1..], rest);
    }
  }

  /** The keys of a segment pattern are its `:name` segments, left to right. */
  lemma SegmentKeys(segs: seq<Segment>)
    requires WellFormed(segs)
    ensures !Compile(Join(segs)).isCatchAll
    ensures Compile(Join(segs)).keys == Names(segs)
    ensures Compile(Join(segs)).regex == Anchored(SegmentTokens(segs))
  {
    LexSegments(segs);
    assert Join(segs) != "*" by {
      if segs != [] { assert Join(segs)[0] == '/'; }
    }
  }

  lemma {:induction false} SegmentMatch(segs: seq<Segment>, vals: seq<string>)
    requires WellFormed(segs)
    requires |vals| == |Names(segs)|
    requires forall i :: 0 <= i < |vals| ==> ValidCapture(vals[i])
    ensures MatchFrom(SegmentTokens(segs), Instantiate(segs, vals)) == Some(vals)
    decreases |segs|
  {
    if segs != [] {
      WellFormedTail(segs);
      var R := SegmentTokens(segs[1..]);
      match segs[0]
      case Static(t) =>
        SegmentMatch(segs[1..], vals);
        StaticStep(t, R, Instantiate(segs[1..], vals), vals);
      case Dynamic(n) =>
        assert forall i :: 1 <= i < |vals| ==> vals[1..][i - 1] == vals[i];
        SegmentMatch(segs[1..], vals[1..]);
        InstantiateStart(segs[1..], vals[1..]);
        DynamicStep(n, R, Instantiate(segs[1..], vals[1..]), vals);
        assert Instantiate(segs, vals) == "/" + vals[0] + Instantiate(segs[1..], vals[1..]);
    }
  }

  lemma InstantiateStart(segs: seq<Segment>, vals: seq<string>)
    ensures Instantiate(segs, vals) == [] || Instantiate(segs, vals)[0] == '/'
  {
    if segs != [] {
      match segs[0]
      case Static(_) =>
      case Dynamic(_) =>
    }
  }

  lemma StaticStep(t: string, R: seq<Token>, r: string, vals: seq<string>)
    requires MatchFrom(R, r) == Some(vals)
    ensures MatchFrom([Lit('/')] + Lits(t) + R, "/" + t + r) == Some(vals)
  {
    assert Lits("/") == [Lit('/')];
    assert [Lit('/')] + Lits(t) + R == Lits("/") + (Lits(t) + R);
    assert "/" + t + r == "/" + (t + r);
    MatchLits("/", Lits(t) + R, t + r);
    MatchLits(t, R, r);
  }

  lemma DynamicStep(n: string, R: seq<Token>, r: string, vals: seq<string>)
    requires |vals| > 0 && ValidCapture(vals[0])
    requires MatchFrom(R, r) == Some(vals[1..]) && (r == [] || r[0] == '/')
    ensures MatchFrom([Lit('/'), Param(n)] + R, "/" + vals[0] + r) == Some(vals)
  {
    var v := vals[0];
    var s := v + r;
    assert Lits("/") == [Lit('/')];
    assert [Lit('/'), Param(n)] + R == Lits("/") + ([Param(n)] + R);
    assert "/" + v + r == "/" + s;
    MatchLits("/", [Param(n)] + R, s);
    assert ([Param(n)] + R)[0] == Param(n) && ([Param(n)] + R)[1..] == R;
    assert SegmentRun(s) == |v| by {
      assert forall i :: 0 <= i < |v| ==> s[i] == v[i] && s[i] != '/';
      assert |v| < |s| ==> s[|v|] == r[0];
    }
    assert s[|v|..] == r && s[..|v|] == v;
    assert [v] + vals[1..] == vals;
  }

  /**
   * Round trip for segment patterns: filling `/literal/:name` style patterns with valid
   * values and matching the result gives the values back, one per key.
   */
  lemma SegmentRoundTrip(segs: seq<Segment>, vals: seq<string>)
    requires WellFormed(segs)
    requires |vals| == |Names(segs)|
    requires forall i :: 0 <= i < |vals| ==> ValidCapture(vals[i])
    ensures Exec(Compile(Join(segs)).regex, Instantiate(segs, vals)) == Some(vals)
    ensures |Compile(Join(segs)).keys| == |vals|
  {
    SegmentKeys(segs);
    SegmentMatch(segs, vals);
  }


  lemma {:induction false} FillLits(t: string, R: seq<Token>, caps: seq<string>)
    ensures Fill(Lits(t) + R, caps) == t + Fill(R, caps)
    decreases |t|
  {
    if t == [] {
      assert Lits(t) + R == R;
    } else {
      LitsCons(t, R);
      FillLitStep(Lits(t) + R, caps);
      FillLits(t[1..], R, caps);
      var h, u := [t[0]], t[1..];
      assert t == h + u;
      assert h + Fill(Lits(u) + R, caps) == h + (u + Fill(R, caps));
    }
  }

  /** A literal token writes its character. */
  lemma FillLitStep(ts: seq<Token>, caps: seq<string>)
    requires ts != [] && ts[0].Lit?
    ensures Fill(ts, caps) == [ts[0].c] + Fill(ts[1..], caps)
  {
  }

  /** Writing values into a segment pattern's tokens is instantiating its segments. */
  lemma {:induction false} FillSegments(segs: seq<Segment>, caps: seq<string>)
    requires |caps| == |Names(segs)|
    ensures Fill(SegmentTokens(segs), caps) == Instantiate(segs, caps)
    decreases |segs|
  {
    if segs != [] {
      var R := SegmentTokens(segs[1..]);
      match segs[0]
      case Static(t) =>
        FillSegments(segs[1..], caps);
        FillStatic(t, R, caps);
      case Dynamic(n) =>
        FillSegments(segs[1..], caps[1..]);
        FillDynamic(n, R, caps);
    }
  }

  lemma FillStatic(t: string, R: seq<Token>, caps: seq<string>)
    ensures Fill([Lit('/')] + Lits(t) + R, caps) == "/" + t + Fill(R, caps)
  {
    assert Lits("/") == [Lit('/')];
    assert [Lit('/')] + Lits(t) + R == Lits("/") + (Lits(t) + R);
    FillLits("/", Lits(t) + R, caps);
    FillLits(t, R, caps);
  }

  lemma FillDynamic(n: string, R: seq<Token>, caps: seq<string>)
    requires caps != []
    ensures Fill([Lit('/'), Param(n)] + R, caps) == "/" + caps[0] + Fill(R, caps[1..])
  {
    var X, P := [Lit('/'), Param(n)] + R, [Param(n)] + R;
    assert X[0] == Lit('/') && X[1..] == P;
    FillLitStep(X, caps);
    assert P[0] == Param(n) && P[1..] == R;
    FillParamStep(P, caps);
    assert "/" == ['/'];
  }

  lemma FillParamStep(ts: seq<Token>, caps: seq<string>)
    requires ts != [] && ts[0].Param? && caps != []
    ensures Fill(ts, caps) == caps[0] + Fill(ts[1..], caps[1..])
  {
  }

  /**
   * A segment pattern matches exactly the pathnames obtained by filling its parameter
   * segments with non-empty, `/`-free values.
   */
  lemma SegmentMatchIff(segs: seq<Segment>, s: string)
    requires WellFormed(segs)
    ensures Exec(Compile(Join(segs)).regex, s).Some? <==>
      exists vals :: |vals| == |Names(segs)| && (forall i :: 0 <= i < |vals| ==> ValidCapture(vals[i]))
                     && Instantiate(segs, vals) == s
  {
    SegmentKeys(segs);
    var ts := SegmentTokens(segs);
    LexSegments(segs);
    if MatchFrom(ts, s).Some? {
      MatchFromSound(ts, s);
      var caps := MatchFrom(ts, s).value;
      FillSegments(segs, caps);
      assert Instantiate(segs, caps) == s;
    }
    forall vals | |vals| == |Names(segs)| && (forall i :: 0 <= i < |vals| ==> ValidCapture(vals[i]))
                  && Instantiate(segs, vals) == s
      ensures MatchFrom(ts, s).Some?
    {
      SegmentMatch(segs, vals);
    }
  }

  /** The segments of the pattern `"/posts/:id"`. */
  lemma PostsSegments() returns (segs: seq<Segment>)
    ensures segs == [Static("posts"), Dynamic("id")]
    ensures Join(segs) == "/posts/:id" && WellFormed(segs) && Names(segs) == ["id"]
  {
    segs := [Static("posts"), Dynamic("id")];
    assert SegmentOk(segs[0]) && SegmentOk(segs[1]);
  }

  /** `"/posts/:id"` has the single key `"id"` and matches `"/posts/42"` capturing `"42"`. */
  lemma PostsExample()
    ensures Compile("/posts/:id").keys == ["id"]
    ensures Exec(Compile("/posts/:id").regex, "/posts/42") == Some(["42"])
  {
    var segs := PostsSegments();
    assert segs[1..] == [Dynamic("id")] && segs[1..][1..] == [];
    assert ["42"][1..] == [];
    assert Instantiate(segs[1..], ["42"]) == "/" + "42" + "";
    assert Instantiate(segs, ["42"]) == "/posts/42";
    assert ValidCapture("42");
    SegmentRoundTrip(segs, ["42"]);
    SegmentKeys(segs);
  }

  /** `"/posts/:id"` does not match `"/posts/"`: a capture is never empty. */
  lemma PostsEmptyParamExample()
    ensures Exec(Compile("/posts/:id").regex, "/posts/").None?
  {
    var segs := PostsSegments();
    SegmentMatchIff(segs, "/posts/");
    forall vals | |vals| == 1 && ValidCapture(vals[0])
      ensures Instantiate(segs, vals) != "/posts/"
    {
      assert segs[1..] == [Dynamic("id")] && segs[1..][1..] == [];
      assert Instantiate(segs[1..], vals) == "/" + vals[0] + "";
      assert |Instantiate(segs, vals)| == 7 + |vals[0]|;
    }
  }
}
