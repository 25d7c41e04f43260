/**
 * The authentication guards (auth/guards.js): the route guard `requireAuth` builds and the
 * global `onBeforeNavigate` veto. The auth service is an oracle whose answers are fixed
 * and whose calls are logged.
 */
module Auth {
  import opened Wrappers
  import opened Text
  import opened Context
  import opened Runtime
  import opened Guards
  import opened SpaRouter

  /** A call into the auth service. */
  datatype AuthCall = IsLoggedInCall | IsTokenExpiredCall | InitFromStorageCall | ClearCall

  /** The auth service as seen by the guard: its answers and the log of calls. */
  class AuthService {
    var loggedIn: bool
    var expired: bool
    /** What `await initFromStorage()` yields. */
    const restores: bool
    var calls: seq<AuthCall>

    constructor (loggedIn: bool, expired: bool, restores: bool)
      ensures this.loggedIn == loggedIn && this.expired == expired && this.restores == restores && calls == []
    {
      this.loggedIn := loggedIn;
      this.expired := expired;
      this.restores := restores;
      calls := [];
    }

    method IsLoggedIn() returns (b: bool)
      modifies this
      ensures b == loggedIn && loggedIn == old(loggedIn) && expired == old(expired)
      ensures calls == old(calls) + [IsLoggedInCall]
    {
      b := loggedIn;
      calls := calls + [IsLoggedInCall];
    }

    method IsTokenExpired() returns (b: bool)
      modifies this
      ensures b == expired && loggedIn == old(loggedIn) && expired == old(expired)
      ensures calls == old(calls) + [IsTokenExpiredCall]
    {
      b := expired;
      calls := calls + [IsTokenExpiredCall];
    }

    method InitFromStorage() returns (ok: bool)
      modifies this
      ensures ok == restores && loggedIn == old(loggedIn) && expired == old(expired)
      ensures calls == old(calls) + [InitFromStorageCall]
    {
      ok := restores;
      calls := calls + [InitFromStorageCall];
    }

    /** `clear()`: forgets the token. */
    method Clear()
      modifies this
      ensures !loggedIn && expired == old(expired)
      ensures calls == old(calls) + [ClearCall]
    {
      loggedIn := false;
      calls := calls + [ClearCall];
    }
  }

  /** What `await checkSessionFn()` does: yields a truthy or a falsy value, or throws. */
  datatype SessionAnswer = SessionTruthy | SessionFalsy | SessionThrows

  /** `requireAuth`'s options: `loginPath` (default `/login`) and an optional `checkSessionFn`. */
  datatype AuthOpts = AuthOpts(loginPath: Option<string>, checkSession: Option<SessionAnswer>)

  /** `(ctx?.path || location.pathname) + (location.search || "") + (location.hash || "")`. */
  function Wanted(ctx: Ctx, loc: Location): string {
    (if ctx.path != "" then ctx.path else loc.pathname) + loc.search + loc.hash
  }

  /** `` `${loginPath}?next=${encodeURIComponent(wanted)}` ``. */
  function LoginRedirect(opts: AuthOpts, ctx: Ctx, loc: Location, encode: string -> string): (r: string)
    ensures StartsWith(r, opts.loginPath.GetOr("/login") + "?next=")
    ensures r[|opts.loginPath.GetOr("/login") + "?next="|..] == encode(Wanted(ctx, loc))
  {
    var p := opts.loginPath.GetOr("/login") + "?next=";
    var r := p + encode(Wanted(ctx, loc));
    assert r[..|p|] == p;
    r
  }

  /**
   * Whether the guard lets the navigation through, from the service's state when it is
   * called: logged in, not expired or restored from storage, and the backend check (when
   * there is one) answering truthy.
   */
  predicate Admits(loggedIn: bool, expired: bool, restores: bool, session: Option<SessionAnswer>) {
    loggedIn && (!expired || restores) && (session.None? || session == Some(SessionTruthy))
  }

  /** The calls the guard makes into the service, in order. */
  function AuthCalls(loggedIn: bool, expired: bool, restores: bool, session: Option<SessionAnswer>)
    : (cs: seq<AuthCall>)
    ensures |cs| >= 1 && cs[0] == IsLoggedInCall
    ensures !loggedIn ==> cs == [IsLoggedInCall]
    ensures ClearCall in cs <==> loggedIn && (!expired || restores) && session.Some? && session != Some(SessionTruthy)
    ensures ClearCall in cs ==> cs[|cs| - 1] == ClearCall && ClearCall !in cs[..|cs| - 1]
    ensures InitFromStorageCall in cs <==> loggedIn && expired
  {
    if !loggedIn then [IsLoggedInCall]
    else
      var refresh := if expired then [InitFromStorageCall] else [];
      if expired && !restores then [IsLoggedInCall, IsTokenExpiredCall] + refresh
      else if session.Some? && session != Some(SessionTruthy) then [IsLoggedInCall, IsTokenExpiredCall] + refresh + [ClearCall]
      else [IsLoggedInCall, IsTokenExpiredCall] + refresh
  }

  /**
   * The guard `requireAuth(auth, opts)` returns, applied to `ctx`: `true` (modelled as
   * `GOther`) when `Admits`, else the login redirect; it makes exactly `AuthCalls`.
   */
  method RequireAuth(auth: AuthService, opts: AuthOpts, ctx: Ctx, loc: Location, encode: string -> string)
    returns (r: GuardValue)
    modifies auth
    ensures r == if Admits(old(auth.loggedIn), old(auth.expired), auth.restores, opts.checkSession)
                 then GOther else GString(LoginRedirect(opts, ctx, loc, encode))
    ensures auth.calls == old(auth.calls) + AuthCalls(old(auth.loggedIn), old(auth.expired), auth.restores, opts.checkSession)
  {
    var redirect := LoginRedirect(opts, ctx, loc, encode);
    var logged := auth.IsLoggedIn();
    if !logged {
      return GString(redirect);
    }
    var expired := auth.IsTokenExpired();
    if expired {
      var ok := auth.InitFromStorage();
      if !ok {
        return GString(redirect);
      }
    }
    if opts.checkSession.Some? {
      if opts.checkSession.value == SessionTruthy {
        return GOther;
      }
      auth.Clear();
      return GString(redirect);
    }
    return GOther;
  }

  /** The guard only redirects or lets through: as a `beforeEnter` answer it never blocks. */
  lemma RequireAuthNeverBlocks(loggedIn: bool, expired: bool, restores: bool, opts: AuthOpts, ctx: Ctx,
                               loc: Location, encode: string -> string)
    ensures var r := if Admits(loggedIn, expired, restores, opts.checkSession)
                     then GOther else GString(LoginRedirect(opts, ctx, loc, encode));
      Verdict(Resolves(r)) != Block
      && (Verdict(Resolves(r)) == Continue <==> Admits(loggedIn, expired, restores, opts.checkSession))
  {
  }

  /** A failed refresh redirects without a backend check and without `clear()`. */
  lemma FailedRefreshStops(session: Option<SessionAnswer>)
    ensures AuthCalls(true, true, false, session) == [IsLoggedInCall, IsTokenExpiredCall, InitFromStorageCall]
    ensures !Admits(true, true, false, session)
  {
  }

  /** `onBeforeNavigate(to)`: `false` for `/api/` URLs, `undefined` otherwise. */
  function OnBeforeNavigate(to: string): (v: VetoAnswer)
    ensures v == ExactlyFalse <==> StartsWith(to, "/api/")
    ensures v != ExactlyFalse ==> v == OtherFalsy
  {
    if StartsWith(to, "/api/") then ExactlyFalse else OtherFalsy
  }
}
