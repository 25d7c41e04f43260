/**
 * The default animation hook (transitions/AbstractAnimationHook.js): `mount({ helpers })`
 * tears the old view down and then awaits a full commit of the new one.
 */
module AnimationHook {

  /** A call the hook makes on `helpers`; `withOptions` says whether `commit` got an options argument. */
  datatype HelperCall = TeardownCall | CommitCall(withOptions: bool)

  /** How a promise settles. */
  datatype Settled = Fulfilled | Rejected

  /** The `helpers` the router passes to a hook, with the log of calls made on them. */
  class Helpers {
    var calls: seq<HelperCall>
    /** How the promise `commit()` returns settles. */
    const commitSettles: Settled

    constructor (commitSettles: Settled)
      ensures calls == [] && this.commitSettles == commitSettles
    {
      calls := [];
      this.commitSettles := commitSettles;
    }

    method Teardown()
      modifies this
      ensures calls == old(calls) + [TeardownCall]
    {
      calls := calls + [TeardownCall];
    }

    /** `commit(opts)`, awaited by the caller: settles as `commitSettles`. */
    method Commit(withOptions: bool) returns (s: Settled)
      modifies this
      ensures calls == old(calls) + [CommitCall(withOptions)] && s == commitSettles
    {
      calls := calls + [CommitCall(withOptions)];
      s := commitSettles;
    }
  }

  class AbstractAnimationHook {
    constructor ()
    {
    }

    /**
     * `async mount({ helpers })`: `teardown()` once, then one `commit()` without options
     * (a full commit); the returned promise settles as the commit's does, so a rejection
     * propagates.
     */
    method Mount(helpers: Helpers) returns (s: Settled)
      modifies helpers
      ensures helpers.calls == old(helpers.calls) + [TeardownCall, CommitCall(false)]
      ensures s == helpers.commitSettles
    {
      helpers.Teardown();
      s := helpers.Commit(false);
    }
  }
}
