/**
 * The client side of the compression service binding: whether the service is
 * bound, the connected service (if any), and forwarding cancellation to it.
 */
module ServiceBinder {
  import CompressorService

  /** A call the binder makes to the Android context: a bind attempt with its outcome, or an unbind. */
  datatype BinderCall = BindService(succeeded: bool) | UnbindService

  /** Whether the service is bound after a history of binder calls, starting unbound. */
  function BoundAfter(calls: seq<BinderCall>): bool
  {
    if calls == [] then false
    else
      match calls[|calls| - 1]
      case BindService(ok) => ok || BoundAfter(calls[..|calls| - 1])
      case UnbindService => false
  }

  /** Every unbind in the history was made while the service was bound. */
  ghost predicate UnbindsWhileBound(calls: seq<BinderCall>)
  {
    forall i :: 0 <= i < |calls| && calls[i] == UnbindService ==> BoundAfter(calls[..i])
  }

  function CountUnbinds(calls: seq<BinderCall>): nat
  {
    if calls == [] then 0
    else CountUnbinds(calls[..|calls| - 1]) + (if calls[|calls| - 1] == UnbindService then 1 else 0)
  }

  function CountSuccessfulBinds(calls: seq<BinderCall>): nat
  {
    if calls == [] then 0
    else CountSuccessfulBinds(calls[..|calls| - 1]) + (if calls[|calls| - 1] == BindService(true) then 1 else 0)
  }

  /**
   * Unbinding is always matched by an earlier successful bind: there are never
   * more unbinds than successful binds, and one fewer while the service is bound.
   */
  lemma {:induction false} UnbindsMatchBinds(calls: seq<BinderCall>)
    requires UnbindsWhileBound(calls)
    ensures CountUnbinds(calls) + (if BoundAfter(calls) then 1 else 0) <= CountSuccessfulBinds(calls)
  {
    if calls != [] {
      var prefix := calls[..|calls| - 1];
      assert UnbindsWhileBound(prefix) by {
        forall i | 0 <= i < |prefix| && prefix[i] == UnbindService
          ensures BoundAfter(prefix[..i])
        {
          assert calls[i] == prefix[i] && calls[..i] == prefix[..i];
        }
      }
      UnbindsMatchBinds(prefix);
    }
  }

  class ImageCompressorServiceBinder {
    var mService: CompressorService.ImageCompressorService?
    var mBound: bool
    var calls: seq<BinderCall>

    /** The bound flag follows the history of calls, and no unbind was made while unbound. */
    ghost predicate Valid()
      reads this
    {
      mBound == BoundAfter(calls) && UnbindsWhileBound(calls)
    }

    constructor ()
      ensures mService == null && !mBound && calls == []
      ensures Valid()
    {
      mService := null;
      mBound := false;
      calls := [];
    }

    /** onServiceConnected: the connected service is remembered. */
    method OnServiceConnected(service: CompressorService.ImageCompressorService)
      modifies this`mService
      ensures mService == service
    {
      mService := service;
    }

    /** onServiceDisconnected: the service is forgotten. */
    method OnServiceDisconnected()
      modifies this`mService
      ensures mService == null
    {
      mService := null;
    }

    /** cancelJob: forwarded to the connected service; without one nothing happens. */
    method CancelJob()
      modifies mService
      ensures old(mService) != null ==>
        mService.State() == CompressorService.Step(old(mService.State()), CompressorService.Cancel)
    {
      if mService != null {
        mService.CancelJob();
      }
    }

    /**
     * doBindService: a successful bind sets the bound flag; a failed one leaves
     * it as it was. Either way the flag is returned.
     */
    method DoBindService(bindSucceeds: bool) returns (r: bool)
      requires Valid()
      modifies this`mBound, this`calls
      ensures Valid()
      ensures calls == old(calls) + [BindService(bindSucceeds)]
      ensures bindSucceeds ==> mBound && r
      ensures !bindSucceeds ==> mBound == old(mBound) && r == old(mBound)
    {
      calls := calls + [BindService(bindSucceeds)];
      if bindSucceeds {
        mBound := true;
      }
      r := mBound;
      assert calls[..|calls| - 1] == old(calls);
      assert forall i :: 0 <= i < |old(calls)| ==> calls[..i] == old(calls)[..i];
    }

    /**
     * doUnbindService: unbinds only when bound, leaves the flag false, and
     * returns false.
     */
    method DoUnbindService() returns (r: bool)
      requires Valid()
      modifies this`mBound, this`calls
      ensures Valid()
      ensures !mBound && !r
      ensures calls == old(calls) + (if old(mBound) then [UnbindService] else [])
    {
      if mBound {
        calls := calls + [UnbindService];
        mBound := false;
        assert calls[..|calls| - 1] == old(calls);
        assert forall i :: 0 <= i < |old(calls)| ==> calls[..i] == old(calls)[..i];
      }
      r := mBound;
    }
  }
}
