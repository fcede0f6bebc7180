/** The process-wide reference counters around grn_init and grn_fin: grngo.go's
    counter with its separate disabled flag (grngo.go:166-211), and grn.go's
    counter, where -1 means disabled (grn.go:19-60).  What grn_init and grn_fin
    return is a parameter of each call; whether Groonga is initialized is kept as
    a ghost field, and every call of the library is logged. */
module Lifecycle {
  import opened Common
  import opened Engine

  datatype LibraryCall = GrnInitCall | GrnFinCall

  datatype LifecycleError =
    | InitFailed(rc: Rc)
    | FinFailed(rc: Rc)
    | NotInitialized

  /** grngo's grnInitFinDisabled and grnInitCount. */
  class GrngoCounter {
    var disabled: bool
    var count: nat
    /** Whether grn_init has succeeded without a grn_fin since. */
    ghost var initialized: bool
    ghost var calls: seq<LibraryCall>

    constructor ()
      ensures !disabled && count == 0 && !initialized && calls == [] && Valid()
    {
      disabled := false;
      count := 0;
      initialized := false;
      calls := [];
    }

    /** While the counter manages Groonga, it is initialized exactly when some
        GrnInit is not yet matched by a GrnFin. */
    ghost predicate Valid()
      reads this
    {
      !disabled ==> (initialized <==> count > 0)
    }

    /** DisableGrnInitFin. */
    method Disable()
      modifies this
      ensures disabled && count == old(count) && initialized == old(initialized) && calls == old(calls)
      ensures Valid()
    {
      disabled := true;
    }

    /** GrnInit: grn_init on the 0 -> 1 step unless disabled; a failure leaves the
        count as it was. */
    method Init(initRc: Rc) returns (r: Result<(), LifecycleError>)
      requires Valid()
      modifies this
      ensures Valid() && disabled == old(disabled)
      ensures var call := old(count) == 0 && !disabled;
        && calls == old(calls) + (if call then [GrnInitCall] else [])
        && (call && initRc != Success ==> r == Err(InitFailed(initRc)) && count == old(count) && initialized == old(initialized))
        && (!call || initRc == Success ==> r == Ok(()) && count == old(count) + 1)
        && (call && initRc == Success ==> initialized)
        && (!call ==> initialized == old(initialized))
    {
      if count == 0 {
        if !disabled {
          calls := calls + [GrnInitCall];
          if initRc != Success {
            return Err(InitFailed(initRc));
          }
          initialized := true;
        }
      }
      count := count + 1;
      return Ok(());
    }

    /** GrnFin: an error at 0; grn_fin on the 1 -> 0 step unless disabled, a
        failure leaving the count as it was. */
    method Fin(finRc: Rc) returns (r: Result<(), LifecycleError>)
      requires Valid()
      modifies this
      ensures Valid() && disabled == old(disabled)
      ensures old(count) == 0 ==> r == Err(NotInitialized) && count == 0 && calls == old(calls) && initialized == old(initialized)
      ensures var call := old(count) == 1 && !disabled;
        && (old(count) > 0 ==> calls == old(calls) + (if call then [GrnFinCall] else []))
        && (call && finRc != Success ==> r == Err(FinFailed(finRc)) && count == old(count) && initialized == old(initialized))
        && (old(count) > 0 && (!call || finRc == Success) ==> r == Ok(()) && count == old(count) - 1)
        && (call && finRc == Success ==> !initialized)
        && (!call ==> initialized == old(initialized))
    {
      if count == 0 {
        return Err(NotInitialized);
      }
      if count == 1 {
        if !disabled {
          calls := calls + [GrnFinCall];
          if finRc != Success {
            return Err(FinFailed(finRc));
          }
          initialized := false;
        }
      }
      count := count - 1;
      return Ok(());
    }
  }

  /** gnx's grnInitCount: -1 once disabled, otherwise the number of GrnInit calls
      not yet matched by GrnFin. */
  class GnxCounter {
    var count: int
    ghost var initialized: bool
    ghost var calls: seq<LibraryCall>

    constructor ()
      ensures count == 0 && !initialized && calls == [] && Valid()
    {
      count := 0;
      initialized := false;
      calls := [];
    }

    ghost predicate Valid()
      reads this
    {
      count >= -1 && (count >= 0 ==> (initialized <==> count > 0))
    }

    /** DisableGrnInitCount. */
    method Disable()
      modifies this
      ensures count == -1 && initialized == old(initialized) && calls == old(calls)
      ensures Valid()
    {
      count := -1;
    }

    /** GrnInit: nothing while disabled; otherwise grn_init on the 0 -> 1 step. */
    method Init(initRc: Rc) returns (r: Result<(), LifecycleError>)
      requires Valid()
      modifies this
      ensures Valid()
      ensures old(count) == -1 ==> r == Ok(()) && count == -1 && calls == old(calls) && initialized == old(initialized)
      ensures old(count) == 0 ==> calls == old(calls) + [GrnInitCall]
      ensures old(count) == 0 && initRc != Success ==> r == Err(InitFailed(initRc)) && count == 0 && !initialized
      ensures old(count) >= 0 && (old(count) > 0 || initRc == Success) ==> r == Ok(()) && count == old(count) + 1 && initialized
      ensures old(count) > 0 ==> calls == old(calls)
    {
      if count == -1 {
        return Ok(());
      }
      if count == 0 {
        calls := calls + [GrnInitCall];
        if initRc != Success {
          return Err(InitFailed(initRc));
        }
        initialized := true;
      }
      count := count + 1;
      return Ok(());
    }

    /** GrnFin: nothing while disabled; an error at 0; grn_fin on the 1 -> 0 step. */
    method Fin(finRc: Rc) returns (r: Result<(), LifecycleError>)
      requires Valid()
      modifies this
      ensures Valid()
      ensures old(count) == -1 ==> r == Ok(()) && count == -1 && calls == old(calls) && initialized == old(initialized)
      ensures old(count) == 0 ==> r == Err(NotInitialized) && count == 0 && calls == old(calls) && !initialized
      ensures old(count) == 1 ==> calls == old(calls) + [GrnFinCall]
      ensures old(count) == 1 && finRc != Success ==> r == Err(FinFailed(finRc)) && count == 1 && initialized
      ensures old(count) > 0 && (old(count) > 1 || finRc == Success) ==> r == Ok(()) && count == old(count) - 1
      ensures old(count) > 1 ==> calls == old(calls) && initialized
    {
      if count == -1 {
        return Ok(());
      }
      if count == 0 {
        return Err(NotInitialized);
      }
      if count == 1 {
        calls := calls + [GrnFinCall];
        if finRc != Success {
          return Err(FinFailed(finRc));
        }
        initialized := false;
      }
      count := count - 1;
      return Ok(());
    }
  }
}
