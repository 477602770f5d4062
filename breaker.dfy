/** The circuit breaker object. Its fields are updated in place, one locked
    region of the source per method; each method's new state is the matching
    transition function of Model applied to the old state. */
module Breaker {
  import opened Wrappers
  import opened States
  import Model
  import Properties

  class CircuitBreaker {
    var state: State
    var failureCount: int       // consecutive failures
    var successCount: int       // consecutive successes
    var halfOpenRequests: int   // half-open admissions since the counter was last freed
    var openedAt: int           // when the circuit last opened; 0 for the zero time
    const settings: Model.Settings

    /** Every notification the state-change callback has been handed, in order. */
    ghost var log: seq<Model.Change>
    /** How many times Execute has run a wrapped function. */
    ghost var invocations: nat

    /** The abstract value of the object. */
    ghost function Fields(): Model.Fields
      reads this
    {
      Model.Fields(state, failureCount, successCount, halfOpenRequests, openedAt, log)
    }

    ghost predicate Valid()
      reads this
    {
      Model.Inv(Fields(), settings)
    }

    /** A breaker with the given settings starts Closed with every counter zero
        and nothing notified. */
    constructor New(settings: Model.Settings)
      ensures Valid() && this.settings == settings && invocations == 0
      ensures state == Closed && failureCount == 0 && successCount == 0 && halfOpenRequests == 0
      ensures Fields() == Model.Init() && log == []
    {
      state := Closed;
      failureCount, successCount, halfOpenRequests, openedAt := 0, 0, 0, 0;
      this.settings := settings;
      log, invocations := [], 0;
    }

    /** A breaker with the default settings. */
    constructor NewWithDefaults()
      ensures Valid() && settings == Model.DefaultSettings() && invocations == 0
      ensures Fields() == Model.Init()
    {
      state := Closed;
      failureCount, successCount, halfOpenRequests, openedAt := 0, 0, 0, 0;
      settings := Model.DefaultSettings();
      log, invocations := [], 0;
    }

    /** Moves to newState, handing (old, new) to the callback, unless already there. */
    method SetState(newState: State)
      requires Valid()
      modifies this
      ensures Valid()
      ensures Fields() == Model.SetState(old(Fields()), newState)
      ensures invocations == old(invocations)
    {
      if state == newState {
        return;
      }
      var oldState := state;
      state := newState;
      log := log + [Model.Change(oldState, newState)];
    }

    /** The first locked region of Execute: decide whether a call at time now may
        run, and capture the state its outcome will be recorded against. */
    method Admit(now: int) returns (a: Model.Admission)
      requires Valid()
      modifies this
      ensures Valid()
      ensures (a, Fields()) == Model.Admit(old(Fields()), settings, now)
      ensures invocations == old(invocations)
    {
      ghost var before := Fields();
      if state == Open && now - openedAt >= settings.timeout {
        SetState(HalfOpen);
        halfOpenRequests := 0;
        successCount := 0;
      }
      var captured := state;
      match captured {
        case Open =>
          a := Model.Rejected(Model.CircuitOpen);
        case HalfOpen =>
          if halfOpenRequests >= settings.maxRequests {
            a := Model.Rejected(Model.HalfOpenFull);
          } else {
            halfOpenRequests := halfOpenRequests + 1;
            a := Model.Admitted(HalfOpen);
          }
        case Closed =>
          a := Model.Admitted(Closed);
      }
      Properties.AdmitPreservesInv(before, settings, now);
    }

    /** The second locked region of Execute: record at time now whether a call
        admitted in state captured failed. */
    method Record(captured: State, failed: bool, now: int)
      requires Valid()
      modifies this
      ensures Valid()
      ensures Fields() == Model.Record(old(Fields()), settings, captured, failed, now)
      ensures invocations == old(invocations)
    {
      ghost var before := Fields();
      if failed {
        failureCount := failureCount + 1;
        successCount := 0;
        if captured == HalfOpen || failureCount >= settings.failureThreshold {
          SetState(Open);
          openedAt := now;
        }
      } else {
        successCount := successCount + 1;
        failureCount := 0;
        if captured == HalfOpen {
          halfOpenRequests := 0;
          if successCount >= settings.successThreshold {
            SetState(Closed);
          }
        }
      }
      Properties.RecordPreservesInv(before, settings, captured, failed, now);
    }

    /** Runs fn if the breaker admits the call at admitNow, records its outcome at
        recordNow and returns it unchanged; a rejected call never runs fn. */
    method Execute<V, E>(fn: () -> Model.CallOutcome<V, E>, admitNow: int, recordNow: int)
      returns (r: Model.ExecResult<V, E>)
      requires Valid()
      modifies this
      ensures Valid()
      ensures (r, Fields()) == Model.Execute(old(Fields()), settings, fn(), admitNow, recordNow)
      ensures r.Completed? ==> r.outcome == fn()
      ensures invocations == old(invocations) + (if r.Refused? then 0 else 1)
    {
      var a := Admit(admitNow);
      if a.Rejected? {
        return Model.Refused(a.kind);
      }
      var out := fn();
      invocations := invocations + 1;
      Record(a.captured, out.err.Some?, recordNow);
      r := Model.Completed(out);
    }

    /** The current state. */
    method State() returns (s: State)
      ensures s == state
    {
      s := state;
    }

    /** The current failure and success streaks. */
    method Counts() returns (failures: int, successes: int)
      ensures failures == failureCount && successes == successCount
    {
      failures, successes := failureCount, successCount;
    }

    /** Forces the breaker back to Closed with every counter and openedAt zeroed,
        notifying only if the state changes. */
    method Reset()
      requires Valid()
      modifies this
      ensures Valid()
      ensures Fields() == Model.Reset(old(Fields()))
      ensures invocations == old(invocations)
    {
      ghost var before := Fields();
      SetState(Closed);
      failureCount := 0;
      successCount := 0;
      halfOpenRequests := 0;
      openedAt := 0;
      Properties.ResetPreservesInv(before, settings);
    }
  }

  /** A client that relies on the contracts alone: three failures open the
      breaker, and the call that follows is rejected without running fn. */
  method OpensAfterThreeFailures()
  {
    var cb := new CircuitBreaker.New(Model.Settings(failureThreshold := 3, successThreshold := 2,
                                                    timeout := 5 * Model.Second, maxRequests := 1));
    var fail := () => Model.CallOutcome(0, Some("service unavailable"));
    var r := cb.Execute(fail, 0, 0);
    assert r == Model.Completed(fail());
    r := cb.Execute(fail, 1 * Model.Second, 1 * Model.Second);
    r := cb.Execute(fail, 2 * Model.Second, 2 * Model.Second);
    var s := cb.State();
    var failures, successes := cb.Counts();
    assert s == Open && failures == 3 && successes == 0 && cb.invocations == 3;
    r := cb.Execute(fail, 3 * Model.Second, 3 * Model.Second);
    assert r == Model.Refused(Model.CircuitOpen) && cb.invocations == 3;
    cb.Reset();
    s := cb.State();
    assert s == Closed && cb.log == [Model.Change(Closed, Open), Model.Change(Open, Closed)];
  }
}
