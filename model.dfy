/** The circuit breaker's transition rules as pure functions over a snapshot of
    its fields. Each locked region of the source (admission, outcome recording,
    reset) is one function from the snapshot before to the snapshot after. */
module Model {
  import opened Wrappers
  import opened States

  /** One second on the model's clock, which counts nanoseconds like the source's durations. */
  const Second: int := 1_000_000_000

  /** The immutable configuration. Durations and instants are nanosecond counts
      on one integer clock. The optional state-change callback is not a field: each call it would
      receive is recorded in the snapshot's notification log instead. */
  datatype Settings = Settings(
    failureThreshold: int,  // failures before the circuit opens
    successThreshold: int,  // half-open successes before the circuit closes
    timeout: int,           // how long the circuit stays open before probing
    maxRequests: int        // half-open admissions allowed before the counter is freed
  )

  /** The settings the field comments describe: failure and success thresholds
      and a half-open request limit that are counts of at least one, and a
      non-negative timeout. New does not check them. */
  predicate WellFormed(st: Settings)
  {
    st.failureThreshold > 0 && st.successThreshold > 0 && st.timeout >= 0 && st.maxRequests > 0
  }

  /** The default configuration: open after 5 failures, close after 2 half-open
      successes, probe after 30 seconds, one probe at a time. */
  function DefaultSettings(): (st: Settings)
    ensures WellFormed(st)
  {
    Settings(failureThreshold := 5, successThreshold := 2, timeout := 30 * Second, maxRequests := 1)
  }

  /** One state-change notification: the arguments the callback receives. */
  datatype Change = Change(from: State, to: State)

  /** A snapshot of the breaker's mutable fields and of the notifications fired so far. */
  datatype Fields = Fields(
    state: State,
    failureCount: int,
    successCount: int,
    halfOpenRequests: int,
    openedAt: int,          // 0 stands for the zero time
    log: seq<Change>
  )

  /** Why a call was turned away without running. */
  datatype Rejection = CircuitOpen | HalfOpenFull

  /** The outcome of the admission phase: a rejection, or the state captured for recording. */
  datatype Admission = Rejected(kind: Rejection) | Admitted(captured: State)

  /** What the wrapped function returns: a result and an error, present on failure. */
  datatype CallOutcome<V, E> = CallOutcome(result: V, err: Option<E>)

  /** What Execute returns: a rejection, or the wrapped function's own outcome. */
  datatype ExecResult<V, E> = Refused(why: Rejection) | Completed(outcome: CallOutcome<V, E>)

  /** A freshly constructed breaker: Closed, counters zero, nothing notified. */
  function Init(): (f: Fields)
  {
    Fields(Closed, 0, 0, 0, 0, [])
  }

  /** Moves to newState, notifying once if and only if the state actually changes;
      otherwise nothing at all changes. */
  function SetState(f: Fields, newState: State): (r: Fields)
    ensures r.state == newState
    ensures r.failureCount == f.failureCount && r.successCount == f.successCount
    ensures r.halfOpenRequests == f.halfOpenRequests && r.openedAt == f.openedAt
    ensures newState == f.state ==> r == f
    ensures newState != f.state ==> r.log == f.log + [Change(f.state, newState)]
  {
    if f.state == newState then f
    else f.(state := newState, log := f.log + [Change(f.state, newState)])
  }

  /** Whether the cooldown has elapsed: the source's time.Since(openedAt) >= Timeout. */
  predicate CooldownElapsed(f: Fields, st: Settings, now: int)
  {
    now - f.openedAt >= st.timeout
  }

  /** The admission phase of Execute at time now. An Open breaker whose cooldown
      has elapsed first becomes HalfOpen (zeroing the half-open and success
      counters), and the same call is then decided under HalfOpen rules. */
  function Admit(f: Fields, st: Settings, now: int): (Admission, Fields)
  {
    var g :=
      if f.state == Open && CooldownElapsed(f, st, now)
      then SetState(f, HalfOpen).(halfOpenRequests := 0, successCount := 0)
      else f;
    match g.state
    case Open => (Rejected(CircuitOpen), g)
    case HalfOpen =>
      if g.halfOpenRequests >= st.maxRequests then (Rejected(HalfOpenFull), g)
      else (Admitted(HalfOpen), g.(halfOpenRequests := g.halfOpenRequests + 1))
    case Closed => (Admitted(Closed), g)
  }

  /** The recording phase of Execute at time now, for a call admitted in state
      captured whose wrapped function failed or succeeded. */
  function Record(f: Fields, st: Settings, captured: State, failed: bool, now: int): Fields
  {
    if failed then
      var g := f.(failureCount := f.failureCount + 1, successCount := 0);
      if captured == HalfOpen || g.failureCount >= st.failureThreshold
      then SetState(g, Open).(openedAt := now)
      else g
    else
      var g := f.(successCount := f.successCount + 1, failureCount := 0);
      if captured == HalfOpen then
        var h := g.(halfOpenRequests := 0);
        if h.successCount >= st.successThreshold then SetState(h, Closed) else h
      else g
  }

  /** Forces the breaker back to Closed with every counter and openedAt zeroed. */
  function Reset(f: Fields): Fields
  {
    SetState(f, Closed).(failureCount := 0, successCount := 0, halfOpenRequests := 0, openedAt := 0)
  }

  /** The whole of Execute: admission at admitNow; when admitted, the wrapped
      function's outcome is recorded at recordNow against the captured state and
      returned as it is. Other calls may run between the two phases; this
      function is the case where none does. */
  function Execute<V, E>(f: Fields, st: Settings, out: CallOutcome<V, E>, admitNow: int, recordNow: int)
    : (ExecResult<V, E>, Fields)
  {
    var (a, g) := Admit(f, st, admitNow);
    match a
    case Rejected(kind) => (Refused(kind), g)
    case Admitted(captured) => (Completed(out), Record(g, st, captured, out.err.Some?, recordNow))
  }

  /** The notification log is a chain of real changes that starts from Closed
      and ends in the current state. */
  ghost predicate LogChained(f: Fields)
  {
    (forall i :: 0 <= i < |f.log| ==> f.log[i].from != f.log[i].to) &&
    (forall i :: 0 < i < |f.log| ==> f.log[i - 1].to == f.log[i].from) &&
    (|f.log| > 0 ==> f.log[0].from == Closed && f.log[|f.log| - 1].to == f.state) &&
    (|f.log| == 0 ==> f.state == Closed)
  }

  /** The breaker's invariant: counters are non-negative, the half-open counter
      never exceeds maxRequests (it stays 0 when maxRequests is not positive),
      and the log is chained. */
  ghost predicate Inv(f: Fields, st: Settings)
  {
    f.failureCount >= 0 && f.successCount >= 0 && f.halfOpenRequests >= 0 &&
    (f.halfOpenRequests == 0 || f.halfOpenRequests <= st.maxRequests) &&
    LogChained(f)
  }
}
