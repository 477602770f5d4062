/** What the transition rules guarantee: the per-phase rules, the invariant every
    phase keeps, and what runs of many calls (sequential or interleaved) do. */
module Properties {
  import opened Wrappers
  import opened States
  import opened Model

  // ---------------------------------------------------------------------------
  // Construction and reset

  /** A fresh breaker satisfies the invariant whatever its settings. */
  lemma InitSatisfiesInv(st: Settings)
    ensures Inv(Init(), st)
  {
  }

  /** Reset always ends Closed with every counter and openedAt zeroed, notifying
      exactly when the breaker was not already Closed. */
  lemma ResetForcesClosed(f: Fields)
    ensures var r := Reset(f);
      r.state == Closed && r.failureCount == 0 && r.successCount == 0 &&
      r.halfOpenRequests == 0 && r.openedAt == 0 &&
      r.log == f.log + (if f.state != Closed then [Change(f.state, Closed)] else [])
  {
  }

  /** Resetting twice is the same as resetting once. */
  lemma ResetIdempotent(f: Fields)
    ensures Reset(Reset(f)) == Reset(f)
  {
  }

  lemma ResetPreservesInv(f: Fields, st: Settings)
    requires Inv(f, st)
    ensures Inv(Reset(f), st)
  {
  }

  // ---------------------------------------------------------------------------
  // Admission

  /** An Open breaker inside its cooldown rejects with CircuitOpen and changes
      nothing: no field and no log entry. */
  lemma AdmitOpenBeforeCooldown(f: Fields, st: Settings, now: int)
    requires f.state == Open && now - f.openedAt < st.timeout
    ensures Admit(f, st, now) == (Rejected(CircuitOpen), f)
  {
  }

  /** An Open breaker past its cooldown first moves to HalfOpen (one notification,
      half-open and success counters zeroed) and then decides the same call under
      HalfOpen rules: admitted as the first probe unless maxRequests leaves no room. */
  lemma AdmitOpenAfterCooldown(f: Fields, st: Settings, now: int)
    requires f.state == Open && now - f.openedAt >= st.timeout
    ensures var (a, g) := Admit(f, st, now);
      g.state == HalfOpen && g.log == f.log + [Change(Open, HalfOpen)] &&
      g.successCount == 0 && g.failureCount == f.failureCount && g.openedAt == f.openedAt &&
      (if st.maxRequests <= 0 then a == Rejected(HalfOpenFull) && g.halfOpenRequests == 0
       else a == Admitted(HalfOpen) && g.halfOpenRequests == 1)
  {
  }

  /** A Closed breaker admits every call and changes nothing. */
  lemma AdmitClosed(f: Fields, st: Settings, now: int)
    requires f.state == Closed
    ensures Admit(f, st, now) == (Admitted(Closed), f)
  {
  }

  /** A HalfOpen breaker rejects with HalfOpenFull, changing nothing, once the
      half-open counter has reached maxRequests; otherwise it admits and counts
      the probe, changing nothing else. */
  lemma AdmitHalfOpen(f: Fields, st: Settings, now: int)
    requires f.state == HalfOpen
    ensures var (a, g) := Admit(f, st, now);
      if f.halfOpenRequests >= st.maxRequests then a == Rejected(HalfOpenFull) && g == f
      else a == Admitted(HalfOpen) && g == f.(halfOpenRequests := f.halfOpenRequests + 1)
  {
  }

  /** The two rejection kinds, characterised in both directions from the state
      before admission; an admitted call captures the state it leaves behind. */
  lemma AdmitDecision(f: Fields, st: Settings, now: int)
    ensures var (a, g) := Admit(f, st, now);
      (a == Rejected(CircuitOpen) <==> f.state == Open && now - f.openedAt < st.timeout) &&
      (a == Rejected(HalfOpenFull) <==>
        (f.state == HalfOpen && f.halfOpenRequests >= st.maxRequests) ||
        (f.state == Open && now - f.openedAt >= st.timeout && st.maxRequests <= 0)) &&
      (a.Admitted? ==> a.captured == g.state && g.state != Open)
  {
  }

  lemma AdmitPreservesInv(f: Fields, st: Settings, now: int)
    requires Inv(f, st)
    ensures Inv(Admit(f, st, now).1, st)
  {
  }

  // ---------------------------------------------------------------------------
  // Recording an outcome

  /** A failure lengthens the failure streak and ends the success streak. It opens
      the circuit, stamping openedAt, exactly when the call was admitted HalfOpen or
      the streak reached failureThreshold; a breaker already Open has openedAt
      refreshed without a second notification. */
  lemma RecordFailure(f: Fields, st: Settings, captured: State, now: int)
    ensures var g := Record(f, st, captured, true, now);
      var opens := captured == HalfOpen || f.failureCount + 1 >= st.failureThreshold;
      g.failureCount == f.failureCount + 1 && g.successCount == 0 &&
      g.halfOpenRequests == f.halfOpenRequests &&
      g.state == (if opens then Open else f.state) &&
      g.openedAt == (if opens then now else f.openedAt) &&
      g.log == f.log + (if opens && f.state != Open then [Change(f.state, Open)] else [])
  {
  }

  /** A success lengthens the success streak and ends the failure streak. Only a
      call admitted HalfOpen frees the half-open counter, and it closes the circuit
      (notifying if the state changes) once the streak reaches successThreshold; a
      success admitted in Closed never changes the state. */
  lemma RecordSuccess(f: Fields, st: Settings, captured: State, now: int)
    ensures var g := Record(f, st, captured, false, now);
      var closes := captured == HalfOpen && f.successCount + 1 >= st.successThreshold;
      g.successCount == f.successCount + 1 && g.failureCount == 0 && g.openedAt == f.openedAt &&
      g.halfOpenRequests == (if captured == HalfOpen then 0 else f.halfOpenRequests) &&
      g.state == (if closes then Closed else f.state) &&
      g.log == f.log + (if closes && f.state != Closed then [Change(f.state, Closed)] else [])
  {
  }

  lemma RecordPreservesInv(f: Fields, st: Settings, captured: State, failed: bool, now: int)
    requires Inv(f, st)
    ensures Inv(Record(f, st, captured, failed, now), st)
  {
  }

  // ---------------------------------------------------------------------------
  // Execute: admission, the wrapped call, recording

  /** A rejected call returns the rejection and leaves the breaker as admission
      left it, without recording anything; an admitted call returns the wrapped
      function's outcome unchanged and records exactly its failure or success. */
  lemma ExecutePassesOutcomeThrough<V, E>(f: Fields, st: Settings, out: CallOutcome<V, E>,
                                          admitNow: int, recordNow: int)
    ensures var (r, g) := Execute(f, st, out, admitNow, recordNow);
      var (a, h) := Admit(f, st, admitNow);
      (r.Refused? <==> a.Rejected?) &&
      (r.Refused? ==> r.why == a.kind && g == h) &&
      (r.Completed? ==> r.outcome == out &&
                        g == Record(h, st, a.captured, out.err.Some?, recordNow))
  {
  }

  /** A failing probe reopens the circuit at once, whatever successThreshold and
      whatever success streak had accrued. */
  lemma ProbeFailureReopens<V, E>(f: Fields, st: Settings, out: CallOutcome<V, E>,
                                  admitNow: int, recordNow: int)
    requires f.state == HalfOpen && f.halfOpenRequests < st.maxRequests && out.err.Some?
    ensures var (r, g) := Execute(f, st, out, admitNow, recordNow);
      r == Completed(out) && g.state == Open && g.openedAt == recordNow &&
      g.failureCount == f.failureCount + 1 && g.successCount == 0 &&
      g.log == f.log + [Change(HalfOpen, Open)]
  {
  }

  // ---------------------------------------------------------------------------
  // Arbitrary interleavings of the locked regions

  /** One locked region of the source: an admission, the recording of an outcome
      admitted earlier in some state, or a reset. Between the admission and the
      recording of one call, any other events may take place. */
  datatype Event = AdmitCall(now: int) | RecordCall(captured: State, failed: bool, now: int) | ResetCall

  function Step(f: Fields, st: Settings, e: Event): Fields
  {
    match e
    case AdmitCall(now) => Admit(f, st, now).1
    case RecordCall(captured, failed, now) => Record(f, st, captured, failed, now)
    case ResetCall => Reset(f)
  }

  /** The breaker after the events es, in order. */
  function Run(f: Fields, st: Settings, es: seq<Event>): Fields
    decreases |es|
  {
    if |es| == 0 then f else Step(Run(f, st, es[..|es| - 1]), st, es[|es| - 1])
  }

  /** How many of the events es change the breaker's state. */
  function Changes(f: Fields, st: Settings, es: seq<Event>): nat
    decreases |es|
  {
    if |es| == 0 then 0
    else
      var before := Run(f, st, es[..|es| - 1]);
      Changes(f, st, es[..|es| - 1]) + (if Step(before, st, es[|es| - 1]).state != before.state then 1 else 0)
  }

  /** Each locked region notifies once, with the old and the new state, when it
      changes the state, and does not notify otherwise. */
  lemma StepNotifiesIffChanged(f: Fields, st: Settings, e: Event)
    ensures var g := Step(f, st, e);
      g.log == f.log + (if g.state != f.state then [Change(f.state, g.state)] else [])
  {
  }

  lemma StepPreservesInv(f: Fields, st: Settings, e: Event)
    requires Inv(f, st)
    ensures Inv(Step(f, st, e), st)
  {
  }

  /** The invariant holds after any interleaving of admissions, recordings and resets. */
  lemma {:induction false} RunPreservesInv(f: Fields, st: Settings, es: seq<Event>)
    requires Inv(f, st)
    ensures Inv(Run(f, st, es), st)
    decreases |es|
  {
    if |es| > 0 {
      RunPreservesInv(f, st, es[..|es| - 1]);
      StepPreservesInv(Run(f, st, es[..|es| - 1]), st, es[|es| - 1]);
    }
  }

  /** From construction, after any interleaving, the counters are non-negative
      and, when maxRequests is non-negative, the half-open counter is at most maxRequests. */
  lemma HalfOpenCounterBounded(st: Settings, es: seq<Event>)
    requires st.maxRequests >= 0
    ensures var g := Run(Init(), st, es);
      g.failureCount >= 0 && g.successCount >= 0 && 0 <= g.halfOpenRequests <= st.maxRequests
  {
    InitSatisfiesInv(st);
    RunPreservesInv(Init(), st, es);
  }

  /** The notifications fired during any interleaving are appended to the log,
      one per event that changes the state. */
  lemma {:induction false} RunNotifiesOncePerChange(f: Fields, st: Settings, es: seq<Event>)
    ensures var g := Run(f, st, es);
      |g.log| == |f.log| + Changes(f, st, es) && g.log[..|f.log|] == f.log
    decreases |es|
  {
    if |es| > 0 {
      var before := Run(f, st, es[..|es| - 1]);
      RunNotifiesOncePerChange(f, st, es[..|es| - 1]);
      StepNotifiesIffChanged(before, st, es[|es| - 1]);
      var g := Step(before, st, es[|es| - 1]);
      assert g.log[..|before.log|] == before.log;
      assert g.log[..|f.log|] == before.log[..|f.log|];
    }
  }

  // ---------------------------------------------------------------------------
  // Sequential calls without interleaving

  /** One call to Execute whose wrapped function fails or succeeds. */
  datatype Call = Call(failed: bool, admitNow: int, recordNow: int)

  /** The breaker after the calls cs, each run to completion before the next. */
  function Calls(f: Fields, st: Settings, cs: seq<Call>): Fields
    decreases |cs|
  {
    if |cs| == 0 then f
    else
      var c := cs[|cs| - 1];
      var out := CallOutcome((), if c.failed then Some(()) else None);
      Execute(Calls(f, st, cs[..|cs| - 1]), st, out, c.admitNow, c.recordNow).1
  }

  /** The failure streak that opens a Closed breaker: the least positive streak
      that passes the test failureCount >= failureThreshold. */
  function OpeningStreak(st: Settings): (n: int)
    ensures n >= 1 && n >= st.failureThreshold
    ensures n == 1 || n - 1 < st.failureThreshold
  {
    if st.failureThreshold < 1 then 1 else st.failureThreshold
  }

  /** Consecutive failing calls on a fresh breaker keep it Closed, silently, until
      the streak reaches the threshold; that call opens it, stamps openedAt with
      its recording time and fires the one notification. */
  lemma {:induction false} FailuresOpenAtThreshold(st: Settings, cs: seq<Call>)
    requires |cs| <= OpeningStreak(st)
    requires forall i :: 0 <= i < |cs| ==> cs[i].failed
    ensures var g := Calls(Init(), st, cs);
      var reached := |cs| == OpeningStreak(st);
      g.failureCount == |cs| && g.successCount == 0 && g.halfOpenRequests == 0 &&
      g.state == (if reached then Open else Closed) &&
      g.log == (if reached then [Change(Closed, Open)] else []) &&
      (reached ==> g.openedAt == cs[|cs| - 1].recordNow)
    decreases |cs|
  {
    if |cs| > 0 {
      var prefix := cs[..|cs| - 1];
      FailuresOpenAtThreshold(st, prefix);
      var before := Calls(Init(), st, prefix);
      var c := cs[|cs| - 1];
      AdmitClosed(before, st, c.admitNow);
      RecordFailure(before, st, Closed, c.recordNow);
    }
  }

  /** While the cooldown has not elapsed at any of their admission times, calls to
      an Open breaker are all rejected and leave it exactly as it was. */
  lemma {:induction false} OpenRejectsUntilCooldown(f: Fields, st: Settings, cs: seq<Call>)
    requires f.state == Open
    requires forall i :: 0 <= i < |cs| ==> cs[i].admitNow - f.openedAt < st.timeout
    ensures Calls(f, st, cs) == f
    decreases |cs|
  {
    if |cs| > 0 {
      OpenRejectsUntilCooldown(f, st, cs[..|cs| - 1]);
      AdmitOpenBeforeCooldown(f, st, cs[|cs| - 1].admitNow);
    }
  }

  /** Starting a half-open episode (no probe counted, no success yet), consecutive
      successful probes keep the breaker HalfOpen until the streak reaches
      successThreshold; that probe closes it with one notification. */
  lemma {:induction false} ProbeSuccessesClose(f: Fields, st: Settings, cs: seq<Call>)
    requires f.state == HalfOpen && f.halfOpenRequests == 0 && f.successCount == 0
    requires st.maxRequests >= 1 && st.successThreshold >= 1 && |cs| <= st.successThreshold
    requires forall i :: 0 <= i < |cs| ==> !cs[i].failed
    ensures var g := Calls(f, st, cs);
      var closed := |cs| == st.successThreshold;
      g.successCount == |cs| && g.halfOpenRequests == 0 && g.openedAt == f.openedAt &&
      g.state == (if closed then Closed else HalfOpen) &&
      g.log == f.log + (if closed then [Change(HalfOpen, Closed)] else [])
    decreases |cs|
  {
    if |cs| > 0 {
      var prefix := cs[..|cs| - 1];
      ProbeSuccessesClose(f, st, prefix);
      var before := Calls(f, st, prefix);
      var c := cs[|cs| - 1];
      AdmitHalfOpen(before, st, c.admitNow);
      RecordSuccess(before.(halfOpenRequests := 1), st, HalfOpen, c.recordNow);
    }
  }

  // ---------------------------------------------------------------------------
  // Consequences of the two-phase structure

  /** A half-open success frees every half-open slot at once: when the counter was
      full, the next call is admitted as a probe although the other probes counted
      before may still be running. */
  lemma ProbeSuccessFreesEverySlot(f: Fields, st: Settings, captured: State, recordNow: int, admitNow: int)
    requires f.state == HalfOpen && st.maxRequests >= 1 && f.halfOpenRequests == st.maxRequests
    requires f.successCount + 1 < st.successThreshold
    ensures Admit(f, st, admitNow).0 == Rejected(HalfOpenFull)
    ensures var g := Record(f, st, HalfOpen, false, recordNow);
      var (a, h) := Admit(g, st, admitNow);
      g.state == HalfOpen && a == Admitted(HalfOpen) && h.halfOpenRequests == 1
  {
  }

  /** Outcomes are recorded against the state captured at admission, so when two
      probes run together and the one that fails is recorded first, the success
      recorded after it moves the breaker from Open straight to Closed whenever
      successThreshold is at most 1. */
  lemma StaleProbeSuccessClosesFromOpen(f: Fields, st: Settings, t1: int, t2: int, t3: int, t4: int)
    requires f.state == HalfOpen && f.halfOpenRequests + 2 <= st.maxRequests && st.successThreshold <= 1
    ensures var (a1, f1) := Admit(f, st, t1);
      var (a2, f2) := Admit(f1, st, t2);
      var f3 := Record(f2, st, a2.captured, true, t3);
      var f4 := Record(f3, st, a1.captured, false, t4);
      a1 == Admitted(HalfOpen) && a2 == Admitted(HalfOpen) &&
      f3.state == Open && f4.state == Closed &&
      f4.log == f.log + [Change(HalfOpen, Open), Change(Open, Closed)]
  {
  }

  // ---------------------------------------------------------------------------
  // Worked scenarios: failureThreshold 3, successThreshold 2, timeout 5 s, one probe

  function ScenarioSettings(): Settings
  {
    Settings(failureThreshold := 3, successThreshold := 2, timeout := 5 * Second, maxRequests := 1)
  }

  /** Failing calls at seconds 0, 1 and 2, each recorded at once. */
  function ThreeFailures(): seq<Call>
  {
    [Call(true, 0, 0), Call(true, 1 * Second, 1 * Second), Call(true, 2 * Second, 2 * Second)]
  }

  function Failing(): CallOutcome<(), ()> { CallOutcome((), Some(())) }
  function Succeeding(): CallOutcome<(), ()> { CallOutcome((), None) }

  /** Three failures at seconds 0, 1 and 2 open the breaker; a call at second 3 is
      rejected; a probe at second 7 moves it to HalfOpen and, succeeding, leaves it
      there with a success streak of 1; a second successful probe closes it. */
  lemma ScenarioRecovery()
    ensures var st := ScenarioSettings();
      var f3 := Calls(Init(), st, ThreeFailures());
      var (r4, f4) := Execute(f3, st, Succeeding(), 3 * Second, 3 * Second);
      var (r5, f5) := Execute(f4, st, Succeeding(), 7 * Second, 7 * Second);
      var (r6, f6) := Execute(f5, st, Succeeding(), 8 * Second, 8 * Second);
      f3.state == Open && f3.openedAt == 2 * Second && f3.failureCount == 3 &&
      r4 == Refused(CircuitOpen) && f4 == f3 &&
      r5 == Completed(Succeeding()) && f5.state == HalfOpen && f5.successCount == 1 &&
      r6 == Completed(Succeeding()) && f6.state == Closed && f6.successCount == 2 &&
      f6.log == [Change(Closed, Open), Change(Open, HalfOpen), Change(HalfOpen, Closed)]
  {
    var st := ScenarioSettings();
    FailuresOpenAtThreshold(st, ThreeFailures());
  }

  /** In the same configuration, a probe that fails sends the breaker straight back
      to Open, with the failure counted and the success streak zero. */
  lemma ScenarioProbeFails()
    ensures var st := ScenarioSettings();
      var f3 := Calls(Init(), st, ThreeFailures());
      var (r5, f5) := Execute(f3, st, Failing(), 7 * Second, 7 * Second);
      r5 == Completed(Failing()) && f5.state == Open && f5.openedAt == 7 * Second &&
      f5.failureCount == 4 && f5.successCount == 0 &&
      f5.log == [Change(Closed, Open), Change(Open, HalfOpen), Change(HalfOpen, Open)]
  {
    var st := ScenarioSettings();
    FailuresOpenAtThreshold(st, ThreeFailures());
  }
}
