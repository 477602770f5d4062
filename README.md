# Circuit breaker, modelled in Dafny

This project models the circuit breaker of the Go package `circuitbreaker`. The breaker wraps calls to an unreliable operation. It counts consecutive failures and successes, and it moves between three states:

- **Closed:** every call runs.
- **Open:** calls are rejected until a timeout has elapsed.
- **HalfOpen:** a limited number of probe calls run to test whether the operation has recovered.

`Execute` works in three steps. It decides admission under the lock. It runs the wrapped function without the lock. It then records the outcome under the lock again, against the state it captured at admission.

The project has four modules:

- `States` (`states.dfy`): the State enumeration, its integer codes and `String`.
- `Model` (`model.dfy`): the breaker's rules as pure functions over a snapshot of its fields, `Fields`. The snapshot also holds the log of state-change notifications. Each locked region of `Execute` is its own function: `Admit` is the admission phase and `Record` is the recording phase. `Reset`, `SetState` and the composed `Execute` are functions too. `Inv` is the breaker's invariant.
- `Breaker` (`breaker.dfy`): the class `CircuitBreaker`. It has the source's mutable fields plus two ghost fields:
  - `log`: every `(from, to)` pair the `OnStateChange` callback has been handed.
  - `invocations`: how often the wrapped function has run.

  Each method's `ensures` says that the new state equals the `Model` function applied to the old state. Every method that changes the object, `SetState` included, requires and keeps `Valid()`.
- `Properties` (`properties.dfy`): the lemmas. They cover:
  - the rules of each phase;
  - the invariant, which holds over arbitrary interleavings of `Admit`, `Record` and `Reset`;
  - runs of consecutive calls;
  - two consequences of recording against the captured state;
  - two worked scenarios (thresholds 3 and 2, a 5 s timeout, one half-open request).

How the model stands in for the outside world:

- **Time:** an integer clock in nanoseconds, passed as `now`. `time.Since(openedAt) >= Timeout` becomes `now - openedAt >= timeout`. The zero `time.Time` becomes `openedAt == 0`.
- **User function:** `fn: () -> CallOutcome<V, E>`, whose error is an `Option`. As in the source, the call counts as a failure exactly when the error is present.
- **Concurrency:** other calls may happen between `Admit` and `Record`. The lemmas over `Run` cover that case: `Run` applies any sequence of admissions, recordings and resets.

Where the code does less than its own comments or the natural reading of its API suggest, the model follows the code:

- The comment on `MaxRequests` (circuitbreaker.go:58) calls it "the maximum number of requests allowed in half-open state". The code frees the whole counter on any half-open success (circuitbreaker.go:158), so only the counter is bounded (`HalfOpenCounterBounded`). `ProbeSuccessFreesEverySlot` shows that a new probe is admitted while the earlier ones may still be running.
- Closing is meant to happen from HalfOpen (circuitbreaker.go:52: successes "in half-open state before closing"). But an outcome is recorded against the state captured at admission. A reopening failure zeroes `successCount`, and each HalfOpen-captured success recorded after it adds one. So k such stale successes move the breaker from Open straight to Closed when `SuccessThreshold <= k`, provided `MaxRequests` let that many probes in beside the failing one. `StaleProbeSuccessClosesFromOpen` proves the case k = 1.
- The field comments (circuitbreaker.go:49, 52, 58) describe the thresholds and `MaxRequests` as counts of requests, but `New` does not check that they are positive. The model accepts every setting, and the lemmas that need a bound say so (`FailuresOpenAtThreshold` covers a non-positive `FailureThreshold` too: one failure then opens the breaker).

## Model

| member | source | states |
|---|---|---|
| `States.State.Code` | circuitbreaker.go:12-16 | each state's code is its position in the enumeration, between 0 and 2 |
| `States.FromCode` | circuitbreaker.go:10-16 | an integer denotes a state exactly when it is 0, 1 or 2, and then that state has this code |
| `States.CodeRoundTrip` | circuitbreaker.go:12-16 | decoding a state's code gives the state back |
| `States.StateName` | circuitbreaker.go:19-30 | a code is named "unknown" exactly when it denotes no state |
| `States.String` | circuitbreaker.go:19-30 | no state is named "unknown" |
| `States.StringInjective` | circuitbreaker.go:19-30 | two states have the same name only if they are the same state |
| `Model.DefaultSettings` | circuitbreaker.go:66-74 | the defaults (5 failures, 2 successes, 30 s, 1 probe) have positive thresholds and capacity and a non-negative timeout |
| `Model.SetState` | circuitbreaker.go:194-205 | the state becomes the target. Exactly one `(old, new)` notification is appended iff the state changes; otherwise nothing changes, and no counter ever changes |
| `Properties.InitSatisfiesInv` | circuitbreaker.go:100-105 | a new breaker (Closed, zero counters, empty log) satisfies the invariant for every setting |
| `Properties.ResetForcesClosed` | circuitbreaker.go:176-185 | reset ends Closed with all counters and openedAt zero, and notifies `(old, Closed)` iff the old state was not Closed |
| `Properties.ResetIdempotent` | circuitbreaker.go:176-185 | resetting twice equals resetting once |
| `Properties.ResetPreservesInv` | circuitbreaker.go:176-185 | reset keeps the invariant |
| `Properties.AdmitOpenBeforeCooldown` | circuitbreaker.go:117-128 | Open before the timeout rejects as "open", and no field and no log entry changes |
| `Properties.AdmitOpenAfterCooldown` | circuitbreaker.go:117-135 | Open after the timeout first moves to HalfOpen (one notification, half-open and success counters zero, failures and openedAt kept). It then admits the call as the first probe, unless `MaxRequests <= 0`, in which case it rejects as "half-open" |
| `Properties.AdmitClosed` | circuitbreaker.go:123-137 | Closed admits every call, captures Closed and changes nothing |
| `Properties.AdmitHalfOpen` | circuitbreaker.go:129-135 | HalfOpen rejects as "half-open", unchanged, when the counter has reached `MaxRequests`; otherwise it admits and increments only the counter |
| `Properties.AdmitDecision` | circuitbreaker.go:115-137 | both rejection kinds, each characterised as an iff over the prior state. An admitted call captures the state left behind, which is never Open |
| `Properties.AdmitPreservesInv` | circuitbreaker.go:115-137 | admission keeps the invariant |
| `Properties.RecordFailure` | circuitbreaker.go:146-153 | failures +1 and successes 0. The breaker opens, with openedAt := now, iff the captured state was HalfOpen or the failures reached the threshold. It notifies only if it was not already Open, and the half-open counter is untouched |
| `Properties.RecordSuccess` | circuitbreaker.go:154-163 | successes +1 and failures 0, openedAt kept. Only a HalfOpen-captured success zeroes the half-open counter, and it closes the breaker (notifying iff the state changes) iff successes reached the threshold. Otherwise the state and the log are unchanged |
| `Properties.RecordPreservesInv` | circuitbreaker.go:143-163 | recording any outcome against any captured state keeps the invariant |
| `Properties.ExecutePassesOutcomeThrough` | circuitbreaker.go:113-166 | Execute refuses iff admission rejects; then it returns that rejection and records nothing. Otherwise it returns fn's outcome unchanged and records its failure flag against the captured state |
| `Properties.ProbeFailureReopens` | circuitbreaker.go:146-153 | an admitted probe that fails reopens at once, whatever the success threshold, with one notification, failures +1 and successes 0 |
| `Properties.StepNotifiesIffChanged` | circuitbreaker.go:194-205 | each locked region appends exactly one `(old, new)` notification iff it changes the state |
| `Properties.StepPreservesInv` | circuitbreaker.go:113-185 | every locked region keeps the invariant |
| `Properties.RunPreservesInv` | circuitbreaker.go:113-185 | any interleaving of admissions, recordings and resets keeps the invariant |
| `Properties.HalfOpenCounterBounded` | circuitbreaker.go:129-135 | from a new breaker, after any interleaving, the counters are non-negative and, if `MaxRequests >= 0`, `0 <= halfOpenRequests <= MaxRequests` |
| `Properties.RunNotifiesOncePerChange` | circuitbreaker.go:194-205 | over any interleaving, the old log is kept as a prefix and it grows by exactly the number of events that change the state |
| `Properties.OpeningStreak` | circuitbreaker.go:150 | the least positive streak that passes the test `failureCount >= FailureThreshold`: at least 1 and at least the threshold, and either 1 or one more than a streak that fails the test |
| `Properties.FailuresOpenAtThreshold` | circuitbreaker.go:146-153 | on a new breaker, consecutive failing calls keep it Closed without notification until the threshold-th failure. That failure opens it with the single notification `(Closed, Open)` and openedAt set to its recording time |
| `Properties.OpenRejectsUntilCooldown` | circuitbreaker.go:117-128 | any number of calls to an Open breaker before the timeout leave it exactly as it was |
| `Properties.ProbeSuccessesClose` | circuitbreaker.go:154-163 | from a fresh half-open episode, fewer than `SuccessThreshold` successful probes leave it HalfOpen, and the threshold-th closes it with one notification |
| `Properties.ProbeSuccessFreesEverySlot` | circuitbreaker.go:129-158 | with the counter full a call is rejected, but after one half-open success (below the threshold) the next call is admitted and the counter reads 1 |
| `Properties.StaleProbeSuccessClosesFromOpen` | circuitbreaker.go:123-163 | two probes are admitted; the failure recorded first reopens, and the success recorded after it closes from Open when `SuccessThreshold <= 1` |
| `Properties.ScenarioRecovery` | circuitbreaker.go:113-166 | thresholds 3/2, timeout 5 s, one probe: three failures open the breaker; a call at 3 s is rejected with nothing changed; probes at 7 s and 8 s give HalfOpen with 1 success, then Closed with 2; three notifications in all |
| `Properties.ScenarioProbeFails` | circuitbreaker.go:113-166 | same settings: a failing probe at 7 s reopens with openedAt 7 s, 4 failures, 0 successes |
| `Breaker.CircuitBreaker.New` | circuitbreaker.go:100-105 | a new breaker is Closed with all counters zero, an empty log, the given settings and the invariant |
| `Breaker.CircuitBreaker.NewWithDefaults` | circuitbreaker.go:108-110 | the same, with the default settings |
| `Breaker.CircuitBreaker.SetState` | circuitbreaker.go:194-205 | the fields and log afterwards are `Model.SetState` of those before, and the invariant is kept |
| `Breaker.CircuitBreaker.Admit` | circuitbreaker.go:115-137 | it returns the decision `Model.Admit` makes, leaves the fields `Model.Admit` gives and keeps the invariant |
| `Breaker.CircuitBreaker.Record` | circuitbreaker.go:143-163 | the fields afterwards are `Model.Record` of those before, and the invariant is kept |
| `Breaker.CircuitBreaker.Execute` | circuitbreaker.go:113-166 | the result and fields match `Model.Execute` on fn's outcome. fn runs exactly once when admitted and never when refused, and a completed result is fn's outcome |
| `Breaker.CircuitBreaker.State` | circuitbreaker.go:169-173 | it returns the current state and changes nothing |
| `Breaker.CircuitBreaker.Counts` | circuitbreaker.go:188-192 | it returns the failure and success counts and changes nothing |
| `Breaker.CircuitBreaker.Reset` | circuitbreaker.go:176-185 | the fields and log afterwards are `Model.Reset` of those before, and the invariant is kept |

## Left out

- The `sync.RWMutex` (circuitbreaker.go:78 and every Lock/Unlock). Each locked region is one atomic method. The unlocked gap is modelled by `Run`, which allows any events between one call's `Admit` and its `Record`.
- Wall-clock time. `now` is a parameter, and `Execute` takes separate admission and recording times. Go's saturation of `time.Since` at the bounds of `int64` is not modelled.
- The 64-bit width of Go's `int` counters. They are unbounded here, and wrap-around after 2^63 increments is not modelled.
- The body of the `OnStateChange` callback, which is foreign code. The model records the `(from, to)` pairs it would receive in a ghost log. When the callback is nil, the source makes no call, but the log still records the change.
- The error message strings and `interface{}`. The two rejections are the enum `Rejection`, and the user result and error are a generic `CallOutcome`.
- `fn` is modelled as a total, pure function that always returns. In Go it runs unlocked (circuitbreaker.go:140) and may panic, hang or call back into the breaker. A panic leaves the call unrecorded, and in HalfOpen its slot, taken at circuitbreaker.go:134, stays counted. The class `Execute` always records. These cases are covered only by `Run`'s arbitrary event sequences, where an admission need not be followed by its recording and other events may come in between.
- The Go `CircuitBreaker` interface. The class stands for its only implementation.
- example/main.go: a demo driver (random failures, printing, sleeping) with no logic the breaker depends on. `Breaker.OpensAfterThreeFailures` is a small client in its place.
- A bound of `MaxRequests` on the probes actually in flight. The source does not keep one (see above), so only the counter bound is proved.
