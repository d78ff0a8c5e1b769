# retry: a verified model of the retry engine

`Retry(fn, args...)` calls a probe `fn() bool` until it answers `false`. A
loosely typed argument list sets the policy:

- The first argument is the bound. A `time.Duration` is a deadline measured from
  the start. A signed integer is an attempt count (its absolute value; 0 means
  no bound).
- The second argument is the delay. A `time.Duration` is a fixed delay. A
  `func(uint64) uint64` is a backoff function that maps the previous delay in
  seconds to the next.
- Without either, the delay is 1s.

Before each further call, the engine checks the bound and then sleeps.
`utils.go` provides the integer-kind test used on the first argument and two
backoff constructors. `ExponentialBackoff(m)` doubles and caps at `m`.
`RandInt(lower, upper)` draws from `[lower, upper)`.

The model has three modules:

- `Utils` (utils.dfy) models `utils.go`:
  - the reflect kinds and `isIntKind`;
  - Go's wrapping `uint64`/`int64` conversions;
  - the two backoff constructors, as functions that return Dafny functions.
- `Retry` (retry.dfy) models `retry.go`:
  - `Arg`, a datatype that stands for the argument list as reflection sees it;
  - the four errors, with their exact messages;
  - the specification functions `Parse`, `DelayStep`, `Run`/`Continue` and `RetryRun`;
  - the class `RetryManager`, whose fields are those of `retryManger`. Its
    methods `ParseParams`, `AddDelay` and `Execute` update the fields as the Go
    methods do and are proved equal to the specification functions;
  - the method `Retry`.
- `RetryProperties` (retry_properties.dfy) proves what the engine promises
  about the specification functions.

The environment is explicit:

- The probe is a script `seq<bool>`: call i answers `script[i]`. A run that
  would call the probe past the end of the script ends as `ScriptExhausted`.
  That outcome stands for "the real run goes on"; it is not a Go result.
- Time is an integer clock in nanoseconds, advanced only by sleeps.
  `time.Sleep(d)` with `d <= 0` returns at once, and probe calls take no time.
  The manager records the clock at every probe call (`callTimes`).
- The jitter is a parameter `jitter(n, d)`: the sleep that the delay step
  after the n-th probe call makes of delay d. Each step can answer
  differently, so every sequence of draws that `addJitter` could make is
  covered.

Where the code differs from its comments (retry.go:40) or from the tests and
comments in retry_test.go, the model follows the code:

- In deadline mode the deadline is checked before the delay, after the call
  that just answered `true` has returned. In the model, where calls take no
  time, the last call of a run that ends with the deadline error is always
  strictly after the deadline (`RetryDeadline`). The test at
  retry_test.go:107-109 expects the last call not to start after the
  deadline. In Go that can hold only when the last probe call starts at or
  before the deadline and returns after it.
- The random range of `RandInt` is half-open, `[lower, upper)`.
- The comment at retry.go:40 says a lone backoff function is accepted as the
  only argument. The code checks the first argument's kind before that branch,
  and a function's kind is `Func`, so the call is refused with the bound error
  (`RetryRejectsLoneBackoff`). The branch at retry.go:55-57 is dead; the model
  keeps it as an unreachable case.
- The comment at retry_test.go:231 lists the delays of `ExponentialBackoff(10)`
  as 1, 2, 4, 8, 10, ... The cursor is seeded to 1 and `f` is applied before
  the first sleep. So the delays are 2, 4, 8, 10, 10, ... seconds
  (`ExponentialCursor`, `RetryExponentialGaps`).

## Model

| member | source | states |
|---|---|---|
| Utils.ToUint64 | utils.go:48 | conversion to uint64 is the identity on [0, 2^64) and adds 2^64 to a negative int64 |
| Utils.ToInt64 | retry.go:84 | int64 arithmetic: in-range values are kept, values in [2^63, 2^64) wrap to negative |
| Utils.IsIntKind | utils.go:10-19 | true exactly for the kinds Int, Int8, Int16, Int32 and Int64; the unsigned and all other kinds are rejected |
| Utils.ExponentialBackoff | utils.go:45-53 | the returned function never answers more than uint64(maxBackOff); when 2x does not wrap it answers min(2x, uint64(maxBackOff)) |
| Utils.ExponentialBackoffCapped | utils.go:48-50 | for a non-negative cap m, every answer is at most m |
| Utils.ExponentialBackoffFixedPoint | utils.go:48-50 | the cap m is a fixed point of ExponentialBackoff(m) |
| Utils.ExponentialIterate | utils.go:46-52 | k applications starting at min(2^a, m) give min(2^(a+k), m) |
| Utils.ExponentialFromOne | utils.go:46-52 | iterating from 1, the k-th value is min(2^k, m) |
| Utils.ExponentialBackoffTen | utils.go:45-53 | iterating ExponentialBackoff(10) from 1 gives 1, 2, 4, 8, 10, and 10 from then on |
| Utils.RandomIntWithinRange | utils.go:31-33 | for lower < upper, the result lies in [lower, upper) when lower >= 0, and otherwise in that range shifted by 2^64 for the negative part |
| Utils.RandInt | utils.go:39-43 | the returned function ignores its input and, for 0 <= lower < upper, answers a value in [lower, upper) |
| Retry.RetryError.Message | retry.go:52-110 | no ensures of its own: the four strings equal the texts of the errors.New calls at retry.go:52, 66, 100 and 110 |
| Retry.Fresh | retry.go:122-124 | no ensures of its own: the manager Retry builds, every field zero except the start time and the clock; RetryRun and every end-to-end Retry lemma start from it, and the RetryManager constructor is proved to build it |
| Retry.KindOf | retry.go:45 | no ensures of its own: a Duration has kind Int64 and a backoff function kind Func, which ParseDurationBound and RetryRejectsLoneBackoff use |
| Retry.IntOf | retry.go:50 | no ensures of its own: the integer value of a signed-kind argument, stated through ParseSignedCount |
| Retry.Abs | retry.go:50 | the result is x or -x and at least both, so it is the absolute value |
| Retry.ResolveBound | retry.go:44-53 | no ensures of its own: the first-argument rule, stated by ParseDurationBound, ParseSignedCount and ParseRejectsBound |
| Retry.ResolveDelay | retry.go:60-68 | no ensures of its own: the second-argument rule, stated by ParseAccepted and ParseRejectsDelay |
| Retry.WithDefaultDelay | retry.go:70-72 | no ensures of its own: the 1s default, stated by ParseNoArgs and ParseAccepted |
| Retry.Parse | retry.go:43-74 | no ensures of its own: stated by ParseAccepted, ParseRejectsBound, ParseRejectsDelay and ParseIgnoresExtra, and matched by RetryManager.ParseParams |
| Retry.SleepFor | retry.go:91 | no ensures of its own: a sleep for a non-positive duration returns at once, as FixedDelayGaps and DelaySleepsConfiguredDelay use |
| Retry.SecondsToDuration | retry.go:84 | a number of seconds becomes exactly that many nanoseconds unless the product leaves the int64 range |
| Retry.Seeded | retry.go:78-80 | the cursor addDelay works from: 0 becomes exactly 1, and a cursor already set is kept |
| Retry.DelayStep | retry.go:76-92 | addDelay changes only the backoff cursor and the clock, and time never goes backwards |
| Retry.ProbeStep | retry.go:95 | no ensures of its own: a call is recorded at the current time and answered by the next script entry; matched by RetryManager.Probe |
| Retry.Run | retry.go:94-119 | no ensures of its own: stated by RunShape and the lemmas beside it, and matched by RetryManager.Execute |
| Retry.Continue | retry.go:96-116 | no ensures of its own: one loop pass, stated by ContinueUnfold |
| Retry.RetryRun | retry.go:121-130 | no ensures of its own: stated by the Retry lemmas of RetryProperties and matched by the method Retry |
| Retry.RetryManager.constructor | retry.go:122-124 | a new manager has every field zero except startedAt, which is the current time |
| Retry.RetryManager.ParseParams | retry.go:43-74 | the fields and error match Parse: a bound from args[0], a delay or backoff from args[1], the 1s default, and the two argument errors |
| Retry.RetryManager.AddDelay | retry.go:76-92 | the new cursor and clock are those of DelayStep: seed 0 to 1, next delay from f or the fixed delay, sleep for the jittered delay |
| Retry.RetryManager.Probe | retry.go:95 | one probe call is recorded at the current time and answered by the next script entry |
| Retry.RetryManager.Execute | retry.go:94-119 | the outcome and final fields are those of Run from the initial fields: first call, deadline check or attempt countdown, delay, call, until false |
| Retry.Retry | retry.go:121-130 | the result is RetryRun's: an argument error with no probe call, otherwise the outcome of execute together with the call times |
| RetryProperties.ContinueUnfold | retry.go:96-116 | a loop pass either returns the deadline error (deadline passed), the max-retry error (count reaches 0), or delays once and continues with a call |
| RetryProperties.RunShape | retry.go:94-119 | a run only appends calls; the first happens at once; every call but the last answered true; success exactly when the last call answered false; no delay follows the last call |
| RetryProperties.StopsAtFirstFalse | retry.go:94-118 | the first false answer ends the run: at most k+1 calls, and success exactly when call k+1 is reached |
| RetryProperties.ExtendScript | retry.go:94-119 | answers beyond the last call made do not change a run |
| RetryProperties.UnboundedNeverFails | retry.go:107-115 | with maxRetry 0 and no deadline, no error ever ends the run |
| RetryProperties.UnboundedCallsUntilFalse | retry.go:94-118 | unbounded: k true answers then false give exactly k+1 calls and no error |
| RetryProperties.MaxRetryCalls | retry.go:107-115 | maxRetry N >= 1 and always true: exactly N calls, then the max-retry error |
| RetryProperties.CountedRunBound | retry.go:107-115 | maxRetry N >= 1: at most N calls, never the deadline error, and the max-retry error only after exactly N calls |
| RetryProperties.DeadlineRun | retry.go:97-105 | deadline mode never touches maxRetry and never gives the max-retry error; the deadline error means the last call was after the deadline and every earlier one at or before it |
| RetryProperties.DeadlineTerminates | retry.go:97-105 | deadline mode, every jittered fixed-delay sleep at least g >= 1, always true: with enough answers the run ends with the deadline error |
| RetryProperties.DelaySleepsConfiguredDelay | retry.go:78-91 | with identity jitter, addDelay sleeps exactly the fixed delay and seeds the cursor, or sets the cursor to f(seeded cursor) and sleeps that many seconds |
| RetryProperties.FixedDelayGaps | retry.go:85-91 | fixed delay: call i + 1 follows call i by exactly the jittered delay of the step after call i |
| RetryProperties.BackoffGaps | retry.go:81-91 | backoff function: the gap after the j-th call of a run is that step's jittered duration of the j-th cursor that f produces from the seeded cursor |
| RetryProperties.ExponentialCursorFrom | retry.go:78-83 | with ExponentialBackoff(m), the cursors that addDelay produces from min(2^a, m) are min(2^(a+k), m) |
| RetryProperties.ExponentialCursor | retry.go:78-83 | from a fresh manager, the j-th backoff delay of ExponentialBackoff(m) is min(2^j, m) seconds, so for m >= 2 the first is 2 |
| RetryProperties.ParseNoArgs | retry.go:44-72 | no argument: no bound and the 1s default delay |
| RetryProperties.ParseDurationBound | retry.go:45-48 | a Duration first argument sets retryUntil and leaves maxRetry at 0, since the type-name check comes before the kind check |
| RetryProperties.ParseSignedCount | retry.go:49-50 | a signed integer first argument sets maxRetry to its absolute value and no deadline |
| RetryProperties.ParseNegativeCount | retry.go:50 | a count of -n parses exactly as n |
| RetryProperties.ParseRejectsBound | retry.go:51-53 | any other first argument (unsigned, func, string, ...) gives the bound-argument error and sets nothing |
| RetryProperties.ParseRejectsDelay | retry.go:60-67 | a second argument that is neither a Duration nor a backoff function gives the delay-argument error |
| RetryProperties.ParseAccepted | retry.go:43-74 | an accepted list has no error and at most one bound; the delay is the given Duration (1s if 0 or absent), or, with a backoff function, that very function and a delay of 0; the start time and cursor are untouched |
| RetryProperties.ParseIgnoresExtra | retry.go:60-68 | arguments after the second change nothing |
| RetryProperties.RetryRejectsBound | retry.go:51-128 | a bad first argument: the bound error and no probe call |
| RetryProperties.RetryRejectsLoneBackoff | retry.go:49-57 | a backoff function as the only argument is refused with the bound error and the probe is never called |
| RetryProperties.RetryRejectsDelay | retry.go:65-128 | a bad second argument: the delay error and no probe call |
| RetryProperties.RetryMaxAttempts | retry.go:107-130 | a count n != 0 and an always-true probe: exactly abs(n) calls, then the max-retry error |
| RetryProperties.RetryNegativeCount | retry.go:50-130 | Retry with count -n behaves exactly as with n |
| RetryProperties.RetryUnboundedUntilFalse | retry.go:94-130 | no bound (no argument, count 0, or a deadline <= 0): k trues then false give exactly k+1 calls and no error |
| RetryProperties.RetryFixedDelayGap | retry.go:62-91 | a Duration delay d: each gap is that step's jittered d (of 1s when d is 0); with identity jitter and d > 0 exactly d |
| RetryProperties.RetryDefaultDelayGap | retry.go:70-91 | no second argument: each gap is that step's jittered 1s; with identity jitter exactly 1s |
| RetryProperties.RetryBackoffGaps | retry.go:81-91 | a backoff function whose answers do not overflow a Duration: the j-th gap is that step's jitter applied to f's j-th cursor in seconds |
| RetryProperties.CursorBounded | retry.go:84 | a cursor below 9e9 seconds converts to a Duration without wrapping |
| RetryProperties.RetryExponentialGaps | retry.go:78-84 | ExponentialBackoff(m) with 0 < m <= 9e9: the j-th gap is that step's jittered min(2^j, m) seconds; with identity jitter and m = 10 the gaps are 2s, 4s, 8s, 10s, 10s, ... |
| RetryProperties.RetryDeadline | retry.go:97-130 | a positive deadline D: never the max-retry error; a deadline error means the last call was strictly after start + D, every earlier one at or before it, and with a fixed delay at most one jittered delay (of the last step) after it |
| RetryProperties.RetryDeadlineTerminates | retry.go:97-130 | a positive deadline, a fixed delay whose every jittered sleep lasts at least g >= 1 and an always-true probe: with enough answers Retry returns the deadline error |

## Left out

- A typed nil `func(uint64) uint64` as second argument is not modelled: `BackoffArg` always holds a function. Go accepts such a value at retry.go:63-64, leaves delayerFn nil, and so applies the 1s default at retry.go:70-71.
- `fmt.Println` debug output (retry.go:88, 90; utils.go:11) has no effect on the logic and is not modelled.
- `time.Now` and `time.Sleep` are replaced by the integer clock. Calls take no time. `time.Time.Add` overflow is not modelled.
- `reflect`: type inspection is replaced by the `Arg` datatype. `KindOf` gives a Duration the kind Int64 and a function the kind Func. Panics on a `nil` argument are not modelled.
- `addJitter` and `randomFloatWithinRange` (float64 arithmetic and `rand`) are replaced by the jitter parameter, which may answer differently at every step. The 10% to 30% range of the added jitter is not assumed; the lemmas hold for any jitter.
- `Parcentage` (float32 arithmetic and truncation) is not modelled.
- `randomer` and the seeding of `rand` are not modelled.
- Utils.RandInt: the draw of `Intn` is a parameter fixed when the function is built. So the model gives one value for every call, where the Go closure draws afresh on each call. Only the range of each draw is stated.
- Utils.RandomIntWithinRange: for a negative lower bound only the wrapped range is stated, because uint64 conversion of a negative int wraps.
- Retry.Abs: `math.Abs(float64(n))` loses precision above 2^53 and overflows for MinInt64. The model uses the exact absolute value.
- RetryProperties.RetryBackoffGaps: stated only for backoff functions that never answer more than 9e9 seconds, and RetryProperties.RetryExponentialGaps only for caps m <= 9e9. Above that, `time.Duration(n) * time.Second` wraps, and the wrapped value is stated by BackoffGaps instead.
- `example/main.go` is a demo program that only prints. It is not part of this model.
- The `Err…` sentinel errors and `RandomBackoff` used by the tests and examples are not defined in retry.go or utils.go. The four errors are modelled as datatype variants with their messages.
- The call-recorder test harness of retry_test.go is not modelled.
- A run that needs more probe answers than the script provides ends as `ScriptExhausted` instead of going on forever. Every property is stated for any script, so this bounds the model of the unbounded mode.
