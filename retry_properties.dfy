/** What the retry engine promises: how arguments resolve into a policy, how
    many times the probe is called, which error ends a run, and how far apart
    the calls are. */
module RetryProperties {
  import opened Utils
  import opened Retry

  // ---------------------------------------------------------------------------
  // Unfolding one pass of the loop

  /** The state a pass of the loop hands to the next delay and probe call. */
  function Pass(s: Session, jitter: Jitter): Session
  {
    DelayStep(if s.retryUntil <= 0 && s.maxRetry > 0 then s.(maxRetry := s.maxRetry - 1) else s, jitter)
  }

  /** Whether a pass of the loop ends the run instead of delaying. */
  predicate Halts(s: Session)
  {
    if s.retryUntil > 0 then s.now > s.startedAt + s.retryUntil else s.maxRetry == 1
  }

  lemma ContinueUnfold(s: Session, script: seq<bool>, jitter: Jitter)
    requires |s.callTimes| <= |script|
    ensures Halts(s) && s.retryUntil > 0 ==> Continue(s, script, jitter) == (Finished(Some(DeadlineExceeded)), s)
    ensures Halts(s) && s.retryUntil <= 0 ==> Continue(s, script, jitter) == (Finished(Some(MaxRetryExceeded)), s.(maxRetry := 0))
    ensures !Halts(s) ==> Continue(s, script, jitter) == Run(Pass(s, jitter), script, jitter)
  {
  }

  /** The call record at the end of a run from s. */
  function Calls(s: Session, script: seq<bool>, jitter: Jitter): seq<int>
  {
    Run(s, script, jitter).1.callTimes
  }

  /** The probe call times Retry records. */
  function RetryCalls(script: seq<bool>, jitter: Jitter, clock: int, args: seq<Arg>): seq<int>
  {
    RetryRun(script, jitter, clock, args).1
  }

  function Last(xs: seq<int>): int
    requires |xs| > 0
  {
    xs[|xs| - 1]
  }

  // ---------------------------------------------------------------------------
  // The shape of every run

  /** Every run only appends to the call record; every call but the last
      answered true; the run succeeds exactly when the last call answered false;
      a finished run stops at the instant of its last call (no delay follows),
      and the first call of the run happens at once. */
  lemma {:induction false} RunShape(s: Session, script: seq<bool>, jitter: Jitter)
    ensures var (o, t) := Run(s, script, jitter);
      && |s.callTimes| <= |t.callTimes|
      && t.callTimes[..|s.callTimes|] == s.callTimes
      && (|t.callTimes| > |s.callTimes| ==> |t.callTimes| <= |script| && t.callTimes[|s.callTimes|] == s.now)
      && (forall i | |s.callTimes| <= i < |t.callTimes| - 1 :: script[i])
      && (o == Finished(None) <==> |t.callTimes| > |s.callTimes| && !script[|t.callTimes| - 1])
      && (o.ScriptExhausted? ==> |t.callTimes| >= |script|)
      && (o.Finished? ==> |t.callTimes| > |s.callTimes| && t.now == Last(t.callTimes))
    decreases |script| - |s.callTimes|
  {
    if |s.callTimes| < |script| {
      var (s1, retry) := ProbeStep(s, script);
      if retry {
        ContinueUnfold(s1, script, jitter);
        if !Halts(s1) {
          var s2 := Pass(s1, jitter);
          RunShape(s2, script, jitter);
          var t := Run(s2, script, jitter).1;
          assert t.callTimes[..|s.callTimes|] == t.callTimes[..|s2.callTimes|][..|s.callTimes|];
        }
      }
    }
  }

  /** The first false answer ends the run: no more than k + 1 calls, and the run
      succeeds exactly when it reaches call k + 1. */
  lemma StopsAtFirstFalse(s: Session, script: seq<bool>, jitter: Jitter, k: nat)
    requires |s.callTimes| <= k < |script|
    requires forall i | |s.callTimes| <= i < k :: script[i]
    requires !script[k]
    ensures var (o, t) := Run(s, script, jitter);
      && o.Finished?
      && |t.callTimes| <= k + 1
      && (o.err.None? <==> |t.callTimes| == k + 1)
  {
    RunShape(s, script, jitter);
  }

  /** A script answered the same up to the end of a run gives the same run:
      a longer script only matters once the shorter one is exhausted. */
  lemma {:induction false} ExtendScript(s: Session, script: seq<bool>, more: seq<bool>, jitter: Jitter)
    requires !Run(s, script, jitter).0.ScriptExhausted?
    ensures Run(s, script + more, jitter) == Run(s, script, jitter)
    decreases |script| - |s.callTimes|
  {
    assert |s.callTimes| < |script|;
    assert (script + more)[|s.callTimes|] == script[|s.callTimes|];
    var (s1, retry) := ProbeStep(s, script);
    if retry {
      ContinueUnfold(s1, script, jitter);
      ContinueUnfold(s1, script + more, jitter);
      if !Halts(s1) {
        ExtendScript(Pass(s1, jitter), script, more, jitter);
      }
    }
  }

  // ---------------------------------------------------------------------------
  // Attempt bounds

  /** maxRetry = 0 and no positive deadline: no error can end the run. */
  lemma {:induction false} UnboundedNeverFails(s: Session, script: seq<bool>, jitter: Jitter)
    requires s.maxRetry == 0 && s.retryUntil <= 0
    ensures Run(s, script, jitter).0 in {Finished(None), ScriptExhausted}
    decreases |script| - |s.callTimes|
  {
    if |s.callTimes| < |script| {
      var (s1, retry) := ProbeStep(s, script);
      if retry {
        ContinueUnfold(s1, script, jitter);
        UnboundedNeverFails(Pass(s1, jitter), script, jitter);
      }
    }
  }

  /** Unbounded: k true answers and then false give exactly k + 1 calls and success. */
  lemma UnboundedCallsUntilFalse(s: Session, script: seq<bool>, jitter: Jitter, k: nat)
    requires s.maxRetry == 0 && s.retryUntil <= 0
    requires |s.callTimes| <= k < |script|
    requires forall i | |s.callTimes| <= i < k :: script[i]
    requires !script[k]
    ensures Run(s, script, jitter).0 == Finished(None)
    ensures |Run(s, script, jitter).1.callTimes| == k + 1
  {
    UnboundedNeverFails(s, script, jitter);
    StopsAtFirstFalse(s, script, jitter, k);
  }

  /** An attempt bound N >= 1 with always-true answers: exactly N calls, then
      the max-retry error. */
  lemma {:induction false} MaxRetryCalls(s: Session, script: seq<bool>, jitter: Jitter)
    requires s.retryUntil <= 0 && s.maxRetry >= 1
    requires |s.callTimes| + s.maxRetry <= |script|
    requires forall i | |s.callTimes| <= i < |script| :: script[i]
    ensures Run(s, script, jitter).0 == Finished(Some(MaxRetryExceeded))
    ensures |Run(s, script, jitter).1.callTimes| == |s.callTimes| + s.maxRetry
    decreases s.maxRetry
  {
    var (s1, retry) := ProbeStep(s, script);
    ContinueUnfold(s1, script, jitter);
    if !Halts(s1) {
      MaxRetryCalls(Pass(s1, jitter), script, jitter);
    }
  }

  /** An attempt bound N >= 1: never more than N calls, never the deadline
      error, and the max-retry error only after exactly N calls. */
  lemma {:induction false} CountedRunBound(s: Session, script: seq<bool>, jitter: Jitter)
    requires s.retryUntil <= 0 && s.maxRetry >= 1
    ensures var (o, t) := Run(s, script, jitter);
      && |t.callTimes| - |s.callTimes| <= s.maxRetry
      && o != Finished(Some(DeadlineExceeded))
      && (o == Finished(Some(MaxRetryExceeded)) ==> |t.callTimes| - |s.callTimes| == s.maxRetry)
    decreases s.maxRetry
  {
    if |s.callTimes| < |script| {
      var (s1, retry) := ProbeStep(s, script);
      if retry {
        ContinueUnfold(s1, script, jitter);
        if !Halts(s1) {
          CountedRunBound(Pass(s1, jitter), script, jitter);
        }
      }
    }
  }

  // ---------------------------------------------------------------------------
  // Deadlines

  /** A positive retryUntil: the attempt count is never consulted, and the
      deadline error comes from the check made at the instant of the last call,
      which is strictly after startedAt + retryUntil while every earlier call of
      the run was at or before it. */
  lemma {:induction false} DeadlineRun(s: Session, script: seq<bool>, jitter: Jitter)
    requires s.retryUntil > 0
    ensures var (o, t) := Run(s, script, jitter);
      && o != Finished(Some(MaxRetryExceeded))
      && t.maxRetry == s.maxRetry
      && (o == Finished(Some(DeadlineExceeded)) ==>
            && |t.callTimes| > |s.callTimes|
            && Last(t.callTimes) > s.startedAt + s.retryUntil
            && forall i | |s.callTimes| <= i < |Calls(s, script, jitter)| - 1 ::
                 Calls(s, script, jitter)[i] <= s.startedAt + s.retryUntil)
    decreases |script| - |s.callTimes|
  {
    if |s.callTimes| < |script| {
      var (s1, retry) := ProbeStep(s, script);
      if retry {
        ContinueUnfold(s1, script, jitter);
        if !Halts(s1) {
          var s2 := Pass(s1, jitter);
          DeadlineRun(s2, script, jitter);
          RunShape(s2, script, jitter);
          var t := Calls(s2, script, jitter);
          assert Calls(s, script, jitter) == t;
          assert t[|s.callTimes|] == t[..|s2.callTimes|][|s.callTimes|];
        }
      }
    }
  }

  /** A positive retryUntil, a fixed delay whose every jittered sleep lasts at
      least g >= 1, and always-true answers: if the script allows more than
      (deadline - now) / g calls after the first, the run ends with the
      deadline error. */
  lemma {:induction false} DeadlineTerminates(s: Session, script: seq<bool>, jitter: Jitter, g: nat)
    requires s.retryUntil > 0 && s.delayerFn.None?
    requires g >= 1 && forall n: nat :: SleepFor(jitter(n, s.delay)) >= g
    requires |s.callTimes| < |script|
    requires (|script| - |s.callTimes| - 1) * g > s.startedAt + s.retryUntil - s.now
    requires forall i | |s.callTimes| <= i < |script| :: script[i]
    ensures Run(s, script, jitter).0 == Finished(Some(DeadlineExceeded))
    decreases |script| - |s.callTimes|
  {
    var (s1, retry) := ProbeStep(s, script);
    ContinueUnfold(s1, script, jitter);
    if !Halts(s1) {
      var r := |script| - |s.callTimes|;
      var s2 := Pass(s1, jitter);
      assert s2.now >= s.now + g by {
        assert s2.now == s.now + SleepFor(jitter(|s1.callTimes|, s.delay));
      }
      assert (r - 2) * g == (r - 1) * g - g;
      DeadlineTerminates(s2, script, jitter, g);
    }
  }

  // ---------------------------------------------------------------------------
  // Delays between calls

  /** The cursor after j delay steps of backoff function f, starting from c. */
  function Cursor(f: BackOffFn, c: uint64, j: nat): uint64
    decreases j
  {
    if j == 0 then c else Cursor(f, f(Seeded(c)), j - 1)
  }

  /** addDelay with identity jitter sleeps exactly for the configured delay: the
      fixed delay, or f(cursor) seconds, which also becomes the cursor. */
  lemma DelaySleepsConfiguredDelay(s: Session, jitter: Jitter)
    requires forall n, d :: jitter(n, d) == d
    ensures var r := DelayStep(s, jitter);
      && (s.delayerFn.None? ==> r.lastBackOff == Seeded(s.lastBackOff) && r.now == s.now + SleepFor(s.delay))
      && (s.delayerFn.Some? ==>
            var n := s.delayerFn.value(Seeded(s.lastBackOff));
            && r.lastBackOff == n
            && (n * SECOND < TWO_TO_63 ==> r.now == s.now + n * SECOND))
  {
  }

  /** Fixed delay: call i + 1 of a run follows call i by the jittered delay of
      the step after call i (no time passes when that is not positive). */
  lemma {:induction false} FixedDelayGaps(s: Session, script: seq<bool>, jitter: Jitter)
    requires s.delayerFn.None?
    ensures forall i | |s.callTimes| <= i < |Calls(s, script, jitter)| - 1 ::
      Calls(s, script, jitter)[i + 1] == Calls(s, script, jitter)[i] + SleepFor(jitter(i + 1, s.delay))
    decreases |script| - |s.callTimes|
  {
    if |s.callTimes| < |script| {
      var (s1, retry) := ProbeStep(s, script);
      if retry {
        ContinueUnfold(s1, script, jitter);
        if !Halts(s1) {
          var s2 := Pass(s1, jitter);
          FixedDelayGaps(s2, script, jitter);
          RunShape(s2, script, jitter);
          var t := Calls(s2, script, jitter);
          assert Calls(s, script, jitter) == t;
          assert t[|s.callTimes|] == t[..|s2.callTimes|][|s.callTimes|];
        }
      }
    }
  }

  /** Backoff function f: the gap after call i of a run is the jittered
      duration of the cursor f produces at that delay step, counting from
      lastBackOff (the first step of the run is step 1). */
  lemma {:induction false} BackoffGaps(s: Session, script: seq<bool>, jitter: Jitter)
    requires s.delayerFn.Some?
    ensures forall i | |s.callTimes| <= i < |Calls(s, script, jitter)| - 1 ::
      Calls(s, script, jitter)[i + 1] ==
        Calls(s, script, jitter)[i] + SleepFor(jitter(i + 1, SecondsToDuration(Cursor(s.delayerFn.value, s.lastBackOff, i - |s.callTimes| + 1))))
    decreases |script| - |s.callTimes|
  {
    if |s.callTimes| < |script| {
      var (s1, retry) := ProbeStep(s, script);
      if retry {
        ContinueUnfold(s1, script, jitter);
        if !Halts(s1) {
          var f := s.delayerFn.value;
          var c := s.lastBackOff;
          var s2 := Pass(s1, jitter);
          assert s2.lastBackOff == f(Seeded(c)) == Cursor(f, c, 1);
          BackoffGaps(s2, script, jitter);
          RunShape(s2, script, jitter);
          var t := Calls(s2, script, jitter);
          assert Calls(s, script, jitter) == t;
          var k := |s.callTimes|;
          assert t[k] == t[..|s2.callTimes|][k];
          forall i | k <= i < |t| - 1
            ensures t[i + 1] == t[i] + SleepFor(jitter(i + 1, SecondsToDuration(Cursor(f, c, i - k + 1))))
          {
            if i > k {
              assert Cursor(f, c, i - k + 1) == Cursor(f, s2.lastBackOff, i - |s2.callTimes| + 1);
            }
          }
        }
      }
    }
  }

  /** ExponentialBackoff(m) cursors from min(2^a, m): min(2^(a+k), m). */
  lemma {:induction false} ExponentialCursorFrom(m: int64, a: nat, k: nat)
    requires 0 < m
    ensures Cursor(ExponentialBackoff(m), Min(Pow2(a), m), k) == Min(Pow2(a + k), m)
    decreases k
  {
    if k > 0 {
      var f := ExponentialBackoff(m);
      assert f(Seeded(Min(Pow2(a), m))) == Min(Pow2(a + 1), m);
      ExponentialCursorFrom(m, a + 1, k - 1);
    }
  }

  /** A fresh cursor under ExponentialBackoff(m): the j-th delay (j >= 1) is
      min(2^j, m) seconds, so for m >= 2 the first is 2, not 1. */
  lemma ExponentialCursor(m: int64, j: nat)
    requires 0 < m && j >= 1
    ensures Cursor(ExponentialBackoff(m), 0, j) == Min(Pow2(j), m)
  {
    assert ExponentialBackoff(m)(Seeded(0)) == Min(Pow2(1), m);
    ExponentialCursorFrom(m, 1, j - 1);
  }

  // ---------------------------------------------------------------------------
  // Argument resolution

  /** Whether an argument is accepted as the first one. */
  predicate BoundArg(a: Arg)
  {
    a.DurationArg? || IsIntKind(KindOf(a))
  }

  /** Whether the argument list has an acceptable second argument, or none. */
  predicate DelayArgOk(args: seq<Arg>)
  {
    |args| < 2 || args[1].DurationArg? || args[1].BackoffArg?
  }

  /** No extra argument: no bound and the default 1s delay. */
  lemma ParseNoArgs(clock: int)
    ensures Parse(Fresh(clock), []) == (Fresh(clock).(delay := SECOND), None)
  {
  }

  /** A Duration first argument is a deadline and never an attempt count. */
  lemma ParseDurationBound(clock: int, args: seq<Arg>)
    requires |args| > 0 && args[0].DurationArg?
    ensures Parse(Fresh(clock), args).0.retryUntil == args[0].ns
    ensures Parse(Fresh(clock), args).0.maxRetry == 0
  {
  }

  /** A signed integer first argument is an attempt count, its absolute value. */
  lemma ParseSignedCount(clock: int, args: seq<Arg>)
    requires |args| > 0 && args[0].ValueArg? && IsIntKind(args[0].kind)
    ensures Parse(Fresh(clock), args).0.maxRetry == Abs(args[0].n)
    ensures Parse(Fresh(clock), args).0.retryUntil == 0
  {
  }

  /** -n is read exactly as n. */
  lemma ParseNegativeCount(s: Session, k: Kind, n: int64, rest: seq<Arg>)
    requires IsIntKind(k) && -TWO_TO_63 < n
    ensures Parse(s, [ValueArg(k, -n)] + rest) == Parse(s, [ValueArg(k, n)] + rest)
  {
  }

  /** Any other first argument (an unsigned integer, a func, a string, ...) is
      refused with the bound error, and nothing is set. */
  lemma ParseRejectsBound(s: Session, args: seq<Arg>)
    requires |args| > 0 && !BoundArg(args[0])
    ensures Parse(s, args) == (s, Some(InvalidBoundArgument))
  {
  }

  /** A second argument that is neither a Duration nor a func(uint64) uint64 is
      refused with the delay error. */
  lemma ParseRejectsDelay(s: Session, args: seq<Arg>)
    requires |args| > 1 && BoundArg(args[0]) && !DelayArgOk(args)
    ensures Parse(s, args).1 == Some(InvalidDelayArgument)
  {
  }

  /** An accepted policy has at most one bound. Its delay is the Duration given
      (1s when that is 0 or absent) unless a backoff function was given, in
      which case the delay is left at 0. */
  lemma ParseAccepted(clock: int, args: seq<Arg>)
    requires |args| == 0 || (BoundArg(args[0]) && DelayArgOk(args))
    ensures var (s, err) := Parse(Fresh(clock), args);
      && err == None
      && (s.maxRetry == 0 || s.retryUntil == 0)
      && (|args| < 2 ==> s.delayerFn.None? && s.delay == SECOND)
      && (|args| >= 2 && args[1].DurationArg? ==>
            s.delayerFn.None? && s.delay == (if args[1].ns == 0 then SECOND else args[1].ns))
      && (|args| >= 2 && args[1].BackoffArg? ==> s.delayerFn == Some(args[1].f) && s.delay == 0)
      && s.startedAt == s.now == clock && s.lastBackOff == 0 && s.callTimes == []
  {
  }

  /** Arguments after the second are ignored. */
  lemma ParseIgnoresExtra(s: Session, args: seq<Arg>)
    requires |args| > 2
    ensures Parse(s, args) == Parse(s, args[..2])
  {
  }

  // ---------------------------------------------------------------------------
  // Retry, end to end

  /** A rejected first argument: the bound error, and the probe is never called. */
  lemma RetryRejectsBound(script: seq<bool>, jitter: Jitter, clock: int, args: seq<Arg>)
    requires |args| > 0 && !BoundArg(args[0])
    ensures RetryRun(script, jitter, clock, args) == (Finished(Some(InvalidBoundArgument)), [])
  {
    ParseRejectsBound(Fresh(clock), args);
  }

  /** A lone backoff function is not accepted as the only argument: its kind is
      Func, so the first-argument check refuses it. */
  lemma RetryRejectsLoneBackoff(script: seq<bool>, jitter: Jitter, clock: int, f: BackOffFn)
    ensures RetryRun(script, jitter, clock, [BackoffArg(f)]) == (Finished(Some(InvalidBoundArgument)), [])
  {
    RetryRejectsBound(script, jitter, clock, [BackoffArg(f)]);
  }

  /** A rejected second argument: the delay error, and the probe is never called. */
  lemma RetryRejectsDelay(script: seq<bool>, jitter: Jitter, clock: int, args: seq<Arg>)
    requires |args| > 1 && BoundArg(args[0]) && !DelayArgOk(args)
    ensures RetryRun(script, jitter, clock, args) == (Finished(Some(InvalidDelayArgument)), [])
  {
    ParseRejectsDelay(Fresh(clock), args);
  }

  /** An attempt count n != 0 and a probe that always answers true: exactly |n|
      calls, then the max-retry error. */
  lemma RetryMaxAttempts(script: seq<bool>, jitter: Jitter, clock: int, args: seq<Arg>)
    requires |args| > 0 && args[0].ValueArg? && IsIntKind(args[0].kind) && args[0].n != 0 && DelayArgOk(args)
    requires Abs(args[0].n) <= |script|
    requires forall i | 0 <= i < |script| :: script[i]
    ensures RetryRun(script, jitter, clock, args).0 == Finished(Some(MaxRetryExceeded))
    ensures |RetryRun(script, jitter, clock, args).1| == Abs(args[0].n)
  {
    ParseAccepted(clock, args);
    MaxRetryCalls(Parse(Fresh(clock), args).0, script, jitter);
  }

  /** An attempt count of -n behaves exactly as n. */
  lemma RetryNegativeCount(script: seq<bool>, jitter: Jitter, clock: int, k: Kind, n: int64, rest: seq<Arg>)
    requires IsIntKind(k) && -TWO_TO_63 < n
    ensures RetryRun(script, jitter, clock, [ValueArg(k, -n)] + rest) == RetryRun(script, jitter, clock, [ValueArg(k, n)] + rest)
  {
    ParseNegativeCount(Fresh(clock), k, n, rest);
  }

  /** No bound (no argument, a count of 0, or a deadline that is not positive):
      k true answers and then false give exactly k + 1 calls and no error. */
  lemma RetryUnboundedUntilFalse(script: seq<bool>, jitter: Jitter, clock: int, args: seq<Arg>, k: nat)
    requires |args| == 0 || (DelayArgOk(args) &&
      ((args[0].DurationArg? && args[0].ns <= 0) || (args[0].ValueArg? && IsIntKind(args[0].kind) && args[0].n == 0)))
    requires k < |script|
    requires forall i | 0 <= i < k :: script[i]
    requires !script[k]
    ensures RetryRun(script, jitter, clock, args).0 == Finished(None)
    ensures |RetryRun(script, jitter, clock, args).1| == k + 1
  {
    ParseAccepted(clock, args);
    UnboundedCallsUntilFalse(Parse(Fresh(clock), args).0, script, jitter, k);
  }

  /** A fixed delay d as second argument: call i + 1 follows call i by the
      jittered d of that step (of 1s when d is 0); with identity jitter and
      d > 0, exactly d. */
  lemma RetryFixedDelayGap(script: seq<bool>, jitter: Jitter, clock: int, args: seq<Arg>)
    requires |args| > 1 && BoundArg(args[0]) && args[1].DurationArg?
    ensures forall i | 0 <= i < |RetryCalls(script, jitter, clock, args)| - 1 ::
      RetryCalls(script, jitter, clock, args)[i + 1] ==
        RetryCalls(script, jitter, clock, args)[i] + SleepFor(jitter(i + 1, if args[1].ns == 0 then SECOND else args[1].ns))
    ensures (forall n, x :: jitter(n, x) == x) && args[1].ns > 0 ==>
      forall i | 0 <= i < |RetryCalls(script, jitter, clock, args)| - 1 ::
        RetryCalls(script, jitter, clock, args)[i + 1] - RetryCalls(script, jitter, clock, args)[i] == args[1].ns
  {
    ParseAccepted(clock, args);
    var s := Parse(Fresh(clock), args).0;
    FixedDelayGaps(s, script, jitter);
    assert RetryCalls(script, jitter, clock, args) == Calls(s, script, jitter);
    assert s.delay == if args[1].ns == 0 then SECOND else args[1].ns;
  }

  /** No second argument: call i + 1 follows call i by the jittered default
      delay of 1s of that step; with identity jitter, exactly 1s. */
  lemma RetryDefaultDelayGap(script: seq<bool>, jitter: Jitter, clock: int, args: seq<Arg>)
    requires |args| == 0 || (|args| == 1 && BoundArg(args[0]))
    ensures forall i | 0 <= i < |RetryCalls(script, jitter, clock, args)| - 1 ::
      RetryCalls(script, jitter, clock, args)[i + 1] == RetryCalls(script, jitter, clock, args)[i] + SleepFor(jitter(i + 1, SECOND))
    ensures (forall n, x :: jitter(n, x) == x) ==>
      forall i | 0 <= i < |RetryCalls(script, jitter, clock, args)| - 1 ::
        RetryCalls(script, jitter, clock, args)[i + 1] - RetryCalls(script, jitter, clock, args)[i] == SECOND
  {
    ParseAccepted(clock, args);
    var s := Parse(Fresh(clock), args).0;
    FixedDelayGaps(s, script, jitter);
    assert RetryCalls(script, jitter, clock, args) == Calls(s, script, jitter);
  }

  /** With a backoff function that never answers more than nine billion
      seconds (so the duration does not wrap), the j-th delay of a run is
      jitter applied to f's j-th cursor, in seconds. */
  lemma RetryBackoffGaps(script: seq<bool>, jitter: Jitter, clock: int, a0: Arg, f: BackOffFn)
    requires BoundArg(a0)
    requires forall x: uint64 :: f(x) <= 9_000_000_000
    ensures forall i | 0 <= i < |RetryCalls(script, jitter, clock, [a0, BackoffArg(f)])| - 1 ::
      RetryCalls(script, jitter, clock, [a0, BackoffArg(f)])[i + 1] ==
        RetryCalls(script, jitter, clock, [a0, BackoffArg(f)])[i] + SleepFor(jitter(i + 1, Cursor(f, 0, i + 1) * SECOND))
  {
    var args := [a0, BackoffArg(f)];
    ParseAccepted(clock, args);
    var s := Parse(Fresh(clock), args).0;
    assert s.delayerFn == Some(f) && s.lastBackOff == 0;
    BackoffGaps(s, script, jitter);
    var calls := Calls(s, script, jitter);
    assert RetryCalls(script, jitter, clock, args) == calls;
    forall i | 0 <= i < |calls| - 1
      ensures calls[i + 1] == calls[i] + SleepFor(jitter(i + 1, Cursor(f, 0, i + 1) * SECOND))
    {
      CursorBounded(f, 0, i + 1);
    }
  }

  lemma {:induction false} CursorBounded(f: BackOffFn, c: uint64, j: nat)
    requires j >= 1
    requires forall x: uint64 :: f(x) <= 9_000_000_000
    ensures Cursor(f, c, j) <= 9_000_000_000
    ensures SecondsToDuration(Cursor(f, c, j)) == Cursor(f, c, j) * SECOND
    decreases j
  {
    if j > 1 {
      CursorBounded(f, f(Seeded(c)), j - 1);
    }
  }

  /** ExponentialBackoff(m) as second argument: the gap after call j + 1 is the
      jittered duration of min(2^(j+1), m) seconds; with identity jitter and
      m = 10 the gaps are 2s, 4s, 8s, 10s, 10s, ... */
  lemma RetryExponentialGaps(script: seq<bool>, jitter: Jitter, clock: int, a0: Arg, m: int64)
    requires BoundArg(a0) && 0 < m <= 9_000_000_000
    ensures forall i | 0 <= i < |RetryCalls(script, jitter, clock, [a0, BackoffArg(ExponentialBackoff(m))])| - 1 ::
      RetryCalls(script, jitter, clock, [a0, BackoffArg(ExponentialBackoff(m))])[i + 1] ==
        RetryCalls(script, jitter, clock, [a0, BackoffArg(ExponentialBackoff(m))])[i] + SleepFor(jitter(i + 1, Min(Pow2(i + 1), m) * SECOND))
    ensures (forall n, x :: jitter(n, x) == x) && m == 10 ==>
      forall i | 0 <= i < |RetryCalls(script, jitter, clock, [a0, BackoffArg(ExponentialBackoff(m))])| - 1 ::
        RetryCalls(script, jitter, clock, [a0, BackoffArg(ExponentialBackoff(m))])[i + 1] -
          RetryCalls(script, jitter, clock, [a0, BackoffArg(ExponentialBackoff(m))])[i] == [2, 4, 8, 10, 10][Min(i, 4)] * SECOND
  {
    var f := ExponentialBackoff(m);
    RetryBackoffGaps(script, jitter, clock, a0, f);
    var calls := RetryCalls(script, jitter, clock, [a0, BackoffArg(f)]);
    forall i | 0 <= i < |calls| - 1
      ensures calls[i + 1] == calls[i] + SleepFor(jitter(i + 1, Min(Pow2(i + 1), m) * SECOND))
    {
      ExponentialCursor(m, i + 1);
    }
    if m == 10 {
      forall i | 0 <= i < |calls| - 1
        ensures Min(Pow2(i + 1), m) == [2, 4, 8, 10, 10][Min(i, 4)]
      {
        assert Pow2(1) == 2 && Pow2(2) == 4 && Pow2(3) == 8 && Pow2(4) == 16;
        if i >= 3 {
          Pow2AtLeast16(i + 1);
        }
      }
    }
  }

  /** A positive deadline D: never the max-retry error; a deadline error means
      the last call was strictly after clock + D and every earlier call at or
      before it; with a fixed delay the last call is at most one jittered delay
      past clock + D. */
  lemma RetryDeadline(script: seq<bool>, jitter: Jitter, clock: int, args: seq<Arg>)
    requires |args| > 0 && args[0].DurationArg? && args[0].ns > 0 && DelayArgOk(args)
    ensures RetryRun(script, jitter, clock, args).0 != Finished(Some(MaxRetryExceeded))
    ensures RetryRun(script, jitter, clock, args).0 == Finished(Some(DeadlineExceeded)) ==>
      && |RetryCalls(script, jitter, clock, args)| >= 2
      && Last(RetryCalls(script, jitter, clock, args)) > clock + args[0].ns
      && (forall i | 0 <= i < |RetryCalls(script, jitter, clock, args)| - 1 ::
            RetryCalls(script, jitter, clock, args)[i] <= clock + args[0].ns)
      && (Parse(Fresh(clock), args).0.delayerFn.None? ==>
            Last(RetryCalls(script, jitter, clock, args)) <= clock + args[0].ns +
              SleepFor(jitter(|RetryCalls(script, jitter, clock, args)| - 1, Parse(Fresh(clock), args).0.delay)))
  {
    ParseAccepted(clock, args);
    var s := Parse(Fresh(clock), args).0;
    DeadlineRun(s, script, jitter);
    RunShape(s, script, jitter);
    var calls := Calls(s, script, jitter);
    assert RetryCalls(script, jitter, clock, args) == calls;
    if Run(s, script, jitter).0 == Finished(Some(DeadlineExceeded)) {
      assert calls[0] == clock <= clock + args[0].ns;
      if s.delayerFn.None? {
        FixedDelayGaps(s, script, jitter);
        assert calls[|calls| - 1] == calls[|calls| - 2] + SleepFor(jitter(|calls| - 1, s.delay));
      }
    }
  }

  /** A positive deadline D with a fixed delay whose every jittered sleep lasts
      at least g >= 1 and a probe that always answers true: given more than
      D / g + 1 answers, the run ends with the deadline error. */
  lemma RetryDeadlineTerminates(script: seq<bool>, jitter: Jitter, clock: int, args: seq<Arg>, g: nat)
    requires |args| > 0 && args[0].DurationArg? && args[0].ns > 0
    requires |args| == 1 || args[1].DurationArg?
    requires g >= 1 && forall n: nat :: SleepFor(jitter(n, Parse(Fresh(clock), args).0.delay)) >= g
    requires 0 < |script| && (|script| - 1) * g > args[0].ns
    requires forall i | 0 <= i < |script| :: script[i]
    ensures RetryRun(script, jitter, clock, args).0 == Finished(Some(DeadlineExceeded))
  {
    ParseAccepted(clock, args);
    DeadlineTerminates(Parse(Fresh(clock), args).0, script, jitter, g);
  }
}
