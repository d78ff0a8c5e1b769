/** Model of retry.go: the retry manager resolves a loosely typed argument list
    into a policy (an attempt bound or a deadline, a fixed delay or a backoff
    function) and then calls the probe until it answers false or the bound is
    reached, sleeping between calls.

    The environment is explicit: the probe is a script of its answers (call i
    answers script[i]), time is an integer clock in nanoseconds that only
    sleeps advance, and the jitter applied to each delay is a parameter that
    may answer differently at every delay step. */
module Retry {
  import opened Utils

  /** time.Second: a time.Duration counts nanoseconds. */
  const SECOND: int := 1_000_000_000
  /** The delay used when the caller supplies neither a delay nor a backoff function. */
  const DEFAULT_DELAY_DURATION: int := SECOND

  datatype Option<T> = None | Some(value: T)

  /** jitter(n, d): how long the delay step that follows the n-th probe call
      sleeps for a delay d once jitter is added. Indexing by n lets each step
      draw a different amount, as addJitter's fresh random draw does. */
  type Jitter = (nat, int) -> int

  /** One element of the variadic argument list, as reflection sees it. */
  datatype Arg =
      /** a time.Duration: its kind is Int64, its type name "time.Duration" */
    | DurationArg(ns: int64)
      /** a value of type func(uint64) uint64 */
    | BackoffArg(f: BackOffFn)
      /** any other value: its kind, and its value when that kind is a signed integer kind */
    | ValueArg(kind: Kind, n: int64)

  /** The kind reflection reports for an argument. */
  function KindOf(a: Arg): Kind
  {
    match a
    case DurationArg(_) => Int64
    case BackoffArg(_) => Func
    case ValueArg(k, _) => k
  }

  /** The value of an argument of a signed integer kind, widened to int64. */
  function IntOf(a: Arg): int64
    requires IsIntKind(KindOf(a))
  {
    match a
    case DurationArg(ns) => ns
    case ValueArg(_, n) => n
  }

  function Abs(x: int): (r: nat)
    ensures r == x || r == -x
    ensures r >= x && r >= -x
  {
    if x < 0 then -x else x
  }

  /** The four errors Retry can return; each is created with a fixed message. */
  datatype RetryError =
    | InvalidBoundArgument
    | InvalidDelayArgument
    | DeadlineExceeded
    | MaxRetryExceeded
  {
    function Message(): string
    {
      match this
      case InvalidBoundArgument => "invalid argument type. maxRetry can be either integer or time.Duration"
      case InvalidDelayArgument => "invalid argument type for delay. delay can be either time.Duration or `func(uint64) uint64`"
      case DeadlineExceeded => "retry deadline has been exceeded"
      case MaxRetryExceeded => "maximum retry has been exceeded"
    }
  }

  /** How a run ends: Retry returned (nil or an error), or the probe would have
      been called once more than the script has answers. */
  datatype Outcome = Finished(err: Option<RetryError>) | ScriptExhausted

  /** The fields of a retry manager, with the clock and the record of probe calls. */
  datatype Session = Session(
    maxRetry: int,
    delayerFn: Option<BackOffFn>,
    retryUntil: int,
    startedAt: int,
    delay: int,
    lastBackOff: uint64,
    now: int,
    callTimes: seq<int>)

  /** A manager as Retry creates it, started at the given time. */
  function Fresh(clock: int): Session
  {
    Session(0, None, 0, clock, 0, 0, clock, [])
  }

  // ---------------------------------------------------------------------------
  // parseParams

  /** The first argument: a Duration is a deadline, a signed integer an attempt
      count (its absolute value); anything else is refused. */
  function ResolveBound(s: Session, a: Arg): Option<Session>
  {
    if a.DurationArg? then Some(s.(retryUntil := a.ns))
    else if IsIntKind(KindOf(a)) then Some(s.(maxRetry := Abs(IntOf(a))))
    else None
  }

  /** The second argument: a Duration is a fixed delay, a func(uint64) uint64 a
      backoff function; anything else is refused. */
  function ResolveDelay(s: Session, a: Arg): Option<Session>
  {
    if a.DurationArg? then Some(s.(delay := a.ns))
    else if a.BackoffArg? then Some(s.(delayerFn := Some(a.f)))
    else None
  }

  function WithDefaultDelay(s: Session): Session
  {
    if s.delayerFn.None? && s.delay == 0 then s.(delay := DEFAULT_DELAY_DURATION) else s
  }

  /** The state parseParams leaves and the error it returns. Arguments after the
      second are ignored. */
  function Parse(s: Session, args: seq<Arg>): (Session, Option<RetryError>)
  {
    if |args| == 0 then (WithDefaultDelay(s), None)
    else match ResolveBound(s, args[0])
      case None => (s, Some(InvalidBoundArgument))
      case Some(s1) =>
        if |args| == 1 then (WithDefaultDelay(s1), None)
        else match ResolveDelay(s1, args[1])
          case None => (s1, Some(InvalidDelayArgument))
          case Some(s2) => (WithDefaultDelay(s2), None)
  }

  // ---------------------------------------------------------------------------
  // addDelay

  /** How long time.Sleep(d) blocks: a non-positive duration returns at once. */
  function SleepFor(d: int): nat
  {
    if d > 0 then d else 0
  }

  /** n seconds as a Duration, in wrapping int64 arithmetic: exact unless the
      product leaves the int64 range. */
  function SecondsToDuration(n: uint64): (d: int64)
    ensures n * SECOND < TWO_TO_63 ==> d == n * SECOND
  {
    ToInt64(n * SECOND)
  }

  /** The cursor addDelay works from: 0 (never set) is seeded to 1. */
  function Seeded(c: uint64): (r: uint64)
    ensures c == 0 ==> r == 1
    ensures c != 0 ==> r == c
  {
    if c == 0 then 1 else c
  }

  /** addDelay: seed the cursor, take the next delay from the backoff function
      (which also becomes the cursor) or the fixed delay, and sleep for it with
      jitter applied. Only the cursor and the clock change. */
  function DelayStep(s: Session, jitter: Jitter): (r: Session)
    ensures r == s.(lastBackOff := r.lastBackOff, now := r.now)
    ensures r.now >= s.now
  {
    var cursor := Seeded(s.lastBackOff);
    match s.delayerFn
    case Some(f) =>
      var n := f(cursor);
      s.(lastBackOff := n, now := s.now + SleepFor(jitter(|s.callTimes|, SecondsToDuration(n))))
    case None =>
      s.(lastBackOff := cursor, now := s.now + SleepFor(jitter(|s.callTimes|, s.delay)))
  }

  // ---------------------------------------------------------------------------
  // execute

  /** A probe call: recorded at the current time, answered by the script. */
  function ProbeStep(s: Session, script: seq<bool>): (Session, bool)
    requires |s.callTimes| < |script|
  {
    (s.(callTimes := s.callTimes + [s.now]), script[|s.callTimes|])
  }

  /** execute from state s: call the probe, and while it answers true run one
      pass of the loop. */
  function Run(s: Session, script: seq<bool>, jitter: Jitter): (Outcome, Session)
    decreases |script| - |s.callTimes|, 0
  {
    if |s.callTimes| >= |script| then (ScriptExhausted, s)
    else
      var (s1, shouldRetry) := ProbeStep(s, script);
      if shouldRetry then Continue(s1, script, jitter) else (Finished(None), s1)
  }

  /** One pass of execute's loop, entered after the probe answered true. With a
      positive retryUntil the deadline is checked before the delay; otherwise a
      positive maxRetry is decremented and its reaching 0 ends the run. */
  function Continue(s: Session, script: seq<bool>, jitter: Jitter): (Outcome, Session)
    requires |s.callTimes| <= |script|
    decreases |script| - |s.callTimes|, 1
  {
    if s.retryUntil > 0 then
      if s.now > s.startedAt + s.retryUntil then (Finished(Some(DeadlineExceeded)), s)
      else Run(DelayStep(s, jitter), script, jitter)
    else
      var s1 := if s.maxRetry > 0 then s.(maxRetry := s.maxRetry - 1) else s;
      if s.maxRetry > 0 && s1.maxRetry == 0 then (Finished(Some(MaxRetryExceeded)), s1)
      else Run(DelayStep(s1, jitter), script, jitter)
  }

  /** Retry: a fresh manager parses the arguments; on success it executes.
      The result is how the run ended and when the probe was called. */
  function RetryRun(script: seq<bool>, jitter: Jitter, clock: int, args: seq<Arg>): (Outcome, seq<int>)
  {
    var (s, err) := Parse(Fresh(clock), args);
    if err.Some? then (Finished(err), [])
    else
      var (outcome, t) := Run(s, script, jitter);
      (outcome, t.callTimes)
  }

  // ---------------------------------------------------------------------------
  // The retry manager

  class RetryManager {
    var maxRetry: int
    var delayerFn: Option<BackOffFn>
    var retryUntil: int
    var startedAt: int
    var delay: int
    /** in seconds */
    var lastBackOff: uint64
    /** The clock read by time.Now and advanced by time.Sleep. */
    var now: int
    /** The time of every probe call so far, in call order. */
    var callTimes: seq<int>

    function State(): Session
      reads this
    {
      Session(maxRetry, delayerFn, retryUntil, startedAt, delay, lastBackOff, now, callTimes)
    }

    /** A manager started at the given clock, every other field zero. */
    constructor (clock: int)
      ensures State() == Fresh(clock)
    {
      maxRetry, delayerFn, retryUntil, startedAt, delay, lastBackOff := 0, None, 0, clock, 0, 0;
      now, callTimes := clock, [];
    }

    method ParseParams(args: seq<Arg>) returns (err: Option<RetryError>)
      modifies this
      ensures (State(), err) == Parse(old(State()), args)
    {
      if |args| > 0 {
        if args[0].DurationArg? {
          retryUntil := args[0].ns;
        } else if IsIntKind(KindOf(args[0])) {
          maxRetry := Abs(IntOf(args[0]));
        } else {
          return Some(InvalidBoundArgument);
        }

        if |args| == 1 && args[0].BackoffArg? {
          // A func first argument never gets here: its kind is Func.
          assert false;
        }

        if |args| > 1 {
          if args[1].DurationArg? {
            delay := args[1].ns;
          } else if args[1].BackoffArg? {
            delayerFn := Some(args[1].f);
          } else {
            return Some(InvalidDelayArgument);
          }
        }
      }
      if delayerFn.None? && delay == 0 {
        delay := DEFAULT_DELAY_DURATION;
      }
      return None;
    }

    method AddDelay(jitter: Jitter)
      modifies this`lastBackOff, this`now
      ensures State() == DelayStep(old(State()), jitter)
    {
      var delayInBetween: int;
      if lastBackOff == 0 {
        lastBackOff := 1;
      }
      if delayerFn.Some? {
        var numberOfSeconds := delayerFn.value(lastBackOff);
        lastBackOff := numberOfSeconds;
        delayInBetween := SecondsToDuration(numberOfSeconds);
      } else {
        delayInBetween := delay;
      }
      var withJitter := jitter(|callTimes|, delayInBetween);
      if withJitter > 0 {
        now := now + withJitter;
      }
    }

    /** One call of the probe; called is false when the script has no answer left. */
    method Probe(script: seq<bool>) returns (called: bool, shouldRetry: bool)
      modifies this`callTimes
      ensures called <==> |old(callTimes)| < |script|
      ensures called ==> (State(), shouldRetry) == ProbeStep(old(State()), script)
      ensures !called ==> callTimes == old(callTimes)
    {
      called, shouldRetry := |callTimes| < |script|, false;
      if called {
        shouldRetry := script[|callTimes|];
        callTimes := callTimes + [now];
      }
    }

    method Execute(script: seq<bool>, jitter: Jitter) returns (outcome: Outcome)
      modifies this
      ensures (outcome, State()) == Run(old(State()), script, jitter)
    {
      var called, shouldRetry := Probe(script);
      if !called {
        return ScriptExhausted;
      }
      while shouldRetry
        invariant |callTimes| <= |script|
        invariant Run(old(State()), script, jitter) ==
          if shouldRetry then Continue(State(), script, jitter) else (Finished(None), State())
        decreases |script| - |callTimes|
      {
        if retryUntil > 0 {
          if now > startedAt + retryUntil {
            return Finished(Some(DeadlineExceeded));
          }
          AddDelay(jitter);
          called, shouldRetry := Probe(script);
          if !called {
            return ScriptExhausted;
          }
          continue;
        }

        if maxRetry > 0 {
          maxRetry := maxRetry - 1;
          if maxRetry == 0 {
            return Finished(Some(MaxRetryExceeded));
          }
        }

        AddDelay(jitter);
        called, shouldRetry := Probe(script);
        if !called {
          return ScriptExhausted;
        }
      }
      return Finished(None);
    }
  }

  method Retry(script: seq<bool>, jitter: Jitter, clock: int, args: seq<Arg>)
    returns (outcome: Outcome, callTimes: seq<int>)
    ensures (outcome, callTimes) == RetryRun(script, jitter, clock, args)
  {
    var manager := new RetryManager(clock);
    var err := manager.ParseParams(args);
    if err.Some? {
      return Finished(err), [];
    }
    outcome := manager.Execute(script, jitter);
    callTimes := manager.callTimes;
  }
}
