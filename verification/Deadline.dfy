/** The arithmetic that keeps a queued generation inside its deadline: which settings are
    accepted, how long one job slice may run, and how many tries the queue allows. */
module Deadline {

  datatype Settings = Settings(
    deadline: int, finaliseReserve: int,
    callTimeout: int, fallbackTimeout: int, idleTimeout: int, retryMinRemaining: int,
    planChunks: int, technologyTimeout: int, technologyStale: int,
    cancelPoll: real, cancelDbPoll: real, providerCalls: int)

  function ProviderBudget(s: Settings): int {
    s.deadline - s.finaliseReserve
  }

  /** `validate_stage_generation_bounds` raises nothing. */
  predicate Accepted(s: Settings) {
    && 300 <= s.deadline <= 3600
    && 10 <= s.finaliseReserve <= 120
    && 1 <= s.callTimeout <= ProviderBudget(s)
    && 1 <= s.fallbackTimeout <= ProviderBudget(s)
    && 1 <= s.idleTimeout <= ProviderBudget(s)
    && s.idleTimeout <= s.callTimeout
    && 45 <= s.retryMinRemaining < ProviderBudget(s)
    && 1 <= s.planChunks <= 4
    && 1 <= s.technologyTimeout <= 10
    && 1 <= s.technologyStale <= 30
    && s.cancelPoll > 0.0 && s.cancelDbPoll > 0.0
    && s.providerCalls >= 1
  }

  function Max(a: int, b: int): int { if a < b then b else a }
  function Min(a: int, b: int): int { if b < a then b else a }

  /** `_GENERATION_JOB_SLICE_SECONDS`. */
  function Slice(s: Settings): int {
    Max(60, Min(s.callTimeout + 60, s.deadline - s.retryMinRemaining))
  }

  /** `_GENERATION_JOB_TIMEOUT_SECONDS`. */
  function JobTimeout(s: Settings): int {
    Slice(s) + 30
  }

  /** `_GENERATION_JOB_MAX_TRIES`; the deadline is positive, so `/` is Python's `//`. */
  function MaxTries(s: Settings): int
    requires s.deadline >= 0
  {
    Max(100, (s.deadline + 4) / 5 + 10)
  }

  /** For all accepted settings, a slice lasts at least a minute, ends before the queue's own
      timeout, and leaves at least 45 seconds of the deadline. */
  lemma SliceFits(s: Settings)
    requires Accepted(s)
    ensures 60 <= Slice(s) <= s.deadline - 45
    ensures JobTimeout(s) == Slice(s) + 30
  {}

  /** The tightest and the widest settings that are accepted. */
  const LEAST := Settings(300, 10, 1, 1, 1, 45, 1, 1, 1, 0.001, 0.001, 1)
  const MOST := Settings(3600, 10, 3590, 3590, 3590, 3589, 4, 10, 30, 60.0, 60.0, 1000)

  /** Every bound of the validation is reached, and one past it is refused. */
  lemma BoundsAreExact()
    ensures Accepted(LEAST) && Accepted(MOST) && Accepted(LEAST.(finaliseReserve := 120))
    ensures !Accepted(LEAST.(deadline := 299)) && !Accepted(MOST.(deadline := 3601))
    ensures !Accepted(LEAST.(finaliseReserve := 9)) && !Accepted(LEAST.(finaliseReserve := 121))
    ensures !Accepted(LEAST.(callTimeout := 0, idleTimeout := 0)) && !Accepted(MOST.(callTimeout := 3591))
    ensures !Accepted(LEAST.(fallbackTimeout := 0)) && !Accepted(MOST.(fallbackTimeout := 3591))
    ensures !Accepted(LEAST.(idleTimeout := 0)) && !Accepted(MOST.(callTimeout := 3589))
    ensures !Accepted(LEAST.(retryMinRemaining := 44)) && !Accepted(MOST.(retryMinRemaining := 3590))
    ensures !Accepted(LEAST.(planChunks := 0)) && !Accepted(MOST.(planChunks := 5))
    ensures !Accepted(LEAST.(technologyTimeout := 0)) && !Accepted(MOST.(technologyTimeout := 11))
    ensures !Accepted(LEAST.(technologyStale := 0)) && !Accepted(MOST.(technologyStale := 31))
    ensures !Accepted(LEAST.(cancelPoll := 0.0)) && !Accepted(LEAST.(cancelDbPoll := 0.0))
    ensures !Accepted(LEAST.(providerCalls := 0))
  {}

  /** It leaves the whole configured retry window exactly when the deadline exceeds that window
      by a minute.  Accepted settings need not do so. */
  lemma SliceLeavesRetryWindow(s: Settings)
    requires Accepted(s)
    ensures Slice(s) + s.retryMinRemaining <= s.deadline <==> s.deadline - s.retryMinRemaining >= 60
  {}

  const TIGHT := Settings(300, 10, 60, 60, 60, 289, 1, 10, 30, 1.0, 5.0, 1)

  lemma RetryWindowCanBeCut()
    ensures Accepted(TIGHT) && TIGHT.deadline - Slice(TIGHT) < TIGHT.retryMinRemaining
  {
    assert Slice(TIGHT) == 60;
  }

  /** A slice is long enough for one provider call exactly when the call is at most a minute
      or fits in front of the retry window. */
  lemma SliceCoversOneCall(s: Settings)
    requires Accepted(s)
    ensures Slice(s) >= s.callTimeout <==> s.callTimeout <= 60 || s.callTimeout <= s.deadline - s.retryMinRemaining
    ensures Slice(s) <= s.callTimeout + 60
    ensures Slice(s) == s.callTimeout + 60 <==> s.callTimeout + 60 + s.retryMinRemaining <= s.deadline
  {}

  // ------------------------------------------------------------------ retries

  /** Why a bulkhead turned a job away, and how long it then waits. */
  datatype Reason = ProcessFull | UserFull | ProviderInflight | ProviderRpm

  function RetryAfter(r: Reason): int {
    match r
    case ProcessFull => 5
    case UserFull => 10
    case ProviderInflight => 10
    case ProviderRpm => 60
  }

  /** How one attempt of `stage_generate` ends.  `ran` is what it ran before it was turned
      away or a redeploy stopped it.  A graceful stop clears the lease at once; a killed
      worker's job waits out the lease, which outlasts the job timeout. */
  datatype Ending =
    Finished(ran: nat)
    | TurnedAway(reason: Reason, ran: nat)
    | SliceExhausted
    | Redeployed(ran: nat)
    | Killed(lease: nat)

  /** A job in the queue: tries used, seconds since it was queued, and whether it ended. */
  datatype Job = Job(tries: nat, elapsed: int, over: bool)

  /** Seconds from the start of an attempt to the start of the next. */
  function Cost(s: Settings, e: Ending): int {
    match e
    case Finished(ran) => ran
    case TurnedAway(reason, ran) => ran + Max(1, RetryAfter(reason))
    case SliceExhausted => Slice(s)
    case Redeployed(ran) => ran
    case Killed(lease) => Max(lease, JobTimeout(s) + 10)
  }

  /** One attempt, after `waited` seconds in the queue. */
  function Tried(s: Settings, j: Job, e: Ending, waited: nat): Job {
    if j.over then j else Job(j.tries + 1, j.elapsed + waited + Cost(s, e), e.Finished?)
  }

  function History(s: Settings, j: Job, es: seq<(Ending, nat)>): Job
    decreases |es|
  {
    if es == [] then j else History(s, Tried(s, j, es[0].0, es[0].1), es[1..])
  }

  const QUEUED := Job(0, 0, false)

  /** A redeploy stopped the attempt before it could cost five seconds: the one way to spend a
      try on less. */
  predicate Hasty(e: (Ending, nat)) {
    e.0.Redeployed? && e.0.ran + e.1 < 5
  }

  function HastyStops(es: seq<(Ending, nat)>): nat
    decreases |es|
  {
    if es == [] then 0 else (if Hasty(es[0]) then 1 else 0) + HastyStops(es[1..])
  }

  lemma {:induction false} TriesTakeTime(s: Settings, j: Job, es: seq<(Ending, nat)>)
    requires Accepted(s) && !j.over
    ensures var k := History(s, j, es);
            k.over || k.elapsed - j.elapsed >= 5 * (k.tries - j.tries - HastyStops(es))
    decreases |es|
  {
    if es != [] {
      var next := Tried(s, j, es[0].0, es[0].1);
      SliceFits(s);
      if next.over {
        OverStaysOver(s, next, es[1..]);
      } else {
        TriesTakeTime(s, next, es[1..]);
      }
    }
  }

  lemma {:induction false} OverStaysOver(s: Settings, j: Job, es: seq<(Ending, nat)>)
    requires j.over
    ensures History(s, j, es) == j
    decreases |es|
  {
    if es != [] {
      OverStaysOver(s, j, es[1..]);
    }
  }

  /** For all accepted settings and all histories of a job: redeploys that stop it within five
      seconds apart, as long as its deadline has not passed it has at least ten tries left, and
      its tries cannot run out before fifty seconds after the deadline. */
  lemma TriesOutlastDeadline(s: Settings, es: seq<(Ending, nat)>)
    requires Accepted(s) && !History(s, QUEUED, es).over
    ensures var j, hasty := History(s, QUEUED, es), HastyStops(es);
            && (j.elapsed <= s.deadline ==> j.tries + 10 <= MaxTries(s) + hasty)
            && (j.tries >= MaxTries(s) + hasty ==> j.elapsed >= s.deadline + 50)
  {
    TriesTakeTime(s, QUEUED, es);
    assert 5 * ((s.deadline + 4) / 5) >= s.deadline;
  }

  /** However a job goes, as long as its deadline has not passed and at most `h` redeploys have
      stopped it within five seconds, it has a try left. */
  ghost predicate Outlasts(s: Settings, h: nat)
    requires Accepted(s)
  {
    forall es :: var j := History(s, QUEUED, es);
      !j.over && HastyStops(es) <= h && j.elapsed <= s.deadline ==> j.tries < MaxTries(s)
  }

  /** `h` redeploys, each as soon as the job starts, and `n` refusals by a full process. */
  function Wasted(h: nat, n: nat): seq<(Ending, nat)> {
    if h > 0 then [(Redeployed(0), 0)] + Wasted(h - 1, n)
    else if n > 0 then [(TurnedAway(ProcessFull, 0), 0)] + Wasted(h, n - 1)
    else []
  }

  /** The cheapest way to spend tries: nothing for each hasty stop, five seconds for any other. */
  lemma {:induction false} WastedSpends(s: Settings, j: Job, h: nat, n: nat)
    requires !j.over
    ensures History(s, j, Wasted(h, n)) == Job(j.tries + h + n, j.elapsed + 5 * n, false)
    ensures HastyStops(Wasted(h, n)) == h
    decreases h + n
  {
    if h > 0 {
      WastedSpends(s, Tried(s, j, Redeployed(0), 0), h - 1, n);
    } else if n > 0 {
      WastedSpends(s, Tried(s, j, TurnedAway(ProcessFull, 0), 0), h, n - 1);
    }
  }

  /** The tries outlast the deadline exactly as long as the hasty stops and the five-second
      slots of the deadline are together fewer than the tries. */
  lemma OutlastsExactly(s: Settings, h: nat)
    requires Accepted(s)
    ensures Outlasts(s, h) <==> h + s.deadline / 5 < MaxTries(s)
  {
    var n := s.deadline / 5;
    if h + n < MaxTries(s) {
      forall es | var j := History(s, QUEUED, es); !j.over && HastyStops(es) <= h && j.elapsed <= s.deadline
        ensures History(s, QUEUED, es).tries < MaxTries(s)
      {
        TriesTakeTime(s, QUEUED, es);
      }
    } else {
      WastedSpends(s, QUEUED, h, n);
      assert History(s, QUEUED, Wasted(h, n)).elapsed <= s.deadline;
    }
  }

  /** `n` refusals in a row for the same reason. */
  function Refusals(r: Reason, n: nat): seq<(Ending, nat)> {
    if n == 0 then [] else [(TurnedAway(r, 0), 0)] + Refusals(r, n - 1)
  }

  /** What backpressure costs: five seconds a try at a full process, ten at a user's or a provider's
      concurrency limit, a minute at a provider's rate limit. */
  lemma {:induction false} RefusalsTake(s: Settings, j: Job, r: Reason, n: nat)
    requires !j.over
    ensures var each := if r == ProcessFull then 5 else if r == ProviderRpm then 60 else 10;
            History(s, j, Refusals(r, n)) == Job(j.tries + n, j.elapsed + n * each, false)
    decreases n
  {
    if n > 0 {
      RefusalsTake(s, Tried(s, j, TurnedAway(r, 0), 0), r, n - 1);
    }
  }

  /** A killed worker costs the lease, and never less than the slice and forty seconds. */
  lemma KillCosts(s: Settings, lease: nat)
    ensures Cost(s, Killed(lease)) >= lease && Cost(s, Killed(lease)) >= Slice(s) + 40
    ensures Cost(s, Killed(lease)) == lease || Cost(s, Killed(lease)) == Slice(s) + 40
  {}

  /** At the shortest deadline, which has a hundred tries, thirty-nine are survived. */
  lemma ShortDeadline(s: Settings)
    requires Accepted(s) && s.deadline == 300
    ensures Outlasts(s, 39) && !Outlasts(s, 40)
  {
    OutlastsExactly(s, 39);
    OutlastsExactly(s, 40);
  }

  /** At the default deadline of 600 s nine hasty stops are survived, and ten need not be. */
  lemma TenStopsExhaust(s: Settings)
    requires Accepted(s) && s.deadline == 600
    ensures Outlasts(s, 9) && !Outlasts(s, 10)
    ensures History(s, QUEUED, Wasted(10, 120)) == Job(MaxTries(s), 600, false)
  {
    OutlastsExactly(s, 9);
    OutlastsExactly(s, 10);
    WastedSpends(s, QUEUED, 10, 120);
  }
}
