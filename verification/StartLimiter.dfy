/** `ProductionSafetyGuard`: the start-rate window over a bounded deque, and the retry circuit breaker.
    Times are real numbers read from the clock by the caller. */
module StartLimiter {

  const WINDOW: real := 60.0
  const MAX_STARTS: nat := 5
  const MAX_CONCURRENT: int := 3
  const MAX_SPIRAL: nat := 8
  const DEQUE_LENGTH: nat := 200

  datatype SafetyCheck = SafetyCheck(allowed: bool, reason: string, degraded: bool)

  // ---------------------------------------------------------------- the calls on the guard's state

  datatype Guard = Guard(
    startedAt: map<string, real>, retries: map<string, nat>, recent: seq<real>, spiral: map<string, nat>)

  datatype Call = Started(id: string, now: real) | Retried(id: string) | Cleared(id: string)

  function CountOf(counts: map<string, nat>, id: string): nat {
    if id in counts then counts[id] else 0
  }

  /** Appending to a deque of bounded length drops its oldest entry when it is full. */
  function Push(recent: seq<real>, now: real): seq<real> {
    if |recent| < DEQUE_LENGTH then recent + [now] else recent[1..] + [now]
  }

  function Apply(g: Guard, c: Call): Guard {
    match c
    case Started(id, now) =>
      g.(startedAt := g.startedAt[id := now], recent := Push(g.recent, now), retries := g.retries[id := 0])
    case Retried(id) =>
      g.(retries := g.retries[id := CountOf(g.retries, id) + 1], spiral := g.spiral[id := CountOf(g.spiral, id) + 1])
    case Cleared(id) =>
      g.(startedAt := g.startedAt - {id}, retries := g.retries - {id}, spiral := g.spiral - {id})
  }

  const EMPTY: Guard := Guard(map[], map[], [], map[])

  /** The state after these calls, oldest first. */
  function After(calls: seq<Call>): Guard {
    if calls == [] then EMPTY else Apply(After(calls[..|calls| - 1]), calls[|calls| - 1])
  }

  /** How many of the times are less than a window before `now`. */
  function Recent(times: seq<real>, now: real): nat {
    if times == [] then 0
    else Recent(times[..|times| - 1], now) + if now - times[|times| - 1] < WINDOW then 1 else 0
  }

  function RateCheck(recent: seq<real>, active: int, now: real): SafetyCheck {
    if active >= MAX_CONCURRENT then SafetyCheck(false, "max_concurrent_executions_reached", false)
    else if Recent(recent, now) >= MAX_STARTS then SafetyCheck(false, "execution_rate_limit_exceeded", false)
    else SafetyCheck(true, "", false)
  }

  /** Where in the list the times of the last 60 seconds stand. */
  ghost function RecentPlaces(times: seq<real>, now: real): set<nat> {
    set i: nat | i < |times| && now - times[i] < 60.0
  }

  lemma {:induction false} RecentCounted(times: seq<real>, now: real)
    ensures Recent(times, now) == |RecentPlaces(times, now)|
  {
    if times == [] {
      assert RecentPlaces(times, now) == {};
    } else {
      var k := |times| - 1;
      RecentCounted(times[..k], now);
      assert RecentPlaces(times, now)
          == RecentPlaces(times[..k], now) + (if now - times[k] < 60.0 then {k} else {});
    }
  }

  /** A start is allowed exactly with fewer than three active executions and fewer than five starts in the last 60
      seconds; too many active ones are reported first. */
  lemma {:induction false} RateCheckIff(recent: seq<real>, active: int, now: real)
    ensures var r, starts := RateCheck(recent, active, now), |RecentPlaces(recent, now)|;
      && (r.allowed <==> active < 3 && starts < 5) && !r.degraded
      && (r.reason == "max_concurrent_executions_reached" <==> active >= 3)
      && (r.reason == "execution_rate_limit_exceeded" <==> active < 3 && starts >= 5)
  {
    RecentCounted(recent, now);
  }

  function CircuitCheck(g: Guard, id: string): SafetyCheck {
    var spiral := CountOf(g.spiral, id);
    if spiral >= MAX_SPIRAL then SafetyCheck(false, "retry_circuit_breaker_open", false)
    else if spiral >= MAX_SPIRAL - 2 then SafetyCheck(true, "retry_budget_low_degraded_mode", true)
    else SafetyCheck(true, "", false)
  }

  class ProductionSafetyGuard {
    var startTimestamps: map<string, real>
    var retryCounts: map<string, nat>
    var executionStarts: seq<real>
    var globalRetrySpiral: map<string, nat>

    ghost function View(): Guard
      reads this
    {
      Guard(startTimestamps, retryCounts, executionStarts, globalRetrySpiral)
    }

    constructor ()
      ensures View() == EMPTY
    {
      startTimestamps, retryCounts, executionStarts, globalRetrySpiral := map[], map[], [], map[];
    }

    method RecordExecutionStart(id: string, now: real)
      modifies this
      ensures View() == Apply(old(View()), Started(id, now))
    {
      startTimestamps := startTimestamps[id := now];
      if |executionStarts| >= DEQUE_LENGTH { executionStarts := executionStarts[1..]; }
      executionStarts := executionStarts + [now];
      retryCounts := retryCounts[id := 0];
    }

    method RecordRetry(id: string) returns (count: nat)
      modifies this
      ensures View() == Apply(old(View()), Retried(id))
      ensures count == CountOf(retryCounts, id) == CountOf(old(retryCounts), id) + 1
    {
      count := (if id in retryCounts then retryCounts[id] else 0) + 1;
      retryCounts := retryCounts[id := count];
      var spiral := (if id in globalRetrySpiral then globalRetrySpiral[id] else 0) + 1;
      globalRetrySpiral := globalRetrySpiral[id := spiral];
    }

    method ClearExecution(id: string)
      modifies this
      ensures View() == Apply(old(View()), Cleared(id))
    {
      startTimestamps := startTimestamps - {id};
      retryCounts := retryCounts - {id};
      globalRetrySpiral := globalRetrySpiral - {id};
    }

    method CheckRateLimit(active: int, now: real) returns (r: SafetyCheck)
      ensures r == RateCheck(executionStarts, active, now)
      ensures r.allowed <==> active < 3 && |RecentPlaces(executionStarts, now)| < 5
    {
      RateCheckIff(executionStarts, active, now);
      if active >= MAX_CONCURRENT { return SafetyCheck(false, "max_concurrent_executions_reached", false); }
      var recent: seq<real> := [];
      for i := 0 to |executionStarts|
        invariant |recent| == Recent(executionStarts[..i], now)
      {
        assert executionStarts[..i + 1][..i] == executionStarts[..i];
        if now - executionStarts[i] < WINDOW { recent := recent + [executionStarts[i]]; }
      }
      assert executionStarts[..|executionStarts|] == executionStarts;
      if |recent| >= MAX_STARTS { return SafetyCheck(false, "execution_rate_limit_exceeded", false); }
      return SafetyCheck(true, "", false);
    }

    method CheckRetryCircuit(id: string) returns (r: SafetyCheck)
      ensures r == CircuitCheck(View(), id)
    {
      var spiral := if id in globalRetrySpiral then globalRetrySpiral[id] else 0;
      if spiral >= MAX_SPIRAL { return SafetyCheck(false, "retry_circuit_breaker_open", false); }
      if spiral >= MAX_SPIRAL - 2 { return SafetyCheck(true, "retry_budget_low_degraded_mode", true); }
      return SafetyCheck(true, "", false);
    }
  }

  // ---------------------------------------------------------------- the retry circuit over a whole history

  function RetriesSinceClear(calls: seq<Call>, id: string): nat {
    if calls == [] then 0
    else
      var before := RetriesSinceClear(calls[..|calls| - 1], id);
      match calls[|calls| - 1]
      case Retried(other) => if other == id then before + 1 else before
      case Cleared(other) => if other == id then 0 else before
      case Started(_, _) => before
  }

  /** The breaker opens at the eighth retry since the execution was last cleared, and warns for the two
      before; starting the execution again does not close it. */
  lemma {:induction false} CircuitCountsRetries(calls: seq<Call>, id: string)
    ensures CountOf(After(calls).spiral, id) == RetriesSinceClear(calls, id)
    ensures CircuitCheck(After(calls), id).allowed <==> RetriesSinceClear(calls, id) < 8
    ensures CircuitCheck(After(calls), id).degraded <==> 6 <= RetriesSinceClear(calls, id) < 8
    ensures CircuitCheck(After(calls), id).reason
         == if RetriesSinceClear(calls, id) >= 8 then "retry_circuit_breaker_open"
            else if RetriesSinceClear(calls, id) >= 6 then "retry_budget_low_degraded_mode"
            else ""
  {
    hide Push;
    if calls != [] { CircuitCountsRetries(calls[..|calls| - 1], id); }
  }

  function RetriesSinceStart(calls: seq<Call>, id: string): nat {
    if calls == [] then 0
    else
      var before := RetriesSinceStart(calls[..|calls| - 1], id);
      match calls[|calls| - 1]
      case Retried(other) => if other == id then before + 1 else before
      case Cleared(other) => if other == id then 0 else before
      case Started(other, _) => if other == id then 0 else before
  }

  /** The other count is of the retries since the execution was last started or cleared. */
  lemma {:induction false} RetriesCounted(calls: seq<Call>, id: string)
    ensures CountOf(After(calls).retries, id) == RetriesSinceStart(calls, id)
  {
    hide Push;
    if calls != [] { RetriesCounted(calls[..|calls| - 1], id); }
  }

  /** Call k starts the execution, and no later call starts it again or clears it. */
  ghost predicate LastStart(calls: seq<Call>, id: string, now: real, k: nat) {
    && k < |calls| && calls[k] == Started(id, now)
    && forall j | k < j < |calls| :: !(calls[j].Started? && calls[j].id == id) && calls[j] != Cleared(id)
  }

  /** The recorded time of an execution is that of its last start, unless it was cleared since. */
  lemma {:induction false} StartRecorded(calls: seq<Call>, id: string, now: real)
    ensures id in After(calls).startedAt && After(calls).startedAt[id] == now
       <==> exists k :: LastStart(calls, id, now, k)
  {
    if calls != [] {
      var n := |calls| - 1;
      StartRecorded(calls[..n], id, now);
      if calls[n] == Started(id, now) {
        assert LastStart(calls, id, now, n);
      } else if (calls[n].Started? && calls[n].id == id) || calls[n] == Cleared(id) {
        assert forall k :: !LastStart(calls, id, now, k);
      } else {
        forall k ensures LastStart(calls, id, now, k) <==> LastStart(calls[..n], id, now, k) {
          LastStartFront(calls, id, now, k);
        }
      }
    }
  }

  lemma LastStartFront(calls: seq<Call>, id: string, now: real, k: nat)
    requires calls != []
    requires !(calls[|calls| - 1].Started? && calls[|calls| - 1].id == id) && calls[|calls| - 1] != Cleared(id)
    ensures LastStart(calls, id, now, k) <==> LastStart(calls[..|calls| - 1], id, now, k)
  {
    var init := calls[..|calls| - 1];
    assert forall j | 0 <= j < |init| :: init[j] == calls[j];
  }

  // ---------------------------------------------------------------- the deque against the whole history

  function LastOf(times: seq<real>, count: nat): seq<real> {
    if |times| <= count then times else times[|times| - count..]
  }

  function StartTimes(calls: seq<Call>): seq<real> {
    if calls == [] then []
    else
      StartTimes(calls[..|calls| - 1])
      + match calls[|calls| - 1]
        case Started(_, now) => [now]
        case _ => []
  }

  /** The deque holds the last 200 start times ever recorded. */
  lemma {:induction false} DequeHoldsLast(calls: seq<Call>)
    ensures After(calls).recent == LastOf(StartTimes(calls), 200)
  {
    if calls != [] { DequeHoldsLast(calls[..|calls| - 1]); }
  }

  /** Each time is at least the one before. */
  predicate Nondecreasing(times: seq<real>) {
    forall i, j | 0 <= i < j < |times| :: times[i] <= times[j]
  }

  lemma {:induction false} RecentBound(times: seq<real>, now: real)
    ensures Recent(times, now) <= |times|
  {
    if times != [] { RecentBound(times[..|times| - 1], now); }
  }

  lemma {:induction false} RecentConcat(a: seq<real>, b: seq<real>, now: real)
    ensures Recent(a + b, now) == Recent(a, now) + Recent(b, now)
  {
    if b == [] {
      assert a + b == a;
    } else {
      RecentConcat(a, b[..|b| - 1], now);
      assert (a + b)[..|a + b| - 1] == a + b[..|b| - 1];
    }
  }

  lemma {:induction false} AllRecent(times: seq<real>, now: real)
    requires forall i | 0 <= i < |times| :: now - times[i] < WINDOW
    ensures Recent(times, now) == |times|
  {
    if times != [] { AllRecent(times[..|times| - 1], now); }
  }

  lemma {:induction false} NoneRecent(times: seq<real>, now: real)
    requires forall i | 0 <= i < |times| :: now - times[i] >= WINDOW
    ensures Recent(times, now) == 0
  {
    if times != [] { NoneRecent(times[..|times| - 1], now); }
  }

  /** With a clock that never goes back, forgetting all but the last 200 starts changes no answer. */
  lemma DequeSuffices(times: seq<real>, active: int, now: real)
    requires Nondecreasing(times)
    ensures RateCheck(LastOf(times, DEQUE_LENGTH), active, now) == RateCheck(times, active, now)
  {
    hide Recent;
    if |times| > DEQUE_LENGTH {
      var cut := |times| - DEQUE_LENGTH;
      var front, back := times[..cut], times[cut..];
      assert times == front + back;
      RecentConcat(front, back, now);
      if now - back[0] < WINDOW {
        AllRecent(back, now);
      } else {
        NoneRecent(front, now);
      }
    }
  }

  /** How many of the times are no earlier than t. */
  function AtLeast(times: seq<real>, t: real): nat {
    if times == [] then 0
    else AtLeast(times[..|times| - 1], t) + if times[|times| - 1] >= t then 1 else 0
  }

  lemma {:induction false} RecentIsAtLeast(times: seq<real>, now: real, t: real)
    requires forall i | 0 <= i < |times| :: now - times[i] < WINDOW <==> times[i] >= t
    ensures Recent(times, now) == AtLeast(times, t)
  {
    if times != [] { RecentIsAtLeast(times[..|times| - 1], now, t); }
  }

  /** A reading of the clock at which exactly the times from t on are recent. */
  lemma {:induction false} ClockFor(times: seq<real>, t: real) returns (now: real)
    ensures forall i | 0 <= i < |times| :: now - times[i] < WINDOW <==> times[i] >= t
    ensures now - WINDOW < t
  {
    if times == [] {
      now := t;
    } else {
      var last := times[|times| - 1];
      now := ClockFor(times[..|times| - 1], t);
      if last < t && last > now - WINDOW { now := last + WINDOW; }
    }
  }

  /** The earliest recent time. */
  lemma {:induction false} EarliestRecent(times: seq<real>, now: real) returns (t: real)
    requires Recent(times, now) > 0
    ensures t in times && forall i | 0 <= i < |times| :: now - times[i] < WINDOW <==> times[i] >= t
  {
    var init, last := times[..|times| - 1], times[|times| - 1];
    if Recent(init, now) > 0 {
      t := EarliestRecent(init, now);
      assert t in init;
      if now - last < WINDOW && last < t { t := last; }
    } else {
      NoRecentOnes(init, now);
      t := last;
    }
  }

  lemma {:induction false} NoRecentOnes(times: seq<real>, now: real)
    requires Recent(times, now) == 0
    ensures forall i | 0 <= i < |times| :: now - times[i] >= WINDOW
  {
    if times != [] { NoRecentOnes(times[..|times| - 1], now); }
  }

  ghost predicate SameAnswers(times: seq<real>) {
    forall active, now :: RateCheck(LastOf(times, DEQUE_LENGTH), active, now) == RateCheck(times, active, now)
  }

  /** Of the five latest times, by the clock, enough are among the last two hundred recorded. */
  ghost predicate LatestKept(times: seq<real>) {
    forall t | t in times && AtLeast(times, t) >= MAX_STARTS :: AtLeast(LastOf(times, DEQUE_LENGTH), t) >= MAX_STARTS
  }

  lemma LastPart(times: seq<real>)
    ensures var last := LastOf(times, DEQUE_LENGTH);
      exists cut: nat :: cut <= |times| && last == times[cut..]
  {
    assert times[0..] == times;
    assert |times| > DEQUE_LENGTH ==> LastOf(times, DEQUE_LENGTH) == times[|times| - DEQUE_LENGTH..];
  }

  lemma LastIsLess(times: seq<real>, now: real)
    ensures Recent(LastOf(times, DEQUE_LENGTH), now) <= Recent(times, now)
  {
    LastPart(times);
    var cut: nat :| cut <= |times| && LastOf(times, DEQUE_LENGTH) == times[cut..];
    assert times == times[..cut] + times[cut..];
    RecentConcat(times[..cut], times[cut..], now);
  }

  /** At this reading both counts are counts of the times from t on. */
  lemma BothCounts(times: seq<real>, now: real, t: real)
    requires forall i | 0 <= i < |times| :: now - times[i] < WINDOW <==> times[i] >= t
    ensures Recent(times, now) == AtLeast(times, t)
    ensures Recent(LastOf(times, DEQUE_LENGTH), now) == AtLeast(LastOf(times, DEQUE_LENGTH), t)
  {
    hide Recent, AtLeast;
    LastPart(times);
    var cut: nat :| cut <= |times| && LastOf(times, DEQUE_LENGTH) == times[cut..];
    RecentIsAtLeast(times, now, t);
    forall i | 0 <= i < |times[cut..]| ensures now - times[cut..][i] < WINDOW <==> times[cut..][i] >= t {
      assert times[cut..][i] == times[cut + i];
    }
    RecentIsAtLeast(times[cut..], now, t);
  }

  /** Whatever the clock does: the deque answers every question as the whole history would, if and only if for
      each recorded time that five or more are no earlier than, five such are among the last 200 recorded. */
  lemma DequeExactIff(times: seq<real>)
    ensures SameAnswers(times) <==> LatestKept(times)
  {
    hide Recent, AtLeast, LastOf;
    if SameAnswers(times) {
      forall t | t in times && AtLeast(times, t) >= MAX_STARTS
        ensures AtLeast(LastOf(times, DEQUE_LENGTH), t) >= MAX_STARTS
      {
        var now := ClockFor(times, t);
        BothCounts(times, now, t);
        assert RateCheck(LastOf(times, DEQUE_LENGTH), 0, now) == RateCheck(times, 0, now);
      }
    }
    if LatestKept(times) {
      forall active, now ensures RateCheck(LastOf(times, DEQUE_LENGTH), active, now) == RateCheck(times, active, now) {
        LastIsLess(times, now);
        if Recent(times, now) >= MAX_STARTS {
          var t := EarliestRecent(times, now);
          BothCounts(times, now, t);
        }
      }
    }
  }

  /** They differ after a clock is set back: five starts at time 100 are forgotten behind two hundred at time 0. */
  lemma ClockSetBack() returns (times: seq<real>)
    ensures !RateCheck(times, 0, 100.0).allowed && RateCheck(LastOf(times, DEQUE_LENGTH), 0, 100.0).allowed
  {
    hide Recent;
    var late, early := seq(5, i => 100.0), seq(200, i => 0.0);
    times := late + early;
    assert LastOf(times, DEQUE_LENGTH) == early;
    RecentConcat(late, early, 100.0);
    AllRecent(late, 100.0);
    NoneRecent(early, 100.0);
  }

  // ---------------------------------------------------------------- checks and starts interleaved

  /** A checked start is allowed first and recorded later; `pending` have been allowed and neither recorded
      nor given up.  `unchecked` are the times of the starts that nobody asked for. */
  datatype State = State(starts: seq<real>, unchecked: seq<real>, pending: nat, clock: real)

  /** The rate check is asked by some callers and not by others: an autonomous run asks and then starts, or
      gives up on the way; running or rerunning a workflow starts without asking. */
  datatype Event = Ask(now: real, active: int) | Start(now: real) | GiveUp(now: real) | StartUnasked(now: real)

  const IDLE: State := State([], [], 0, 0.0)

  predicate CanStep(s: State, e: Event) {
    s.clock <= e.now && (e.Start? || e.GiveUp? ==> s.pending > 0)
  }

  function Step(s: State, e: Event): State
    requires CanStep(s, e)
  {
    match e
    case Ask(now, active) =>
      var allowed := RateCheck(LastOf(s.starts, DEQUE_LENGTH), active, now).allowed;
      s.(pending := if allowed then s.pending + 1 else s.pending, clock := now)
    case Start(now) => s.(starts := s.starts + [now], pending := s.pending - 1, clock := now)
    case GiveUp(now) => s.(pending := s.pending - 1, clock := now)
    case StartUnasked(now) => s.(starts := s.starts + [now], unchecked := s.unchecked + [now], clock := now)
  }

  /** Events that can happen one after another from `s`, with at most `most` allowed starts outstanding. */
  predicate CanRun(s: State, events: seq<Event>, most: nat)
    decreases |events|
  {
    s.pending <= most && (events != [] ==> CanStep(s, events[0]) && CanRun(Step(s, events[0]), events[1..], most))
  }

  function RunFrom(s: State, events: seq<Event>, most: nat): State
    requires CanRun(s, events, most)
    decreases |events|
  {
    if events == [] then s else RunFrom(Step(s, events[0]), events[1..], most)
  }

  /** How many of the times lie in [from, from + 60). */
  function InWindow(times: seq<real>, from: real): nat {
    if times == [] then 0
    else InWindow(times[..|times| - 1], from)
         + if from <= times[|times| - 1] < from + WINDOW then 1 else 0
  }

  lemma InWindowSnoc(times: seq<real>, now: real, from: real)
    ensures InWindow(times + [now], from) == InWindow(times, from) + if from <= now < from + WINDOW then 1 else 0
  {
    assert (times + [now])[..|times|] == times;
  }

  /** Starts made in a window and, while it is open, starts allowed but not yet made: never over the limit
      less one plus the number that may be outstanding plus the starts nobody asked for. */
  ghost predicate WithinLimit(s: State, most: nat, from: real) {
    && Nondecreasing(s.starts) && (forall i | 0 <= i < |s.starts| :: s.starts[i] <= s.clock)
    && InWindow(s.starts, from) + (if s.clock < from + WINDOW then s.pending else 0)
       <= MAX_STARTS - 1 + most + InWindow(s.unchecked, from)
  }

  lemma {:induction false} WindowIsRecent(times: seq<real>, from: real, now: real)
    requires now < from + WINDOW
    ensures InWindow(times, from) <= Recent(times, now)
  {
    if times != [] { WindowIsRecent(times[..|times| - 1], from, now); }
  }

  lemma StepWithinLimit(s: State, e: Event, most: nat, from: real)
    requires CanStep(s, e) && WithinLimit(s, most, from) && Step(s, e).pending <= most
    ensures WithinLimit(Step(s, e), most, from)
  {
    hide InWindow, Recent, LastOf;
    match e
    case Ask(now, active) =>
      DequeSuffices(s.starts, active, now);
      if now < from + WINDOW { WindowIsRecent(s.starts, from, now); }
    case Start(now) =>
      InWindowSnoc(s.starts, now, from);
    case GiveUp(_) =>
    case StartUnasked(now) =>
      InWindowSnoc(s.starts, now, from);
      InWindowSnoc(s.unchecked, now, from);
  }

  lemma {:induction false} RunWithinLimit(s: State, events: seq<Event>, most: nat, from: real)
    requires CanRun(s, events, most) && WithinLimit(s, most, from)
    ensures WithinLimit(RunFrom(s, events, most), most, from)
    decreases |events|
  {
    hide WithinLimit, Step, CanStep;
    if events != [] {
      StepWithinLimit(s, events[0], most, from);
      RunWithinLimit(Step(s, events[0]), events[1..], most, from);
    }
  }

  /** In every run, every window of 60 seconds holds at most 4 starts more than may be outstanding, plus the
      starts in it that nobody asked for. */
  lemma WindowBound(events: seq<Event>, most: nat, from: real)
    requires CanRun(IDLE, events, most)
    ensures var s := RunFrom(IDLE, events, most); InWindow(s.starts, from) <= 4 + most + InWindow(s.unchecked, from)
  {
    RunWithinLimit(IDLE, events, most, from);
  }

  /** When every start is asked for and recorded before anyone asks again, the limit of five holds. */
  lemma LimitHolds(events: seq<Event>, from: real)
    requires CanRun(IDLE, events, 1) && forall i | 0 <= i < |events| :: !events[i].StartUnasked?
    ensures InWindow(RunFrom(IDLE, events, 1).starts, from) <= MAX_STARTS
  {
    WindowBound(events, 1, from);
    NoneUnchecked(IDLE, events, 1);
  }

  lemma {:induction false} NoneUnchecked(s: State, events: seq<Event>, most: nat)
    requires CanRun(s, events, most) && forall i | 0 <= i < |events| :: !events[i].StartUnasked?
    ensures RunFrom(s, events, most).unchecked == s.unchecked
    decreases |events|
  {
    hide RateCheck, LastOf;
    if events != [] { NoneUnchecked(Step(s, events[0]), events[1..], most); }
  }

  // ---------------------------------------------------------------- the bound is reached

  predicate AtZero(s: State) {
    && s.clock == 0.0
    && (forall i | 0 <= i < |s.starts| :: s.starts[i] == 0.0)
         && (forall i | 0 <= i < |s.unchecked| :: s.unchecked[i] == 0.0)
  }

  lemma {:induction false} AllInWindow(times: seq<real>)
    requires forall i | 0 <= i < |times| :: times[i] == 0.0
    ensures InWindow(times, 0.0) == |times|
  {
    if times != [] { AllInWindow(times[..|times| - 1]); }
  }

  /** A run at time 0 that ends with so many starts, of which so many nobody asked for. */
  ghost predicate Reaches(s: State, events: seq<Event>, most: nat, starts: nat, unchecked: nat) {
    && CanRun(s, events, most) && AtZero(RunFrom(s, events, most))
    && |RunFrom(s, events, most).starts| == starts && |RunFrom(s, events, most).unchecked| == unchecked
  }

  lemma Prepend(s: State, e: Event, later: seq<Event>, most: nat, starts: nat, unchecked: nat)
    requires CanStep(s, e) && s.pending <= most && Reaches(Step(s, e), later, most, starts, unchecked)
    ensures Reaches(s, [e] + later, most, starts, unchecked)
  {
    hide Step, CanStep, AtZero;
    assert ([e] + later)[1..] == later;
  }

  lemma AskAllowed(s: State)
    requires AtZero(s) && |s.starts| <= 4
    ensures CanStep(s, Ask(0.0, 0)) && Step(s, Ask(0.0, 0)) == s.(pending := s.pending + 1)
  {
    RecentBound(LastOf(s.starts, DEQUE_LENGTH), 0.0);
  }

  /** So many starts at time 0 that nobody asks for. */
  lemma {:induction false} StartAllUnasked(s: State, most: nat, extra: nat) returns (events: seq<Event>)
    requires AtZero(s) && s.pending <= most
    ensures Reaches(s, events, most, |s.starts| + extra, |s.unchecked| + extra)
    ensures |events| == extra && forall i | 0 <= i < extra :: events[i] == StartUnasked(0.0)
    decreases extra
  {
    if extra == 0 {
      events := [];
    } else {
      var later := StartAllUnasked(Step(s, StartUnasked(0.0)), most, extra - 1);
      Prepend(s, StartUnasked(0.0), later, most, |s.starts| + extra, |s.unchecked| + extra);
      events := [StartUnasked(0.0)] + later;
    }
  }

  /** From here, every pending start is recorded at time 0, and then the others. */
  lemma {:induction false} RecordAll(s: State, most: nat, extra: nat) returns (events: seq<Event>)
    requires AtZero(s) && s.pending <= most
    ensures Reaches(s, events, most, |s.starts| + s.pending + extra, |s.unchecked| + extra)
    decreases s.pending
  {
    hide Reaches;
    if s.pending == 0 {
      events := StartAllUnasked(s, most, extra);
    } else {
      var later := RecordAll(Step(s, Start(0.0)), most, extra);
      Prepend(s, Start(0.0), later, most, |s.starts| + s.pending + extra, |s.unchecked| + extra);
      events := [Start(0.0)] + later;
    }
  }

  /** From four recorded starts, checks without a recording in between are all allowed. */
  lemma {:induction false} AskAll(s: State, most: nat, extra: nat) returns (events: seq<Event>)
    requires AtZero(s) && |s.starts| == 4 && s.pending <= most
    ensures Reaches(s, events, most, 4 + most + extra, |s.unchecked| + extra)
    decreases most - s.pending
  {
    hide Reaches;
    if s.pending == most {
      events := RecordAll(s, most, extra);
    } else {
      AskAllowed(s);
      var later := AskAll(Step(s, Ask(0.0, 0)), most, extra);
      Prepend(s, Ask(0.0, 0), later, most, 4 + most + extra, |s.unchecked| + extra);
      events := [Ask(0.0, 0)] + later;
    }
  }

  /** One start after another until four are recorded. */
  lemma {:induction false} FillFour(s: State, most: nat, extra: nat) returns (events: seq<Event>)
    requires AtZero(s) && |s.starts| <= 4 && s.pending == 0 && most >= 1
    ensures Reaches(s, events, most, 4 + most + extra, |s.unchecked| + extra)
    decreases 4 - |s.starts|
  {
    hide RateCheck, LastOf, Reaches;
    if |s.starts| == 4 {
      events := AskAll(s, most, extra);
    } else {
      AskAllowed(s);
      var asked := Step(s, Ask(0.0, 0));
      var later := FillFour(Step(asked, Start(0.0)), most, extra);
      Prepend(asked, Start(0.0), later, most, 4 + most + extra, |s.unchecked| + extra);
      Prepend(s, Ask(0.0, 0), [Start(0.0)] + later, most, 4 + most + extra, |s.unchecked| + extra);
      events := [Ask(0.0, 0)] + ([Start(0.0)] + later);
    }
  }

  /** The bound cannot be lowered: for every number that may be outstanding and every number of starts that
      nobody asks for, some run reaches it. */
  lemma WindowBoundReached(most: nat, extra: nat) returns (events: seq<Event>)
    requires most >= 1
    ensures CanRun(IDLE, events, most)
    ensures var s := RunFrom(IDLE, events, most);
      InWindow(s.unchecked, 0.0) == extra && InWindow(s.starts, 0.0) == 4 + most + extra
  {
    events := FillFour(IDLE, most, extra);
    AllInWindow(RunFrom(IDLE, events, most).starts);
    AllInWindow(RunFrom(IDLE, events, most).unchecked);
  }

  /** Starts that nobody asks for are not limited at all: six of them, or any other number, fall into one
      window with nothing outstanding. */
  lemma UnaskedUnlimited(count: nat) returns (events: seq<Event>)
    ensures |events| == count && forall i | 0 <= i < count :: events[i] == StartUnasked(0.0)
    ensures CanRun(IDLE, events, 0) && InWindow(RunFrom(IDLE, events, 0).starts, 0.0) == count
  {
    events := StartAllUnasked(IDLE, 0, count);
    AllInWindow(RunFrom(IDLE, events, 0).starts);
  }

  lemma SixUnasked() returns (events: seq<Event>)
    ensures |events| == 6 && CanRun(IDLE, events, 0)
    ensures InWindow(RunFrom(IDLE, events, 0).starts, 0.0) > MAX_STARTS
  {
    events := UnaskedUnlimited(6);
  }
}
