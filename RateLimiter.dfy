/** `LLMRateLimiter`: per-model request and token counters over a
    one-minute and a one-day window, reset lazily when a window has passed.
    Time is an explicit `now` in microseconds; the asyncio lock is left out
    (each operation runs as one critical section). The nested
    `usage_trackers[model][window]` dict is keyed here by the pair. */
module RateLimiter {
  import opened Wrappers
  import opened Text

  datatype RateLimit = RateLimit(requestsPerMinute: int, tokensPerMinute: int, requestsPerDay: int, tokensPerDay: int)

  datatype UsageTracker = UsageTracker(requestsCount: int, tokensCount: int, lastReset: Instant)

  datatype Window = Minute | Daily

  type Trackers = map<(string, Window), UsageTracker>

  function WindowSeconds(w: Window): nat {
    match w
    case Minute => 60
    case Daily => 24 * 3600
  }

  /** The limits of each window of a configuration. */
  function RequestLimit(l: RateLimit, w: Window): int {
    match w
    case Minute => l.requestsPerMinute
    case Daily => l.requestsPerDay
  }

  function TokenLimit(l: RateLimit, w: Window): int {
    match w
    case Minute => l.tokensPerMinute
    case Daily => l.tokensPerDay
  }

  const DefaultRateLimits: map<string, RateLimit> := map[
    "gpt-4o" := RateLimit(500, 30000, 10000, 1000000),
    "gpt-4" := RateLimit(200, 10000, 5000, 500000),
    "gpt-3.5-turbo" := RateLimit(3500, 90000, 50000, 2000000)]

  /** A new `UsageTracker()`: empty, its window starting now. */
  function FreshTracker(now: Instant): UsageTracker { UsageTracker(0, 0, now) }

  /** The tracker `_get_tracker` hands back: the stored one, or a fresh one. */
  function Fetch(ts: Trackers, model: string, w: Window, now: Instant): UsageTracker {
    if (model, w) in ts then ts[(model, w)] else FreshTracker(now)
  }

  /** `_reset_if_needed`: the window restarts when strictly more than its
      length has passed since the last reset. */
  function ResetIfNeeded(t: UsageTracker, windowSeconds: nat, now: Instant): UsageTracker {
    if now - t.lastReset > windowSeconds * MicrosPerSecond then FreshTracker(now) else t
  }

  /** A reset tracker is not reset again at the same instant. */
  lemma ResetIdempotent(t: UsageTracker, windowSeconds: nat, now: Instant)
    ensures ResetIfNeeded(ResetIfNeeded(t, windowSeconds, now), windowSeconds, now) == ResetIfNeeded(t, windowSeconds, now)
  {
  }

  /** The window boundary is exclusive: exactly one window after the last
      reset nothing changes, one microsecond later the counts restart. */
  lemma ResetBoundary(t: UsageTracker, windowSeconds: nat)
    ensures ResetIfNeeded(t, windowSeconds, t.lastReset + windowSeconds * MicrosPerSecond) == t
    ensures var later := t.lastReset + windowSeconds * MicrosPerSecond + 1;
      ResetIfNeeded(t, windowSeconds, later) == UsageTracker(0, 0, later)
  {
  }

  /** `_get_tracker` followed by `_reset_if_needed` on one window. */
  function Touch(ts: Trackers, model: string, w: Window, now: Instant): Trackers {
    ts[(model, w) := ResetIfNeeded(Fetch(ts, model, w, now), WindowSeconds(w), now)]
  }

  datatype Decision = Decision(allowed: bool, reason: string)

  /** `_can_make_request`, with the trackers it creates and resets on the
      way. The daily window is looked at only once the minute checks pass. */
  function CanMakeRequest(limits: map<string, RateLimit>, ts: Trackers, model: string, estimatedTokens: int, now: Instant)
    : (Decision, Trackers)
  {
    if model !in limits then (Decision(true, ""), ts)
    else
      var l := limits[model];
      var ts1 := Touch(ts, model, Minute, now);
      var m := ts1[(model, Minute)];
      if m.requestsCount >= l.requestsPerMinute then
        (Decision(false, "Minute request limit (" + IntString(l.requestsPerMinute) + ") exceeded"), ts1)
      else if m.tokensCount + estimatedTokens > l.tokensPerMinute then
        (Decision(false, "Minute token limit (" + IntString(l.tokensPerMinute) + ") would be exceeded"), ts1)
      else
        var ts2 := Touch(ts1, model, Daily, now);
        var d := ts2[(model, Daily)];
        if d.requestsCount >= l.requestsPerDay then
          (Decision(false, "Daily request limit (" + IntString(l.requestsPerDay) + ") exceeded"), ts2)
        else if d.tokensCount + estimatedTokens > l.tokensPerDay then
          (Decision(false, "Daily token limit (" + IntString(l.tokensPerDay) + ") would be exceeded"), ts2)
        else (Decision(true, ""), ts2)
  }

  /** One request of `estimatedTokens` reserved against a window. */
  function Charge(t: UsageTracker, estimatedTokens: int): UsageTracker {
    t.(requestsCount := t.requestsCount + 1, tokensCount := t.tokensCount + estimatedTokens)
  }

  /** `acquire`: check, then reserve in both windows. */
  function Acquire(limits: map<string, RateLimit>, ts: Trackers, model: string, estimatedTokens: int, now: Instant)
    : (bool, Trackers)
  {
    var (d, ts1) := CanMakeRequest(limits, ts, model, estimatedTokens, now);
    if !d.allowed then (false, ts1)
    else
      var ts2 := ts1[(model, Minute) := Charge(Fetch(ts1, model, Minute, now), estimatedTokens)];
      (true, ts2[(model, Daily) := Charge(Fetch(ts2, model, Daily, now), estimatedTokens)])
  }

  /** `record_actual_usage`: the token counts of both windows move by the
      difference between actual and estimated use. */
  function RecordActualUsage(ts: Trackers, model: string, actualTokens: int, estimatedTokens: int, now: Instant): Trackers {
    var diff := actualTokens - estimatedTokens;
    var m := Fetch(ts, model, Minute, now);
    var ts1 := ts[(model, Minute) := m.(tokensCount := m.tokensCount + diff)];
    var d := Fetch(ts1, model, Daily, now);
    ts1[(model, Daily) := d.(tokensCount := d.tokensCount + diff)]
  }

  // ---------------------------------------------------------------------
  // Properties

  /** The tracker of a window after its reset at `now`. */
  function Current(ts: Trackers, model: string, w: Window, now: Instant): UsageTracker {
    ResetIfNeeded(Fetch(ts, model, w, now), WindowSeconds(w), now)
  }

  /** A model without configured limits is always admitted, and still
      charged in both windows. */
  lemma UnlimitedModelAlwaysAdmitted(limits: map<string, RateLimit>, ts: Trackers, model: string, est: int, now: Instant)
    requires model !in limits
    ensures var (ok, ts') := Acquire(limits, ts, model, est, now);
      ok && ts'[(model, Minute)] == Charge(Fetch(ts, model, Minute, now), est)
      && ts'[(model, Daily)] == Charge(Fetch(ts, model, Daily, now), est)
  {
  }

  /** A limited model is admitted exactly when, after the resets, both
      windows have a request to spare and room for the estimate. */
  lemma AdmissionRule(limits: map<string, RateLimit>, ts: Trackers, model: string, est: int, now: Instant)
    requires model in limits
    ensures var l := limits[model];
      var m := Current(ts, model, Minute, now);
      var d := Current(ts, model, Daily, now);
      Acquire(limits, ts, model, est, now).0 <==>
        m.requestsCount < l.requestsPerMinute && m.tokensCount + est <= l.tokensPerMinute
        && d.requestsCount < l.requestsPerDay && d.tokensCount + est <= l.tokensPerDay
  {
  }

  /** The minute checks come first: a full minute window denies with its
      own reason and leaves the daily tracker untouched. */
  lemma MinuteChecksFirst(limits: map<string, RateLimit>, ts: Trackers, model: string, est: int, now: Instant)
    requires model in limits
    requires Current(ts, model, Minute, now).requestsCount >= limits[model].requestsPerMinute
    ensures var (d, ts') := CanMakeRequest(limits, ts, model, est, now);
      !d.allowed && d.reason == "Minute request limit (" + IntString(limits[model].requestsPerMinute) + ") exceeded"
      && ((model, Daily) in ts' <==> (model, Daily) in ts)
      && ((model, Daily) in ts ==> ts'[(model, Daily)] == ts[(model, Daily)])
  {
  }

  /** An admitted request adds exactly one request and the estimate to both
      windows (after their resets); every other tracker is unchanged. */
  lemma AdmittedCharges(limits: map<string, RateLimit>, ts: Trackers, model: string, est: int, now: Instant)
    requires model in limits && Acquire(limits, ts, model, est, now).0
    ensures var ts' := Acquire(limits, ts, model, est, now).1;
      && ts'[(model, Minute)] == Charge(Current(ts, model, Minute, now), est)
      && ts'[(model, Daily)] == Charge(Current(ts, model, Daily, now), est)
      && (forall k :: k in ts && k.0 != model ==> k in ts' && ts'[k] == ts[k])
      && (forall k :: k in ts' && k.0 != model ==> k in ts)
  {
  }

  /** A denied request changes no count: each tracker is as before or reset. */
  lemma DeniedOnlyResets(limits: map<string, RateLimit>, ts: Trackers, model: string, est: int, now: Instant)
    requires !Acquire(limits, ts, model, est, now).0
    ensures var ts' := Acquire(limits, ts, model, est, now).1;
      && (forall k :: k in ts ==> k in ts')
      && (forall k :: k in ts' ==>
            (k in ts && ts'[k] == ts[k]) || (k.0 == model && ts'[k] == Current(ts, model, k.1, now)))
  {
    if model in limits {
      var ts1 := Touch(ts, model, Minute, now);
      if ts1[(model, Minute)].requestsCount < limits[model].requestsPerMinute
         && ts1[(model, Minute)].tokensCount + est <= limits[model].tokensPerMinute {
        assert Current(ts1, model, Daily, now) == Current(ts, model, Daily, now);
      }
    }
  }

  /** Recording moves the token counts of both windows by the difference
      and leaves the request counts alone. */
  lemma RecordAdjustsTokens(ts: Trackers, model: string, actual: int, est: int, now: Instant)
    ensures var ts' := RecordActualUsage(ts, model, actual, est, now);
      forall w: Window ::
        && (model, w) in ts'
        && ts'[(model, w)].tokensCount == Fetch(ts, model, w, now).tokensCount + actual - est
        && ts'[(model, w)].requestsCount == Fetch(ts, model, w, now).requestsCount
        && ts'[(model, w)].lastReset == Fetch(ts, model, w, now).lastReset
  {
    var diff := actual - est;
    var m := Fetch(ts, model, Minute, now);
    var ts1 := ts[(model, Minute) := m.(tokensCount := m.tokensCount + diff)];
    assert Fetch(ts1, model, Daily, now) == Fetch(ts, model, Daily, now);
    var ts' := RecordActualUsage(ts, model, actual, est, now);
    forall w: Window
      ensures (model, w) in ts' && ts'[(model, w)].tokensCount == Fetch(ts, model, w, now).tokensCount + actual - est
    {
      if w == Minute {
        assert ts'[(model, w)] == ts1[(model, Minute)];
      }
    }
  }

  /** Reserving the estimate and then recording the actual use nets the
      actual use in both windows. */
  lemma ReserveThenRecordNetsActual(limits: map<string, RateLimit>, ts: Trackers, model: string, est: int, actual: int, now: Instant, later: Instant)
    requires model in limits && Acquire(limits, ts, model, est, now).0
    ensures var ts' := RecordActualUsage(Acquire(limits, ts, model, est, now).1, model, actual, est, later);
      forall w: Window ::
        && (model, w) in ts'
        && ts'[(model, w)].tokensCount == Current(ts, model, w, now).tokensCount + actual
        && ts'[(model, w)].requestsCount == Current(ts, model, w, now).requestsCount + 1
  {
    AdmittedCharges(limits, ts, model, est, now);
    RecordAdjustsTokens(Acquire(limits, ts, model, est, now).1, model, actual, est, later);
  }

  /** Every tracker of a limited model is within that model's limits. */
  ghost predicate WithinLimits(limits: map<string, RateLimit>, ts: Trackers) {
    forall k :: k in ts && k.0 in limits ==>
      ts[k].requestsCount <= RequestLimit(limits[k.0], k.1) && ts[k].tokensCount <= TokenLimit(limits[k.0], k.1)
  }

  predicate NonNegativeLimits(limits: map<string, RateLimit>) {
    forall m :: m in limits ==>
      limits[m].requestsPerMinute >= 0 && limits[m].tokensPerMinute >= 0
      && limits[m].requestsPerDay >= 0 && limits[m].tokensPerDay >= 0
  }

  lemma TouchWithinLimits(limits: map<string, RateLimit>, ts: Trackers, model: string, w: Window, now: Instant)
    requires NonNegativeLimits(limits) && WithinLimits(limits, ts)
    ensures WithinLimits(limits, Touch(ts, model, w, now))
  {
  }

  /** While only `acquire` changes the counts, no window of a limited model
      ever holds more requests or tokens than its limits allow. */
  lemma AcquireKeepsWithinLimits(limits: map<string, RateLimit>, ts: Trackers, model: string, est: int, now: Instant)
    requires NonNegativeLimits(limits) && WithinLimits(limits, ts)
    ensures WithinLimits(limits, Acquire(limits, ts, model, est, now).1)
  {
    if model in limits {
      TouchWithinLimits(limits, ts, model, Minute, now);
      var ts1 := Touch(ts, model, Minute, now);
      TouchWithinLimits(limits, ts1, model, Daily, now);
    }
  }

  /** `estimate_tokens`: a quarter of the length, rounded down, plus 100. */
  function EstimateTokens(text: string): (n: nat)
    ensures n >= 100 && 4 * (n - 100) <= |text| < 4 * (n - 100) + 4
  {
    |text| / 4 + 100
  }

  /** Longer text never gets a smaller estimate. */
  lemma EstimateMonotone(a: string, b: string)
    requires |a| <= |b|
    ensures EstimateTokens(a) <= EstimateTokens(b)
  {
  }

  // ---------------------------------------------------------------------
  // rate_limited_llm_call

  /** What the wrapped call did: returned (with `usage.total_tokens` when
      the result carries one), or raised. */
  datatype CallOutcome = Returned(totalTokens: Option<int>) | Raised

  datatype LimitedCall = RateLimited | CallReturned | CallReraised

  /** `rate_limited_llm_call`: nothing is called when `acquire` refuses; a
      raising call gives the reserved tokens back (actual 0) before the
      exception propagates. */
  function RateLimitedCall(limits: map<string, RateLimit>, ts: Trackers, model: string, est: int,
                           outcome: CallOutcome, now: Instant): (LimitedCall, Trackers)
  {
    var (ok, ts1) := Acquire(limits, ts, model, est, now);
    if !ok then (RateLimited, ts1)
    else match outcome
      case Raised => (CallReraised, RecordActualUsage(ts1, model, 0, est, now))
      case Returned(usage) =>
        if usage.Some? then (CallReturned, RecordActualUsage(ts1, model, usage.value, est, now))
        else (CallReturned, ts1)
  }

  /** A failed call keeps its request counted but costs no tokens. */
  lemma FailedCallRefundsTokens(limits: map<string, RateLimit>, ts: Trackers, model: string, est: int, now: Instant)
    requires model in limits && Acquire(limits, ts, model, est, now).0
    ensures var (r, ts') := RateLimitedCall(limits, ts, model, est, Raised, now);
      r == CallReraised
      && forall w: Window ::
        (model, w) in ts'
        && ts'[(model, w)].tokensCount == Current(ts, model, w, now).tokensCount
        && ts'[(model, w)].requestsCount == Current(ts, model, w, now).requestsCount + 1
  {
    ReserveThenRecordNetsActual(limits, ts, model, est, 0, now, now);
  }

  /** A refused call is not made, and its trackers are those the check left. */
  lemma RefusedCallNotMade(limits: map<string, RateLimit>, ts: Trackers, model: string, est: int, outcome: CallOutcome, now: Instant)
    requires !Acquire(limits, ts, model, est, now).0
    ensures RateLimitedCall(limits, ts, model, est, outcome, now) == (RateLimited, CanMakeRequest(limits, ts, model, est, now).1)
  {
  }

  // ---------------------------------------------------------------------
  // The limiter object

  class LLMRateLimiter {
    const rateLimits: map<string, RateLimit>
    var usageTrackers: Trackers

    constructor (rateLimits: map<string, RateLimit>)
      ensures this.rateLimits == rateLimits && usageTrackers == map[]
    {
      this.rateLimits := rateLimits;
      usageTrackers := map[];
    }

    /** `_get_tracker`: creates the tracker on first use. */
    method GetTracker(model: string, w: Window, now: Instant) returns (t: UsageTracker)
      modifies this
      ensures t == Fetch(old(usageTrackers), model, w, now)
      ensures usageTrackers == old(usageTrackers)[(model, w) := t]
    {
      if (model, w) !in usageTrackers {
        usageTrackers := usageTrackers[(model, w) := FreshTracker(now)];
      }
      t := usageTrackers[(model, w)];
    }

    /** `_get_tracker` then `_reset_if_needed`, writing the reset back. */
    method TouchTracker(model: string, w: Window, now: Instant) returns (t: UsageTracker)
      modifies this
      ensures usageTrackers == Touch(old(usageTrackers), model, w, now)
      ensures t == usageTrackers[(model, w)]
    {
      t := GetTracker(model, w, now);
      if now - t.lastReset > WindowSeconds(w) * MicrosPerSecond {
        t := t.(requestsCount := 0, tokensCount := 0, lastReset := now);
        usageTrackers := usageTrackers[(model, w) := t];
      }
    }

    method CanMakeRequestNow(model: string, estimatedTokens: int, now: Instant) returns (allowed: bool, reason: string)
      modifies this
      ensures (Decision(allowed, reason), usageTrackers) == CanMakeRequest(rateLimits, old(usageTrackers), model, estimatedTokens, now)
    {
      if model !in rateLimits {
        return true, "";
      }
      var limits := rateLimits[model];
      var minuteTracker := TouchTracker(model, Minute, now);
      if minuteTracker.requestsCount >= limits.requestsPerMinute {
        return false, "Minute request limit (" + IntString(limits.requestsPerMinute) + ") exceeded";
      }
      if minuteTracker.tokensCount + estimatedTokens > limits.tokensPerMinute {
        return false, "Minute token limit (" + IntString(limits.tokensPerMinute) + ") would be exceeded";
      }
      var dailyTracker := TouchTracker(model, Daily, now);
      if dailyTracker.requestsCount >= limits.requestsPerDay {
        return false, "Daily request limit (" + IntString(limits.requestsPerDay) + ") exceeded";
      }
      if dailyTracker.tokensCount + estimatedTokens > limits.tokensPerDay {
        return false, "Daily token limit (" + IntString(limits.tokensPerDay) + ") would be exceeded";
      }
      return true, "";
    }

    method AcquireNow(model: string, estimatedTokens: int, now: Instant) returns (ok: bool)
      modifies this
      ensures (ok, usageTrackers) == Acquire(rateLimits, old(usageTrackers), model, estimatedTokens, now)
    {
      ghost var ts0 := usageTrackers;
      var canProceed, reason := CanMakeRequestNow(model, estimatedTokens, now);
      if !canProceed {
        return false;
      }
      ghost var ts1 := usageTrackers;
      assert CanMakeRequest(rateLimits, ts0, model, estimatedTokens, now).1 == ts1;
      var minuteTracker := GetTracker(model, Minute, now);
      usageTrackers := usageTrackers[(model, Minute) := Charge(minuteTracker, estimatedTokens)];
      var dailyTracker := GetTracker(model, Daily, now);
      usageTrackers := usageTrackers[(model, Daily) := Charge(dailyTracker, estimatedTokens)];
      ghost var ts2 := ts1[(model, Minute) := Charge(Fetch(ts1, model, Minute, now), estimatedTokens)];
      assert usageTrackers == ts2[(model, Daily) := Charge(Fetch(ts2, model, Daily, now), estimatedTokens)];
      return true;
    }

    method RecordActualUsageNow(model: string, actualTokens: int, estimatedTokens: int, now: Instant)
      modifies this
      ensures usageTrackers == RecordActualUsage(old(usageTrackers), model, actualTokens, estimatedTokens, now)
    {
      var tokenDiff := actualTokens - estimatedTokens;
      var minuteTracker := GetTracker(model, Minute, now);
      usageTrackers := usageTrackers[(model, Minute) := minuteTracker.(tokensCount := minuteTracker.tokensCount + tokenDiff)];
      var dailyTracker := GetTracker(model, Daily, now);
      usageTrackers := usageTrackers[(model, Daily) := dailyTracker.(tokensCount := dailyTracker.tokensCount + tokenDiff)];
    }
  }

  /** `rate_limited_llm_call` against a limiter object. */
  method RateLimitedLlmCall(limiter: LLMRateLimiter, model: string, estimatedTokens: int, outcome: CallOutcome, now: Instant)
    returns (r: LimitedCall)
    modifies limiter
    ensures (r, limiter.usageTrackers)
         == RateLimitedCall(limiter.rateLimits, old(limiter.usageTrackers), model, estimatedTokens, outcome, now)
  {
    var ok := limiter.AcquireNow(model, estimatedTokens, now);
    if !ok {
      return RateLimited;
    }
    match outcome {
      case Raised =>
        limiter.RecordActualUsageNow(model, 0, estimatedTokens, now);
        return CallReraised;
      case Returned(usage) =>
        if usage.Some? {
          limiter.RecordActualUsageNow(model, usage.value, estimatedTokens, now);
        }
        return CallReturned;
    }
  }
}
