/** Runtime state per vendor: circuit breaker, quota marks and the guard that reads them. */
module Runtime {
  import opened Budgets
  import opened Counters
  import opened MapSums
  import opened Providers
  import opened Windows
  import opened Wrappers

  /** The pseudo-vendor that stands for calls spread over the chain RPC vendors, which have states of their own. */
  const COMPOSITE_VENDOR := "rpc"

  datatype Breaker = Closed(consecutive: nat) | Open(until: int) | HalfOpen(probing: bool)

  datatype RateLimitSnapshot = RateLimitSnapshot(
    limit: Option<nat>, remaining: Option<nat>, resetAfter: Option<nat>, retryAfter: Option<nat>)

  datatype VendorState = VendorState(
    breaker: Breaker,
    ok: nat,
    failed: nat,
    lastError: Option<ProviderError>,
    exhaustedUntil: Option<int>,
    lastRateLimit: Option<(RateLimitSnapshot, int)>)

  const FRESH := VendorState(Closed(0), 0, 0, None, None, None)

  /** Breaker settings; instants and durations are in nanoseconds. */
  datatype Config = Config(threshold: nat, cooldown: nat)

  const SECOND := 1_000_000_000

  /** Durations beyond the date library's range become zero. */
  function AsDuration(d: nat): nat {
    if d <= 9_223_372_036_854_775_807_000_000 then d else 0
  }

  function Allowing(s: VendorState, now: int): (VendorState, bool) {
    match s.breaker
    case Closed(_) => (s, true)
    case Open(until) => if now >= until then (s.(breaker := HalfOpen(true)), true) else (s, false)
    case HalfOpen(probing) => if probing then (s, false) else (s.(breaker := HalfOpen(true)), true)
  }

  /** A result is `None` for success. `now` is the monotonic clock, `wall` the wall clock. */
  function Recording(cfg: Config, vendor: string, s: VendorState, result: Option<ProviderError>, now: int, wall: int)
    : VendorState
  {
    var composite := vendor == COMPOSITE_VENDOR;
    match result
    case None => s.(ok := s.ok + 1, breaker := Closed(0))
    case Some(e) =>
      var s := s.(lastError := Some(e));
      if e.IsBreakerFailure() then
        var s := s.(failed := s.failed + 1);
        if composite then s
        else if s.breaker.Closed? && s.breaker.consecutive + 1 < cfg.threshold then
          s.(breaker := Closed(s.breaker.consecutive + 1))
        else s.(breaker := Open(now + cfg.cooldown))
      else
        var s := s.(breaker := Closed(0));
        match e
        case RateLimited(after) =>
          if composite then s
          else s.(exhaustedUntil := Some(wall + AsDuration(if after.Some? then after.value else 10 * SECOND)))
        case QuotaExhausted(resets) =>
          if composite then s
          else s.(exhaustedUntil := Some(if resets.Some? then resets.value else wall + 3600 * SECOND))
        case _ => s
  }

  function Limiting(s: VendorState, snap: RateLimitSnapshot, wall: int): VendorState {
    var marked :=
      if snap.remaining == Some(0) || snap.retryAfter.Some? then
        var d := if snap.retryAfter.Some? then snap.retryAfter.value
                 else if snap.resetAfter.Some? then snap.resetAfter.value else 60 * SECOND;
        s.(exhaustedUntil := Some(wall + AsDuration(d)))
      else s;
    marked.(lastRateLimit := Some((snap, wall)))
  }

  datatype Block = Exhausted | Reserve

  predicate Reached(limit: Option<U64>, used: int) {
    limit.Some? && used >= limit.value
  }

  /** The budget part of the guard. */
  predicate OverBudget(totals: map<TotalKey, int>, vendor: string, b: EffectiveBudget, wall: int) {
    || Reached(b.effective.daily, At(totals, (vendor, DayKey(wall))))
    || Reached(b.effective.monthly, At(totals, (vendor, MonthKey(wall))))
  }

  function Blocking(s: VendorState, totals: map<TotalKey, int>, vendor: string, budget: Option<EffectiveBudget>, wall: int)
    : Option<Block>
  {
    if s.exhaustedUntil.Some? && s.exhaustedUntil.value > wall then Some(Exhausted)
    else if budget.None? || budget.value.onExhausted == AllowOverage then None
    else if OverBudget(totals, vendor, budget.value, wall) then Some(Reserve)
    else None
  }

  function StateOf(vendors: map<string, VendorState>, vendor: string): VendorState {
    if vendor in vendors then vendors[vendor] else FRESH
  }

  /** Consecutive failures as shown on the dashboard. */
  function ShownFailures(cfg: Config, s: VendorState): nat {
    if s.breaker.Closed? then s.breaker.consecutive else cfg.threshold
  }

  datatype Health = Health(ok: nat, failed: nat, consecutiveFailures: nat, exhaustedUntil: Option<int>, dayUsed: int, monthUsed: int)

  class RuntimeState {
    const cfg: Config
    const store: InMemoryCounterStore
    var vendors: map<string, VendorState>

    constructor (store: InMemoryCounterStore, threshold: nat, cooldown: nat)
      ensures this.store == store && vendors == map[]
      ensures cfg == Config(if threshold > 1 then threshold else 1, cooldown)
    {
      this.store, vendors := store, map[];
      cfg := Config(if threshold > 1 then threshold else 1, cooldown);
    }

    /** The breaker's verdict on one more request. Granting a probe turns an open breaker half open. */
    method BreakerAllows(vendor: string, now: int) returns (allowed: bool)
      modifies this`vendors
      ensures vendors == old(vendors)[vendor := Allowing(StateOf(old(vendors), vendor), now).0]
      ensures allowed == Allowing(StateOf(old(vendors), vendor), now).1
    {
      var s := StateOf(vendors, vendor);
      match s.breaker {
        case Closed(_) =>
          allowed := true;
        case Open(until) =>
          allowed := now >= until;
          if allowed {
            s := s.(breaker := HalfOpen(true));
          }
        case HalfOpen(probing) =>
          allowed := !probing;
          s := s.(breaker := HalfOpen(true));
      }
      vendors := vendors[vendor := s];
    }

    /** The guard's verdict on a vendor: first its exhaustion mark, then what its budgets leave. */
    method QuotaBlock(vendor: string, budget: Option<EffectiveBudget>, wall: int) returns (r: Option<Block>)
      modifies this`vendors
      ensures vendors == old(vendors)[vendor := StateOf(old(vendors), vendor)]
      ensures r == Blocking(StateOf(old(vendors), vendor), store.totals, vendor, budget, wall)
    {
      var s := StateOf(vendors, vendor);
      vendors := vendors[vendor := s];
      if s.exhaustedUntil.Some? && s.exhaustedUntil.value > wall {
        return Some(Exhausted);
      }
      if budget.None? {
        return None;
      }
      var b := budget.value;
      if b.onExhausted == AllowOverage {
        return None;
      }
      var day := store.Total(vendor, DayKey(wall));
      var month := store.Total(vendor, MonthKey(wall));
      if Reached(b.effective.daily, day) || Reached(b.effective.monthly, month) {
        return Some(Reserve);
      }
      return None;
    }

    /** Bookkeeping after one call. */
    method Record(vendor: string, result: Option<ProviderError>, now: int, wall: int)
      modifies this`vendors
      ensures vendors == old(vendors)[vendor := Recording(cfg, vendor, StateOf(old(vendors), vendor), result, now, wall)]
    {
      var s := StateOf(vendors, vendor);
      var composite := vendor == COMPOSITE_VENDOR;
      var breakerFailure := false;
      if result.Some? {
        var e := result.value;
        s := s.(lastError := Some(e));
        match e
        case RateLimited(after) =>
          if !composite {
            s := s.(exhaustedUntil := Some(wall + AsDuration(if after.Some? then after.value else 10 * SECOND)));
          }
        case QuotaExhausted(resets) =>
          if !composite {
            s := s.(exhaustedUntil := Some(if resets.Some? then resets.value else wall + 3600 * SECOND));
          }
        case Invalid =>
        case NotFound =>
        case Transient => breakerFailure := true;
        case Fatal => breakerFailure := true;
        case Unsupported => breakerFailure := true;
      }
      if breakerFailure {
        s := s.(failed := s.failed + 1);
        if !composite {
          if s.breaker.Closed? && s.breaker.consecutive + 1 < cfg.threshold {
            s := s.(breaker := Closed(s.breaker.consecutive + 1));
          } else {
            s := s.(breaker := Open(now + cfg.cooldown));
          }
        }
      } else {
        if result.None? {
          s := s.(ok := s.ok + 1);
        }
        s := s.(breaker := Closed(0));
      }
      vendors := vendors[vendor := s];
    }

    method RecordRateLimit(vendor: string, snap: RateLimitSnapshot, wall: int)
      modifies this`vendors
      ensures vendors == old(vendors)[vendor := Limiting(StateOf(old(vendors), vendor), snap, wall)]
    {
      var s := StateOf(vendors, vendor);
      if snap.remaining == Some(0) || snap.retryAfter.Some? {
        var d := 60 * SECOND;
        if snap.retryAfter.Some? {
          d := snap.retryAfter.value;
        } else if snap.resetAfter.Some? {
          d := snap.resetAfter.value;
        }
        s := s.(exhaustedUntil := Some(wall + AsDuration(d)));
      }
      vendors := vendors[vendor := s.(lastRateLimit := Some((snap, wall)))];
    }

    method ReadHealth(vendor: string, wall: int) returns (h: Health)
      modifies this`vendors
      ensures vendors == old(vendors)[vendor := StateOf(old(vendors), vendor)]
      ensures var s := StateOf(old(vendors), vendor);
              && h.ok == s.ok && h.failed == s.failed
              && h.consecutiveFailures == ShownFailures(cfg, s)
              && (h.exhaustedUntil.Some? <==> s.exhaustedUntil.Some? && s.exhaustedUntil.value > wall)
              && (h.exhaustedUntil.Some? ==> h.exhaustedUntil == s.exhaustedUntil)
              && h.dayUsed == At(store.totals, (vendor, DayKey(wall)))
              && h.monthUsed == At(store.totals, (vendor, MonthKey(wall)))
    {
      var s := StateOf(vendors, vendor);
      vendors := vendors[vendor := s];
      var day := store.Total(vendor, DayKey(wall));
      var month := store.Total(vendor, MonthKey(wall));
      var until := if s.exhaustedUntil.Some? && s.exhaustedUntil.value > wall then s.exhaustedUntil else None;
      h := Health(s.ok, s.failed, ShownFailures(cfg, s), until, day, month);
    }
  }
}
