/** The circuit breaker as a function of what was recorded, over every interleaving of requests and vendors. */
module BreakerHistory {
  import opened Counters
  import opened Providers
  import opened Runtime
  import opened Wrappers

  datatype Event =
    | Ask(vendor: string, now: int)
    | Outcome(vendor: string, result: Option<ProviderError>, now: int, wall: int)
    | Headers(vendor: string, snap: RateLimitSnapshot, wall: int)

  function Stepping(cfg: Config, vendors: map<string, VendorState>, e: Event): map<string, VendorState> {
    var s := StateOf(vendors, e.vendor);
    vendors[e.vendor :=
      match e
      case Ask(_, now) => Allowing(s, now).0
      case Outcome(v, result, now, wall) => Recording(cfg, v, s, result, now, wall)
      case Headers(_, snap, wall) => Limiting(s, snap, wall)]
  }

  /** The vendors after a history, oldest event first. */
  function Replay(cfg: Config, history: seq<Event>): map<string, VendorState>
    decreases |history|
  {
    if history == [] then map[] else Stepping(cfg, Replay(cfg, history[..|history| - 1]), history[|history| - 1])
  }

  function After(cfg: Config, history: seq<Event>, vendor: string): VendorState {
    StateOf(Replay(cfg, history), vendor)
  }

  // ----- what a history says about one vendor, without the breaker

  /** The vendor was down, broke, or could not do what it is listed for; limits and bad requests are not its failures. */
  predicate IsFailure(result: Option<ProviderError>) {
    match result
    case Some(Transient) => true
    case Some(Fatal) => true
    case Some(Unsupported) => true
    case Some(RateLimited(_)) => false
    case Some(QuotaExhausted(_)) => false
    case Some(NotFound) => false
    case Some(Invalid) => false
    case None => false
  }

  predicate Concerns(e: Event, vendor: string) {
    e.Outcome? && e.vendor == vendor
  }

  /** Failures recorded for the vendor since its last other outcome. */
  function Trailing(history: seq<Event>, vendor: string): nat
    decreases |history|
  {
    if history == [] then 0
    else
      var last, front := history[|history| - 1], history[..|history| - 1];
      if !Concerns(last, vendor) then Trailing(front, vendor)
      else if IsFailure(last.result) then Trailing(front, vendor) + 1
      else 0
  }

  /** When the vendor's last outcome was recorded. */
  function LastOutcome(history: seq<Event>, vendor: string): Option<int>
    decreases |history|
  {
    if history == [] then None
    else
      var last, front := history[|history| - 1], history[..|history| - 1];
      if Concerns(last, vendor) then Some(last.now) else LastOutcome(front, vendor)
  }

  /** Requests admitted to the vendor since its last recorded outcome. */
  function AdmittedSince(cfg: Config, history: seq<Event>, vendor: string): nat
    decreases |history|
  {
    if history == [] then 0
    else
      var last, front := history[|history| - 1], history[..|history| - 1];
      if Concerns(last, vendor) then 0
      else
        AdmittedSince(cfg, front, vendor) +
        if last.Ask? && last.vendor == vendor && Allowing(After(cfg, front, vendor), last.now).1 then 1 else 0
  }

  /** The vendor is closed for business: its trailing failures reached the threshold. */
  predicate Tripped(cfg: Config, history: seq<Event>, vendor: string) {
    Trailing(history, vendor) >= cfg.threshold
  }

  /** The breaker a history calls for. */
  ghost predicate Explained(cfg: Config, history: seq<Event>, vendor: string) {
    var b := After(cfg, history, vendor).breaker;
    if !Tripped(cfg, history, vendor) then b == Closed(Trailing(history, vendor))
    else
      && LastOutcome(history, vendor).Some?
      && match AdmittedSince(cfg, history, vendor) {
           case 0 => b == Open(LastOutcome(history, vendor).value + cfg.cooldown)
           case 1 => b == HalfOpen(true)
           case _ => false
         }
  }

  /** One more event of the vendor itself. */
  lemma LastEvent(cfg: Config, front: seq<Event>, last: Event, vendor: string)
    requires last.vendor == vendor
    ensures var h := front + [last];
            && After(cfg, h, vendor) == StateOf(Stepping(cfg, Replay(cfg, front), last), vendor)
            && Trailing(h, vendor) == (if !last.Outcome? then Trailing(front, vendor)
                                       else if IsFailure(last.result) then Trailing(front, vendor) + 1 else 0)
            && LastOutcome(h, vendor) == (if last.Outcome? then Some(last.now) else LastOutcome(front, vendor))
            && AdmittedSince(cfg, h, vendor) ==
               (if last.Outcome? then 0
                else AdmittedSince(cfg, front, vendor) +
                     if last.Ask? && Allowing(After(cfg, front, vendor), last.now).1 then 1 else 0)
  {
    hide Allowing, Recording, Limiting;
    var h := front + [last];
    assert h[..|h| - 1] == front && h[|h| - 1] == last;
  }

  lemma RecordedBreaker(cfg: Config, vendor: string, s: VendorState, result: Option<ProviderError>, now: int, wall: int)
    requires vendor != COMPOSITE_VENDOR
    ensures Recording(cfg, vendor, s, result, now, wall).breaker ==
            if !IsFailure(result) then Closed(0)
            else if s.breaker.Closed? && s.breaker.consecutive + 1 < cfg.threshold then Closed(s.breaker.consecutive + 1)
            else Open(now + cfg.cooldown)
  {
  }

  lemma StepExplained(cfg: Config, front: seq<Event>, last: Event, vendor: string)
    requires vendor != COMPOSITE_VENDOR && cfg.threshold >= 1
    requires last.vendor == vendor && Explained(cfg, front, vendor)
    ensures Explained(cfg, front + [last], vendor)
  {
    hide Recording, Replay, Trailing, LastOutcome, AdmittedSince, Limiting;
    LastEvent(cfg, front, last, vendor);
    var s := After(cfg, front, vendor);
    match last
    case Ask(_, _) =>
    case Outcome(_, result, now, wall) => RecordedBreaker(cfg, vendor, s, result, now, wall);
    case Headers(_, snap, wall) => LimitedBreaker(s, snap, wall);
  }

  lemma LimitedBreaker(s: VendorState, snap: RateLimitSnapshot, wall: int)
    ensures Limiting(s, snap, wall).breaker == s.breaker
  {
  }

  lemma {:induction false} BreakerExplained(cfg: Config, history: seq<Event>, vendor: string)
    requires vendor != COMPOSITE_VENDOR && cfg.threshold >= 1
    ensures Explained(cfg, history, vendor)
    decreases |history|
  {
    if history != [] {
      var last, front := history[|history| - 1], history[..|history| - 1];
      BreakerExplained(cfg, front, vendor);
      if last.vendor == vendor {
        StepExplained(cfg, front, last, vendor);
        assert history == front + [last];
      } else {
        OtherEvent(cfg, history, vendor);
      }
    }
  }

  lemma OtherEvent(cfg: Config, history: seq<Event>, vendor: string)
    requires history != [] && history[|history| - 1].vendor != vendor
    ensures var front := history[..|history| - 1];
            && After(cfg, history, vendor) == After(cfg, front, vendor)
            && Trailing(history, vendor) == Trailing(front, vendor)
            && LastOutcome(history, vendor) == LastOutcome(front, vendor)
            && AdmittedSince(cfg, history, vendor) == AdmittedSince(cfg, front, vendor)
  {
    hide Allowing, Recording, Limiting;
  }

  /**
   * The breaker as a function of history. For every vendor but the composite one: it is closed with count k exactly when
   * the trailing run of failures is k and below the threshold, health shows that run capped at the threshold, a tripped
   * breaker has admitted at most one request since its last recorded outcome, and it is never half open without a probe.
   */
  lemma BreakerIsHistory(cfg: Config, history: seq<Event>, vendor: string)
    requires vendor != COMPOSITE_VENDOR && cfg.threshold >= 1
    ensures var (s, t) := (After(cfg, history, vendor), Trailing(history, vendor));
            && (forall k: nat :: s.breaker == Closed(k) <==> t == k && t < cfg.threshold)
            && ShownFailures(cfg, s) == (if t < cfg.threshold then t else cfg.threshold)
            && (t >= cfg.threshold ==> AdmittedSince(cfg, history, vendor) <= 1)
            && s.breaker != HalfOpen(false)
  {
    BreakerExplained(cfg, history, vendor);
  }

  /**
   * Which requests get through. After any history the next request to a vendor is admitted exactly if its failures are
   * below the threshold, or nothing was admitted since its last recorded outcome and that outcome is a full cooldown old.
   */
  lemma AdmittedExactly(cfg: Config, history: seq<Event>, vendor: string, now: int)
    requires vendor != COMPOSITE_VENDOR && cfg.threshold >= 1
    ensures Allowing(After(cfg, history, vendor), now).1 <==>
            || !Tripped(cfg, history, vendor)
            || (AdmittedSince(cfg, history, vendor) == 0
                && LastOutcome(history, vendor).Some?
                && now >= LastOutcome(history, vendor).value + cfg.cooldown)
  {
    BreakerExplained(cfg, history, vendor);
  }

  /** The composite vendor is always closed, so it is always let through. */
  lemma {:induction false} CompositeAlwaysClosed(cfg: Config, history: seq<Event>, now: int)
    ensures After(cfg, history, "rpc").breaker == Closed(0)
    ensures Allowing(After(cfg, history, "rpc"), now).1
    decreases |history|
  {
    if history != [] {
      CompositeAlwaysClosed(cfg, history[..|history| - 1], now);
    }
  }

  /** Vendors do not affect one another: only a vendor's own events matter to its state. */
  lemma {:induction false} VendorsIndependent(cfg: Config, history: seq<Event>, vendor: string)
    ensures After(cfg, history, vendor) == After(cfg, Own(history, vendor), vendor)
    decreases |history|
  {
    hide Allowing, Recording, Limiting, Replay;
    if history != [] {
      var last, front := history[|history| - 1], history[..|history| - 1];
      VendorsIndependent(cfg, front, vendor);
      if last.vendor == vendor {
        LastEvent(cfg, front, last, vendor);
        LastEvent(cfg, Own(front, vendor), last, vendor);
        assert history == front + [last];
      } else {
        OtherEvent(cfg, history, vendor);
        assert Own(history, vendor) == Own(front, vendor);
      }
    }
  }

  function Own(history: seq<Event>, vendor: string): seq<Event>
    decreases |history|
  {
    if history == [] then []
    else
      Own(history[..|history| - 1], vendor) +
      if history[|history| - 1].vendor == vendor then [history[|history| - 1]] else []
  }

  /** The success and failure counters only count: every recorded outcome is a success, a failure or neither, once. */
  lemma {:induction false} OutcomesCounted(cfg: Config, history: seq<Event>, vendor: string)
    ensures After(cfg, history, vendor).ok == Outcomes(history, vendor, true)
    ensures After(cfg, history, vendor).failed == Outcomes(history, vendor, false)
    decreases |history|
  {
    if history != [] {
      OutcomesCounted(cfg, history[..|history| - 1], vendor);
    }
  }

  function Outcomes(history: seq<Event>, vendor: string, success: bool): nat
    decreases |history|
  {
    if history == [] then 0
    else
      var last, front := history[|history| - 1], history[..|history| - 1];
      Outcomes(front, vendor, success) +
      if Concerns(last, vendor) && (if success then last.result == None else IsFailure(last.result)) then 1 else 0
  }

  /** Until when an event marks its vendor as exhausted, if it does. */
  function MarkedBy(e: Event): Option<int> {
    match e
    case Ask(_, _) => None
    case Outcome(v, result, _, wall) =>
      if v == COMPOSITE_VENDOR || result.None? then None
      else
        (match result.value
         case RateLimited(Some(d)) => Some(wall + AsDuration(d))
         case RateLimited(None) => Some(wall + 10 * SECOND)
         case QuotaExhausted(Some(t)) => Some(t)
         case QuotaExhausted(None) => Some(wall + 3600 * SECOND)
         case _ => None)
    case Headers(_, RateLimitSnapshot(_, _, _, Some(d)), wall) => Some(wall + AsDuration(d))
    case Headers(_, RateLimitSnapshot(_, Some(left), Some(d), None), wall) => if left == 0 then Some(wall + AsDuration(d)) else None
    case Headers(_, RateLimitSnapshot(_, Some(left), None, None), wall) => if left == 0 then Some(wall + 60 * SECOND) else None
    case Headers(_, _, _) => None
  }

  /** The vendor's latest mark. */
  function LastMark(history: seq<Event>, vendor: string): Option<int>
    decreases |history|
  {
    if history == [] then None
    else
      var last, front := history[|history| - 1], history[..|history| - 1];
      if last.vendor == vendor && MarkedBy(last).Some? then MarkedBy(last) else LastMark(front, vendor)
  }

  lemma OwnMark(cfg: Config, s: VendorState, e: Event)
    ensures (match e
             case Ask(_, now) => Allowing(s, now).0
             case Outcome(v, result, now, wall) => Recording(cfg, v, s, result, now, wall)
             case Headers(_, snap, wall) => Limiting(s, snap, wall)).exhaustedUntil
            == if MarkedBy(e).Some? then MarkedBy(e) else s.exhaustedUntil
  {
  }

  /**
   * The guard as a function of history: a vendor is shut out as exhausted exactly until the end of its latest mark, whether
   * an error or a response header set it; nothing else extends, shortens or lifts it.
   */
  lemma {:induction false} ExhaustedIsLastMark(cfg: Config, history: seq<Event>, vendor: string)
    ensures After(cfg, history, vendor).exhaustedUntil == LastMark(history, vendor)
    ensures forall totals, budget, wall :: Blocking(After(cfg, history, vendor), totals, vendor, budget, wall) == Some(Exhausted) <==>
              LastMark(history, vendor).Some? && LastMark(history, vendor).value > wall
    decreases |history|
  {
    hide Allowing, Recording, Limiting, MarkedBy, OverBudget;
    if history != [] {
      var last, front := history[|history| - 1], history[..|history| - 1];
      ExhaustedIsLastMark(cfg, front, vendor);
      OwnMark(cfg, After(cfg, front, vendor), last);
    }
  }

  /**
   * How long marks last, in nanoseconds: as long as the vendor asks for, if the date library can hold it, and otherwise ten
   * seconds for a limit, a minute for an empty allowance and an hour for a spent quota. The composite vendor gets none.
   */
  lemma MarkLasts(vendor: string, now: int, wall: int, d: nat, t: int, limit: Option<nat>, left: Option<nat>, reset: Option<nat>)
    requires vendor != "rpc" && d <= 9_223_372_036_854_775_807_000_000
    ensures MarkedBy(Outcome(vendor, Some(RateLimited(Some(d))), now, wall)) == Some(wall + d)
    ensures MarkedBy(Outcome(vendor, Some(RateLimited(None)), now, wall)) == Some(wall + 10_000_000_000)
    ensures MarkedBy(Outcome(vendor, Some(QuotaExhausted(Some(t))), now, wall)) == Some(t)
    ensures MarkedBy(Outcome(vendor, Some(QuotaExhausted(None)), now, wall)) == Some(wall + 3_600_000_000_000)
    ensures MarkedBy(Outcome("rpc", Some(RateLimited(Some(d))), now, wall)) == None
    ensures MarkedBy(Outcome("rpc", Some(QuotaExhausted(Some(t))), now, wall)) == None
    ensures MarkedBy(Headers(vendor, RateLimitSnapshot(limit, left, reset, Some(d)), wall)) == Some(wall + d)
    ensures MarkedBy(Headers(vendor, RateLimitSnapshot(limit, Some(0), Some(d), None), wall)) == Some(wall + d)
    ensures MarkedBy(Headers(vendor, RateLimitSnapshot(limit, Some(0), None, None), wall)) == Some(wall + 60_000_000_000)
    ensures left != Some(0) ==> MarkedBy(Headers(vendor, RateLimitSnapshot(limit, left, reset, None), wall)) == None
  {
  }

  /** The error of the vendor's last failed outcome, whatever its kind. */
  function LastError(history: seq<Event>, vendor: string): Option<ProviderError>
    decreases |history|
  {
    if history == [] then None
    else
      var last, front := history[|history| - 1], history[..|history| - 1];
      if Concerns(last, vendor) && last.result.Some? then last.result else LastError(front, vendor)
  }

  /** The vendor's last response headers, and when they came. */
  function LastHeaders(history: seq<Event>, vendor: string): Option<(RateLimitSnapshot, int)>
    decreases |history|
  {
    if history == [] then None
    else
      var last, front := history[|history| - 1], history[..|history| - 1];
      if last.Headers? && last.vendor == vendor then Some((last.snap, last.wall)) else LastHeaders(front, vendor)
  }

  /** What the dashboard shows of a vendor's past is the last of its kind. */
  lemma {:induction false} RemembersLast(cfg: Config, history: seq<Event>, vendor: string)
    ensures After(cfg, history, vendor).lastError == LastError(history, vendor)
    ensures After(cfg, history, vendor).lastRateLimit == LastHeaders(history, vendor)
    decreases |history|
  {
    if history != [] {
      RemembersLast(cfg, history[..|history| - 1], vendor);
    }
  }
}
