/** What a hosted call is told, in terms of the counters and buckets it meets: the quotas and the rate spelled out. */
module Verdicts {
  import opened Admissions
  import opened Hosted
  import opened Persistence
  import opened TokenBuckets
  import opened Windows
  import opened Wrappers
  import WriteBehind

  // ----- the quotas, one step

  /** The day's requests and the month's credits leave room for one more call. */
  predicate HasRoom(s: State, client: string, now: int, daily: Option<nat>, monthly: Option<nat>) {
    && (daily.Some? ==> CountersAt(s.clientUsage, (client, DayKey(now))).requests < daily.value)
    && (monthly.Some? ==> CountersAt(s.clientUsage, (client, MonthKey(now))).credits < monthly.value)
  }

  /** A step accepts a call exactly if the call has passed its rate and both counters are below their limits. */
  lemma AcceptedExactly(sys: Sys, limits: map<string, ClientLimits>, i: nat)
    requires i < |sys.calls| && sys.calls[i].phase != Accepted
    ensures var c := sys.calls[i];
            Advancing(sys, limits, i).calls[i].phase == Accepted <==>
            && c.client in limits && c.phase == Checking
            && HasRoom(sys.store, c.client, c.now, limits[c.client].dailyRequests, limits[c.client].monthlyCredits)
  {
    hide DayKey, MonthKey, MirrorBoth, Rating, CountersAt;
  }

  // ----- the monthly quota over runs

  function CreditsOf(sys: Sys, client: string, w: WindowKey): int {
    CountersOf(sys, client, w).credits
  }

  /** Calls of the client's month that are accepted were accepted before. */
  predicate NoneAccepted(before: seq<Call>, calls: seq<Call>, client: string, w: WindowKey) {
    && |before| <= |calls|
    && forall i :: 0 <= i < |calls| && calls[i].phase == Accepted && calls[i].client == client && MonthKey(calls[i].now) == w ==>
         i < |before| && before[i].phase == Accepted
  }

  lemma BackgroundCredits(s: State, a: WriteBehind.Action, k: string, w: WindowKey)
    requires IsBackground(a)
    ensures CountersAt(WriteBehind.Stepping(s, a).clientUsage, (k, w)).credits >= CountersAt(s.clientUsage, (k, w)).credits
  {
    hide WKey, RowOf, AsI64, Apply;
  }

  /** Neither admitting nor refusing a call charges credits. */
  lemma AdvanceCredits(sys: Sys, limits: map<string, ClientLimits>, i: nat, client: string, w: WindowKey)
    requires i < |sys.calls|
    ensures CreditsOf(Advancing(sys, limits, i), client, w) == CreditsOf(sys, client, w)
  {
    hide DayKey, MonthKey, MirrorBoth, Rating, CountersAt, QuotaCheck;
    var c := sys.calls[i];
    BothCounters(sys.store, c.client, c.now, ClientCounters(1, 0, 0), client, w);
    BothCounters(sys.store, c.client, c.now, ClientCounters(0, 0, 1), client, w);
  }

  lemma AdvanceChanges(sys: Sys, limits: map<string, ClientLimits>, i: nat)
    requires i < |sys.calls|
    ensures var next := Advancing(sys, limits, i);
            && |next.calls| == |sys.calls|
            && next.calls[i].client == sys.calls[i].client && next.calls[i].now == sys.calls[i].now
            && forall j :: 0 <= j < |sys.calls| && j != i ==> next.calls[j] == sys.calls[j]
  {
    hide DayKey, MonthKey, MirrorBoth, Rating, CountersAt, QuotaCheck;
  }

  lemma StepMonthly(before: seq<Call>, sys: Sys, limits: map<string, ClientLimits>, step: Step, client: string, w: WindowKey)
    requires client in limits && limits[client].monthlyCredits.Some?
    requires CreditsOf(sys, client, w) >= limits[client].monthlyCredits.value
    requires NoneAccepted(before, sys.calls, client, w)
    ensures CreditsOf(Stepping(sys, limits, step), client, w) >= CreditsOf(sys, client, w)
    ensures NoneAccepted(before, Stepping(sys, limits, step).calls, client, w)
  {
    hide Advancing, WriteBehind.Stepping, CountersAt, DayKey, MonthKey;
    match step
    case Arrive(_, _, _) =>
    case Advance(i) =>
      if i < |sys.calls| {
        AdvanceCredits(sys, limits, i, client, w);
        AdvanceChanges(sys, limits, i);
        if sys.calls[i].phase != Accepted {
          AcceptedExactly(sys, limits, i);
        }
      }
    case Background(a) =>
      if IsBackground(a) {
        BackgroundCredits(sys.store, a, client, w);
      }
  }

  /**
   * The monthly quota. From the moment a client's credits of a month have reached its limit, in every interleaving of calls,
   * metering and the worker, no further call of that client in that month is accepted.
   */
  lemma {:induction false} MonthlyQuotaHolds(sys: Sys, limits: map<string, ClientLimits>, steps: seq<Step>, client: string, w: WindowKey)
    requires client in limits && limits[client].monthlyCredits.Some?
    requires CountersOf(sys, client, w).credits >= limits[client].monthlyCredits.value
    ensures var end := Run(sys, limits, steps);
            && CountersOf(end, client, w).credits >= limits[client].monthlyCredits.value
            && NoneAccepted(sys.calls, end.calls, client, w)
    decreases |steps|
  {
    hide Stepping, CountersAt, MonthKey;
    if steps != [] {
      var front := steps[..|steps| - 1];
      MonthlyQuotaHolds(sys, limits, front, client, w);
      StepMonthly(sys.calls, Run(sys, limits, front), limits, steps[|steps| - 1], client, w);
    }
  }

  // ----- the whole admission

  /** How the counters of a client move when `bump` is counted at `now`: in its day and in its month, and nowhere else. */
  ghost predicate Counted(s: State, s': State, client: string, now: int, bump: ClientCounters) {
    forall k, w :: CountersAt(s'.clientUsage, (k, w)) ==
                   if k == client && (w == DayKey(now) || w == MonthKey(now)) then Plus(CountersAt(s.clientUsage, (k, w)), bump)
                   else CountersAt(s.clientUsage, (k, w))
  }

  lemma BothCounted(s: State, client: string, now: int, bump: ClientCounters)
    ensures Counted(s, SubmitAll(MirrorBoth(s, client, now, bump)), client, now, bump)
  {
    hide MirrorBoth, CountersAt, DayKey, MonthKey;
    forall k, w
      ensures CountersAt(MirrorBoth(s, client, now, bump).clientUsage, (k, w)) ==
              if k == client && (w == DayKey(now) || w == MonthKey(now)) then Plus(CountersAt(s.clientUsage, (k, w)), bump)
              else CountersAt(s.clientUsage, (k, w))
    {
      BothCounters(s, client, now, bump, k, w);
    }
    assert SubmitAll(MirrorBoth(s, client, now, bump)).clientUsage == MirrorBoth(s, client, now, bump).clientUsage;
  }

  /**
   * What a call of an active client is told, and what is counted for it. It is refused by rate exactly if there is a rate
   * and its token is not granted; otherwise by the daily quota exactly if the day's requests have reached it; otherwise by
   * the monthly quota exactly if the month's credits have; and otherwise admitted. An admitted call counts as one request,
   * a refused one as one throttled call, in its day and month.
   */
  lemma AdmissionVerdict(s: State, buckets: map<string, Bucket>, clients: map<string, Client>, default: ClientLimits,
                         overrides: map<string, ClientLimits>, id: string, at: real, now: int)
    requires id in clients && clients[id].active
    ensures var l := EffectiveLimits(default, overrides, id, clients[id]);
            var refused := if l.requestsPerMinute.Some? then Rating(buckets, id, l.requestsPerMinute.value, at).1 else None;
            var (s', buckets', r) := Admitting(s, buckets, clients, default, overrides, Some(id), at, now);
            var dayFull := l.dailyRequests.Some? && CountersAt(s.clientUsage, (id, DayKey(now))).requests >= l.dailyRequests.value;
            var monthFull := l.monthlyCredits.Some? && CountersAt(s.clientUsage, (id, MonthKey(now))).credits >= l.monthlyCredits.value;
            && (refused.Some? ==> r == Admission.RateLimited(refused.value))
            && (refused.None? && dayFull ==> r == QuotaExceeded(DailyRequests))
            && (refused.None? && !dayFull && monthFull ==> r == QuotaExceeded(MonthlyCredits))
            && (refused.None? && !dayFull && !monthFull ==> r == Admitted)
            && Counted(s, s', id, now, if r == Admitted then ClientCounters(1, 0, 0) else ClientCounters(0, 0, 1))
  {
    hide MirrorBoth, Rating, EffectiveLimits, Counted, CountersAt, DayKey, MonthKey;
    BothCounted(s, id, now, ClientCounters(1, 0, 0));
    BothCounted(s, id, now, ClientCounters(0, 0, 1));
  }

  /** Local callers pass, and unknown or revoked clients are turned away; neither is counted anywhere. */
  lemma OutsideAdmission(s: State, buckets: map<string, Bucket>, clients: map<string, Client>, default: ClientLimits,
                         overrides: map<string, ClientLimits>, caller: Option<string>, at: real, now: int)
    requires caller.None? || caller.value !in clients || !clients[caller.value].active
    ensures Admitting(s, buckets, clients, default, overrides, caller, at, now)
            == (s, buckets, if caller.None? then Admitted else Unauthorized)
  {
  }

  /** The effective limits of the active clients. */
  function LimitsOf(clients: map<string, Client>, default: ClientLimits, overrides: map<string, ClientLimits>): map<string, ClientLimits> {
    map id | id in clients && clients[id].active :: EffectiveLimits(default, overrides, id, clients[id])
  }

  function PhaseOf(r: Admission): Phase {
    match r
    case Admitted => Accepted
    case Unauthorized => Unknown
    case RateLimited(_) => Rejected
    case QuotaExceeded(_) => Rejected
  }

  /** A system with one call. */
  function OneCall(s: State, buckets: map<string, Bucket>, id: string, at: real, now: int, phase: Phase): Sys {
    Sys(s, buckets, [Call(id, at, now, phase)])
  }

  /** The steps of a call that has the store to itself, each from the phase it starts in. */
  lemma CallSteps(s: State, buckets: map<string, Bucket>, limits: map<string, ClientLimits>, id: string, at: real, now: int, phase: Phase)
    ensures var next := Advancing(OneCall(s, buckets, id, at, now, phase), limits, 0);
            if id !in limits then next == OneCall(s, buckets, id, at, now, if phase == Arrived then Unknown else phase)
            else
              var l := limits[id];
              match phase
              case Arrived =>
                (match l.requestsPerMinute
                 case None => next == OneCall(s, buckets, id, at, now, Checking)
                 case Some(rpm) =>
                   var (buckets', refused) := Rating(buckets, id, rpm, at);
                   next == OneCall(s, buckets', id, at, now, if refused.Some? then Throttling else Checking))
              case Checking =>
                next == OneCall(MirrorAdmit(s, id, now, l.dailyRequests, l.monthlyCredits), buckets, id, at, now,
                                if QuotaCheck(s, id, now, l.dailyRequests, l.monthlyCredits).Ok? then Accepted else Throttling)
              case Throttling => next == OneCall(MirrorThrottled(s, id, now), buckets, id, at, now, Rejected)
              case _ => next == OneCall(s, buckets, id, at, now, phase)
  {
    hide MirrorAdmit, MirrorThrottled, QuotaCheck, Rating;
  }

  /** A call that nothing interrupts goes through the steps of the interleaved model and ends as the whole admission does. */
  lemma UninterruptedCall(s: State, buckets: map<string, Bucket>, clients: map<string, Client>, default: ClientLimits,
                          overrides: map<string, ClientLimits>, id: string, at: real, now: int)
    requires s.pending == []
    ensures var limits := LimitsOf(clients, default, overrides);
            var arrived := Stepping(Sys(s, buckets, []), limits, Arrive(id, at, now));
            var end := Advancing(Advancing(Advancing(arrived, limits, 0), limits, 0), limits, 0);
            var (s', buckets', r) := Admitting(s, buckets, clients, default, overrides, Some(id), at, now);
            && (SubmitAll(end.store), end.buckets) == (s', buckets')
            && end.calls == [Call(id, at, now, PhaseOf(r))]
  {
    hide MirrorAdmit, MirrorThrottled, QuotaCheck, Rating, EffectiveLimits, Advancing;
    assert SubmitAll(s) == s;
    var limits := LimitsOf(clients, default, overrides);
    var arrived := Stepping(Sys(s, buckets, []), limits, Arrive(id, at, now));
    assert arrived == OneCall(s, buckets, id, at, now, Arrived);
    CallSteps(s, buckets, limits, id, at, now, Arrived);
    var first := Advancing(arrived, limits, 0);
    CallSteps(first.store, first.buckets, limits, id, at, now, first.calls[0].phase);
    var second := Advancing(first, limits, 0);
    CallSteps(second.store, second.buckets, limits, id, at, now, second.calls[0].phase);
    if id in limits && QuotaCheck(s, id, now, limits[id].dailyRequests, limits[id].monthlyCredits).Err? {
      RefusedUnchanged(s, id, now, limits[id].dailyRequests, limits[id].monthlyCredits);
    }
  }

  // ----- the rate

  /** The client's bucket after calls at the given instants, and how many of them were let through. */
  function RatedAll(buckets: map<string, Bucket>, client: string, rpm: nat, ats: seq<real>): (map<string, Bucket>, nat)
    decreases |ats|
  {
    if ats == [] then (buckets, 0)
    else
      var (before, passed) := RatedAll(buckets, client, rpm, ats[..|ats| - 1]);
      var (after, refused) := Rating(before, client, rpm, ats[|ats| - 1]);
      (after, if refused.None? then passed + 1 else passed)
  }

  /** The bucket the calls start from: the client's own, or a full one made at the first call. */
  function StartOf(buckets: map<string, Bucket>, client: string, rpm: nat, at: real): Bucket {
    if client in buckets then buckets[client] else Bucket(rpm as real, at)
  }

  lemma {:induction false} RatedIsBucket(buckets: map<string, Bucket>, client: string, rpm: nat, ats: seq<real>)
    requires rpm > 0 && ats != []
    ensures var (after, passed) := RatedAll(buckets, client, rpm, ats);
            var b := StartOf(buckets, client, rpm, ats[0]);
            && client in after && after[client] == After(b, rpm as real, rpm as real / 60.0, ats)
            && passed == Grants(b, rpm as real, rpm as real / 60.0, ats)
            && forall c :: c != client ==> (c in after <==> c in buckets) && (c in buckets ==> after[c] == buckets[c])
    decreases |ats|
  {
    hide Taking;
    var front := ats[..|ats| - 1];
    if front == [] {
      assert ats[0] == ats[|ats| - 1];
    } else {
      RatedIsBucket(buckets, client, rpm, front);
      assert front[0] == ats[0];
    }
  }

  /**
   * The rate. However many calls a client makes, at whatever times, at most its rate plus what refills while its bucket's
   * clock advances gets through: not more than twice the rate within a minute. Other clients' buckets are left alone.
   */
  lemma RateHolds(buckets: map<string, Bucket>, client: string, rpm: nat, ats: seq<real>)
    requires rpm > 0 && ats != [] && InRange(StartOf(buckets, client, rpm, ats[0]), rpm as real)
    ensures var (after, passed) := RatedAll(buckets, client, rpm, ats);
            var b := StartOf(buckets, client, rpm, ats[0]);
            && client in after && b.last <= after[client].last
            && passed as real <= rpm as real + (rpm as real / 60.0) * (after[client].last - b.last)
            && (after[client].last - b.last <= 60.0 ==> passed <= 2 * rpm)
            && forall c :: c != client && c in buckets ==> c in after && after[c] == buckets[c]
  {
    hide After, Grants, RatedAll, Taking;
    var b := StartOf(buckets, client, rpm, ats[0]);
    var perSec := rpm as real / 60.0;
    RatedIsBucket(buckets, client, rpm, ats);
    RunBalance(b, rpm as real, perSec, ats);
    var end := After(b, rpm as real, perSec, ats);
    AtMostTwice(b, end, Grants(b, rpm as real, perSec, ats), rpm, perSec);
  }

  lemma AtMostTwice(b: Bucket, end: Bucket, passed: nat, rpm: nat, perSec: real)
    requires rpm > 0 && perSec == rpm as real / 60.0 && InRange(b, rpm as real)
    requires TokenBuckets.Balanced(b, end, passed, rpm as real, perSec)
    ensures passed as real <= rpm as real + perSec * (end.last - b.last)
    ensures end.last - b.last <= 60.0 ==> passed <= 2 * rpm
  {
    var elapsed := end.last - b.last;
    if elapsed <= 60.0 {
      MinuteRefill(perSec, elapsed, rpm);
      WholeBound(passed, rpm, perSec * elapsed);
    }
  }

  lemma MinuteRefill(perSec: real, elapsed: real, rpm: nat)
    requires rpm > 0 && perSec == rpm as real / 60.0 && elapsed <= 60.0
    ensures perSec * elapsed <= rpm as real
  {
    ProductOrder(elapsed, 60.0, perSec);
    assert perSec * elapsed == elapsed * perSec;
  }

  lemma WholeBound(passed: nat, rpm: nat, refill: real)
    requires passed as real <= rpm as real + refill && refill <= rpm as real
    ensures passed <= 2 * rpm
  {
    assert passed as real <= (rpm + rpm) as real;
  }

  /** A rate of 0 lets nothing through, and any other lets the first call of a client through. */
  lemma FirstCall(buckets: map<string, Bucket>, client: string, rpm: nat, at: real)
    requires client !in buckets
    ensures rpm == 0 ==> Rating(buckets, client, rpm, at) == (buckets, Some(60))
    ensures rpm > 0 ==> Rating(buckets, client, rpm, at) == (buckets[client := Bucket(rpm as real - 1.0, at)], None)
  {
  }
}
