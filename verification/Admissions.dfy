/**
 * Admission of hosted calls as interleaved steps. Each call looks up its client and takes a rate token, then checks and
 * counts its quota in one atomic step, then, if refused, counts itself as throttled; calls of all clients, metering and
 * the database worker interleave freely.
 */
module Admissions {
  import opened Hosted
  import opened Persistence
  import opened TokenBuckets
  import opened Windows
  import opened Wrappers
  import WriteBehind

  datatype Phase = Arrived | Checking | Throttling | Accepted | Rejected | Unknown

  datatype Call = Call(client: string, at: real, now: int, phase: Phase)

  datatype Sys = Sys(store: State, buckets: map<string, Bucket>, calls: seq<Call>)

  datatype Step =
    | Arrive(client: string, at: real, now: int)
    | Advance(i: nat)
    | Background(action: WriteBehind.Action)

  /** Metering and the worker touch the store too; client counting is left to the calls. */
  predicate IsBackground(a: WriteBehind.Action) {
    a.AddTotal? || a.AddCredit? || a.Submit? || a.Work?
  }

  function SetPhase(sys: Sys, i: nat, phase: Phase): Sys
    requires i < |sys.calls|
  {
    sys.(calls := sys.calls[i := sys.calls[i].(phase := phase)])
  }

  /** The next atomic step of one call; `limits` holds the effective limits of the active clients. */
  function Advancing(sys: Sys, limits: map<string, ClientLimits>, i: nat): Sys
    requires i < |sys.calls|
  {
    var c := sys.calls[i];
    if c.client !in limits then
      if c.phase == Arrived then SetPhase(sys, i, Unknown) else sys
    else
      var l := limits[c.client];
      match c.phase
      case Arrived =>
        if l.requestsPerMinute.None? then SetPhase(sys, i, Checking)
        else
          var (buckets, refused) := Rating(sys.buckets, c.client, l.requestsPerMinute.value, c.at);
          SetPhase(sys.(buckets := buckets), i, if refused.Some? then Throttling else Checking)
      case Checking =>
        var verdict := QuotaCheck(sys.store, c.client, c.now, l.dailyRequests, l.monthlyCredits);
        var store := MirrorAdmit(sys.store, c.client, c.now, l.dailyRequests, l.monthlyCredits);
        SetPhase(sys.(store := store), i, if verdict.Ok? then Accepted else Throttling)
      case Throttling =>
        SetPhase(sys.(store := MirrorThrottled(sys.store, c.client, c.now)), i, Rejected)
      case _ => sys
  }

  function Stepping(sys: Sys, limits: map<string, ClientLimits>, step: Step): Sys {
    match step
    case Arrive(client, at, now) => sys.(calls := sys.calls + [Call(client, at, now, Arrived)])
    case Advance(i) => if i < |sys.calls| then Advancing(sys, limits, i) else sys
    case Background(a) => if IsBackground(a) then sys.(store := WriteBehind.Stepping(sys.store, a)) else sys
  }

  function Run(sys: Sys, limits: map<string, ClientLimits>, steps: seq<Step>): Sys
    decreases |steps|
  {
    if steps == [] then sys else Stepping(Run(sys, limits, steps[..|steps| - 1]), limits, steps[|steps| - 1])
  }

  // ----- the ledger

  /** A call made `now` by `id` counts in window `w` of `client`. */
  predicate Touches(id: string, now: int, client: string, w: WindowKey) {
    id == client && (w == DayKey(now) || w == MonthKey(now))
  }

  predicate Hits(c: Call, client: string, w: WindowKey, phase: Phase) {
    c.phase == phase && Touches(c.client, c.now, client, w)
  }

  function Count(calls: seq<Call>, client: string, w: WindowKey, phase: Phase): nat
    decreases |calls|
  {
    if calls == [] then 0
    else Count(calls[..|calls| - 1], client, w, phase) + if Hits(calls[|calls| - 1], client, w, phase) then 1 else 0
  }

  lemma {:induction false} CountUpdate(calls: seq<Call>, i: nat, c: Call, client: string, w: WindowKey, phase: Phase)
    requires i < |calls|
    ensures Count(calls[i := c], client, w, phase) == Count(calls, client, w, phase)
            - (if Hits(calls[i], client, w, phase) then 1 else 0) + (if Hits(c, client, w, phase) then 1 else 0)
    decreases |calls|
  {
    hide Hits;
    var front := calls[..|calls| - 1];
    if i == |front| {
      assert calls[i := c][..|front|] == front;
    } else {
      CountUpdate(front, i, c, client, w, phase);
      assert calls[i := c][..|front|] == front[i := c];
    }
  }

  lemma CountArrival(calls: seq<Call>, c: Call, client: string, w: WindowKey, phase: Phase)
    requires c.phase == Arrived && phase != Arrived
    ensures Count(calls + [c], client, w, phase) == Count(calls, client, w, phase)
  {
    assert (calls + [c])[..|calls|] == calls;
  }

  function CountersOf(sys: Sys, client: string, w: WindowKey): ClientCounters {
    CountersAt(sys.store.clientUsage, (client, w))
  }

  /** Since `start`, each client window counts its accepted calls as requests and its rejected calls as throttled. */
  ghost predicate Balanced(start: Sys, sys: Sys, client: string, w: WindowKey) {
    && CountersOf(sys, client, w).requests
       == CountersOf(start, client, w).requests + Count(sys.calls, client, w, Accepted)
    && CountersOf(sys, client, w).throttled
       == CountersOf(start, client, w).throttled + Count(sys.calls, client, w, Rejected)
  }

  ghost predicate Ledger(start: Sys, sys: Sys) {
    forall client, w :: Balanced(start, sys, client, w)
  }

  lemma KeysDiffer(now: int)
    ensures DayKey(now) != MonthKey(now)
  {
  }

  lemma BumpedAt<K>(m: map<K, ClientCounters>, k: K, bump: ClientCounters, k': K)
    ensures CountersAt(Bumping(m, k, bump), k') == if k == k' then Plus(CountersAt(m, k'), bump) else CountersAt(m, k')
  {
  }

  lemma BothCounters(s: State, client: string, now: int, bump: ClientCounters, k: string, w: WindowKey)
    ensures CountersAt(MirrorBoth(s, client, now, bump).clientUsage, (k, w))
            == if Touches(client, now, k, w) then Plus(CountersAt(s.clientUsage, (k, w)), bump)
               else CountersAt(s.clientUsage, (k, w))
  {
    hide DayKey, MonthKey, WKey, Bumping, CountersAt;
    KeysDiffer(now);
    var day, month := (client, DayKey(now)), (client, MonthKey(now));
    BumpedAt(s.clientUsage, day, bump, (k, w));
    BumpedAt(Bumping(s.clientUsage, day, bump), month, bump, (k, w));
  }

  lemma BackgroundCounters(s: State, a: WriteBehind.Action, k: string, w: WindowKey)
    requires IsBackground(a)
    ensures var (before, after) := (CountersAt(s.clientUsage, (k, w)),
                                    CountersAt(WriteBehind.Stepping(s, a).clientUsage, (k, w)));
            after.requests == before.requests && after.throttled == before.throttled
  {
    hide WKey, RowOf, AsI64, Apply;
  }

  lemma AdvanceBalanced(start: Sys, sys: Sys, limits: map<string, ClientLimits>, i: nat, client: string, w: WindowKey)
    requires i < |sys.calls| && Balanced(start, sys, client, w)
    ensures Balanced(start, Advancing(sys, limits, i), client, w)
  {
    hide Touches, MirrorBoth, QuotaCheck, Rating, Count, CountersAt;
    var c, next := sys.calls[i], Advancing(sys, limits, i);
    CountUpdate(sys.calls, i, next.calls[i], client, w, Accepted);
    CountUpdate(sys.calls, i, next.calls[i], client, w, Rejected);
    assert next.calls == sys.calls[i := next.calls[i]];
    if c.phase == Checking {
      BothCounters(sys.store, c.client, c.now, ClientCounters(1, 0, 0), client, w);
    } else if c.phase == Throttling {
      BothCounters(sys.store, c.client, c.now, ClientCounters(0, 0, 1), client, w);
    }
  }

  lemma StepBalanced(start: Sys, sys: Sys, limits: map<string, ClientLimits>, step: Step, client: string, w: WindowKey)
    requires Balanced(start, sys, client, w)
    ensures Balanced(start, Stepping(sys, limits, step), client, w)
  {
    hide DayKey, MonthKey, Count, Advancing, WriteBehind.Stepping;
    match step
    case Arrive(id, at, now) =>
      CountArrival(sys.calls, Call(id, at, now, Arrived), client, w, Accepted);
      CountArrival(sys.calls, Call(id, at, now, Arrived), client, w, Rejected);
    case Advance(i) =>
      if i < |sys.calls| {
        AdvanceBalanced(start, sys, limits, i, client, w);
      }
    case Background(a) =>
      if IsBackground(a) {
        BackgroundCounters(sys.store, a, client, w);
      }
  }

  /**
   * Calls are conserved. In every interleaving a client's requests in a day or month grew by exactly the calls accepted
   * in it and its throttled count by exactly the calls rejected in it; so each finished call of an active client is
   * counted once, on one side, in both of its windows, and a rejected one leaves requests alone.
   */
  lemma {:induction false} CallsAreConserved(start: Sys, limits: map<string, ClientLimits>, steps: seq<Step>)
    requires start.calls == []
    ensures Ledger(start, Run(start, limits, steps))
    decreases |steps|
  {
    hide Stepping, Balanced;
    if steps == [] {
      forall client, w
        ensures Balanced(start, start, client, w)
      {
        assert Count(start.calls, client, w, Accepted) == 0 == Count(start.calls, client, w, Rejected);
        NothingHappened(start, client, w);
      }
    } else {
      var before := Run(start, limits, steps[..|steps| - 1]);
      CallsAreConserved(start, limits, steps[..|steps| - 1]);
      forall client, w
        ensures Balanced(start, Run(start, limits, steps), client, w)
      {
        StepBalanced(start, before, limits, steps[|steps| - 1], client, w);
      }
    }
  }

  lemma NothingHappened(start: Sys, client: string, w: WindowKey)
    requires start.calls == []
    ensures Balanced(start, start, client, w)
  {
  }

  /** A finished call was accepted or rejected if its client is active, and turned away uncounted if not. */
  ghost predicate Settled(sys: Sys, limits: map<string, ClientLimits>) {
    forall i :: 0 <= i < |sys.calls| ==>
      && (sys.calls[i].phase == Unknown ==> sys.calls[i].client !in limits)
      && (sys.calls[i].phase in {Checking, Throttling, Accepted, Rejected} ==> sys.calls[i].client in limits)
  }

  /** The daily quota holds for every client and window at once. */
  ghost predicate WithinDaily(start: Sys, sys: Sys, limits: map<string, ClientLimits>) {
    forall client, w: WindowKey :: client in limits && limits[client].dailyRequests.Some? && w.Day? ==>
      CountersOf(sys, client, w).requests <= Most(CountersOf(start, client, w).requests, limits[client].dailyRequests.value)
  }

  function Most(a: int, b: int): int {
    if a >= b then a else b
  }

  lemma AdvanceWithinDaily(start: Sys, sys: Sys, limits: map<string, ClientLimits>, i: nat, client: string, w: WindowKey)
    requires i < |sys.calls| && client in limits && limits[client].dailyRequests.Some? && w.Day?
    requires CountersOf(sys, client, w).requests
             <= Most(CountersOf(start, client, w).requests, limits[client].dailyRequests.value)
    ensures CountersOf(Advancing(sys, limits, i), client, w).requests
            <= Most(CountersOf(start, client, w).requests, limits[client].dailyRequests.value)
  {
    hide DayKey, MonthKey, MirrorBoth, Rating, CountersAt;
    var c := sys.calls[i];
    BothCounters(sys.store, c.client, c.now, ClientCounters(1, 0, 0), client, w);
    BothCounters(sys.store, c.client, c.now, ClientCounters(0, 0, 1), client, w);
    MonthIsNoDay(c.now);
  }

  lemma StepWithinDaily(start: Sys, sys: Sys, limits: map<string, ClientLimits>, step: Step)
    requires WithinDaily(start, sys, limits) && Settled(sys, limits)
    ensures WithinDaily(start, Stepping(sys, limits, step), limits)
    ensures Settled(Stepping(sys, limits, step), limits)
  {
    hide DayKey, MonthKey, MirrorBoth, Rating, WriteBehind.Stepping, CountersAt, QuotaCheck;
    forall client, w: WindowKey | client in limits && limits[client].dailyRequests.Some? && w.Day?
      ensures CountersOf(Stepping(sys, limits, step), client, w).requests
              <= Most(CountersOf(start, client, w).requests, limits[client].dailyRequests.value)
    {
      match step
      case Arrive(_, _, _) =>
      case Advance(i) =>
        if i < |sys.calls| {
          AdvanceWithinDaily(start, sys, limits, i, client, w);
        }
      case Background(a) =>
        if IsBackground(a) {
          BackgroundCounters(sys.store, a, client, w);
        }
    }
  }

  lemma MonthIsNoDay(now: int)
    ensures MonthKey(now).Month? && DayKey(now).Day?
  {
  }

  /** In every interleaving, the requests of a client's day never exceed its daily limit, unless they did at the start. */
  lemma {:induction false} DailyQuotaHolds(start: Sys, limits: map<string, ClientLimits>, steps: seq<Step>)
    requires start.calls == []
    ensures WithinDaily(start, Run(start, limits, steps), limits)
    ensures Settled(Run(start, limits, steps), limits)
    decreases |steps|
  {
    hide Stepping;
    if steps != [] {
      DailyQuotaHolds(start, limits, steps[..|steps| - 1]);
      StepWithinDaily(start, Run(start, limits, steps[..|steps| - 1]), limits, steps[|steps| - 1]);
    }
  }
}
