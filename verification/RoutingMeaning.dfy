/** What callers of the router are told, case by case over what the vendors answered. */
module RoutingMeaning {
  import opened Attempts
  import opened Budgets
  import opened Counters
  import opened MapSums
  import opened Providers
  import opened Runtime
  import opened Strategies
  import opened Windows
  import opened Wrappers

  // ----- candidates

  /** The month or the day has reached what routing enforces, and overage is not allowed. */
  predicate BudgetSpent(totals: map<TotalKey, int>, vendor: string, b: EffectiveBudget, wall: int) {
    && b.onExhausted == Skip
    && ((b.effective.daily.Some? && At(totals, (vendor, DayKey(wall))) >= b.effective.daily.value)
        || (b.effective.monthly.Some? && At(totals, (vendor, MonthKey(wall))) >= b.effective.monthly.value))
  }

  /** The mark has not run out. */
  predicate Marked(s: VendorState, wall: int) {
    s.exhaustedUntil.Some? && wall < s.exhaustedUntil.value
  }

  predicate Breaking(b: Breaker, now: int) {
    match b
    case Closed(_) => false
    case Open(until) => now < until
    case HalfOpen(probing) => probing
  }

  /** The guard: a mark that lasts counts first, then a spent budget; anything else passes. */
  lemma GuardMeans(s: VendorState, totals: map<TotalKey, int>, vendor: string, budget: Option<EffectiveBudget>, wall: int)
    ensures var r := Blocking(s, totals, vendor, budget, wall);
            && (r == Some(Exhausted) <==> Marked(s, wall))
            && (r == Some(Reserve) <==> !Marked(s, wall) && budget.Some? && BudgetSpent(totals, vendor, budget.value, wall))
            && (r == None <==> !Marked(s, wall) && (budget.None? || !BudgetSpent(totals, vendor, budget.value, wall)))
  {
    hide DayKey, MonthKey, At;
  }

  /** The first reason against a vendor, in the order in which they are looked at. */
  lemma RefusalMeans(table: Table, m: Moment, s: VendorState, vendor: string)
    ensures var r := Refusal(table, m, s, vendor);
            var status := if vendor in table.status then table.status[vendor] else StatusUnknown;
            var budget := BudgetOf(table, vendor);
            && (r == Some(MissingKey) <==> status == StatusMissingKey)
            && (r == Some(Disabled) <==> status == StatusDisabled)
            && (r == Some(UnknownVendor) <==> status == StatusUnknown)
            && (r == Some(NotForChain) <==> status == Active && vendor !in table.ports)
            && (status == Active && vendor in table.ports ==>
                  && (r == Some(Blocked(Exhausted)) <==> Marked(s, m.wall))
                  && (!Marked(s, m.wall) ==>
                        var spent := budget.Some? && BudgetSpent(m.totals, vendor, budget.value, m.wall);
                        && (r == Some(Blocked(Reserve)) <==> spent)
                        && (!spent ==> r == if Breaking(s.breaker, m.now) then Some(BreakerOpen) else None)))
  {
    hide BudgetSpent, Blocking;
    GuardMeans(s, m.totals, vendor, BudgetOf(table, vendor), m.wall);
  }

  /** A vendor of the order is asked exactly if it is active, has a port, is neither marked nor spent, and is let through. */
  lemma CandidateMeans(table: Table, m: Moment, vendors: map<string, VendorState>, order: seq<string>, vendor: string)
    requires NoDuplicates(order)
    ensures var s := StateOf(vendors, vendor);
            vendor in Screening(table, m, vendors, order).0 <==>
            && vendor in order
            && vendor in table.status && table.status[vendor] == Active && vendor in table.ports
            && !Marked(s, m.wall)
            && (vendor in table.budgets ==> !BudgetSpent(m.totals, vendor, table.budgets[vendor], m.wall))
            && !Breaking(s.breaker, m.now)
  {
    hide Refusal, BudgetSpent, Screening;
    CandidatesAreUsable(table, m, vendors, order);
    InUsable(table, m, vendors, order, vendor);
    RefusalMeans(table, m, StateOf(vendors, vendor), vendor);
  }

  lemma {:induction false} InUsable(table: Table, m: Moment, vendors: map<string, VendorState>, order: seq<string>, vendor: string)
    ensures vendor in Usable(table, m, vendors, order) <==>
            vendor in order && Refusal(table, m, StateOf(vendors, vendor), vendor).None?
    decreases |order|
  {
    hide Refusal;
    if order != [] {
      var front := order[..|order| - 1];
      InUsable(table, m, vendors, front, vendor);
      assert order == front + [order[|order| - 1]];
    }
  }

  // ----- the trail

  /** The stable code that goes with an error. */
  predicate CodeIs(e: ProviderError, code: ErrorCode) {
    match e
    case Transient => code == AllProvidersFailed
    case Fatal => code == AllProvidersFailed
    case RateLimited(_) => code == RateLimitedCode
    case QuotaExhausted(_) => code == QuotaExceededCode
    case Unsupported => code == UnsupportedCapability
    case NotFound => code == NotFoundCode
    case Invalid => code == InvalidInput
  }

  /** The trail has the skipped vendors first, and then one line per candidate tried, which says how that went. */
  lemma TrailMeans<T>(a: Asking<T>, n: nat, i: nat)
    requires i < n <= a.Size()
    ensures a.Trail(n)[..|a.candidates.skipped|] == a.candidates.skipped
    ensures |a.Trail(n)| == |a.candidates.skipped| + n
    ensures var row := a.Trail(n)[|a.candidates.skipped| + i];
            && row.vendor == a.candidates.list[i]
            && (!a.replies(i).granted ==> row.outcome == Skipped && row.reason == LocalRateLimit && row.code.None?)
            && (a.replies(i).granted && a.Answer(i).Ok? ==> row.outcome == Answered && row.reason == NoReason && row.code.None?)
            && (a.replies(i).granted && a.Answer(i).Err? ==>
                  && row.outcome == Failed && row.reason == ErrorText(a.Answer(i).error)
                  && row.code.Some? && CodeIs(a.Answer(i).error, row.code.value))
  {
    hide Final;
    var row := a.RowAt(i);
    assert a.Trail(n)[|a.candidates.skipped| + i] == row;
  }

  // ----- failover

  /** Candidate `i` leaves the question open: it is down, limited, out of quota or unable. */
  predicate LeavesOpen<T>(a: Asking<T>, i: nat) {
    a.Answer(i).Err? &&
    match a.Answer(i).error
    case Transient => true
    case RateLimited(_) => true
    case QuotaExhausted(_) => true
    case Unsupported => true
    case NotFound => false
    case Invalid => false
    case Fatal => false
  }

  lemma LeavesOpenGoesOn<T>(a: Asking<T>, confirm: bool, i: nat)
    ensures LeavesOpen(a, i) ==> GoesOn(a, confirm, i)
    ensures GoesOn(a, confirm, i) <==>
            LeavesOpen(a, i) || (confirm && a.Answer(i) == Err(NotFound) && forall j: nat :: j < i ==> a.Answer(j) != Err(NotFound))
  {
    hide Final;
    assert forall j: nat :: a.SaysNotFound(j) <==> a.Answer(j) == Err(NotFound);
  }

  /**
   * Failover, from the answers alone. If every candidate before `k` is down, limited, out of quota or unable, then what `k`
   * says is final unless it is one of those too, or a "not found" still to be confirmed: an answer is returned with the vendor
   * that gave it, an invalid request, a fatal error and an unconfirmed "not found" end it with their own codes.
   */
  lemma SettledBy<T>(a: Asking<T>, confirm: bool, k: nat)
    requires k < a.Size() && forall j: nat :: j < k ==> LeavesOpen(a, j)
    ensures a.Answer(k).Ok? ==>
              var r := FailoverResult(a, confirm);
              && r.Ok? && r.value.value == a.Answer(k).value
              && r.value.provenance.provider == Some(a.candidates.list[k])
              && r.value.provenance.tried == a.Trail(k + 1)
              && r.value.provenance.source == (if a.candidates.head == Some(a.candidates.list[k]) then Primary else Fallback)
    ensures a.Answer(k) == Err(Invalid) ==> FailoverResult(a, confirm) == Err(RouteError(InvalidInput, a.Trail(k + 1)))
    ensures a.Answer(k) == Err(Fatal) ==> FailoverResult(a, confirm) == Err(RouteError(AllProvidersFailed, a.Trail(k + 1)))
    ensures a.Answer(k) == Err(NotFound) && !confirm ==>
              FailoverResult(a, confirm) == Err(RouteError(NotFoundCode, a.Trail(k + 1)))
  {
    hide Final, Attempts.RowOf, Asking.Trail, LeavesOpen;
    forall j: nat | j < k
      ensures GoesOn(a, confirm, j)
    {
      LeavesOpenGoesOn(a, confirm, j);
    }
    if a.Answer(k).Ok? || a.Answer(k).error in {Invalid, Fatal} || (a.Answer(k).error == NotFound && !confirm) {
      assert !GoesOn(a, confirm, k);
      FailoverDecided(a, confirm);
    }
  }

  /** With confirmation, a first "not found" sends the request on, and a second one ends it. */
  lemma SecondNotFound<T>(a: Asking<T>, i: nat, k: nat)
    requires i < k < a.Size() && a.Answer(i) == Err(NotFound)
    requires forall j: nat :: j < k && j != i ==> LeavesOpen(a, j)
    ensures a.Answer(k) == Err(NotFound) ==> FailoverResult(a, true) == Err(RouteError(NotFoundCode, a.Trail(k + 1)))
    ensures a.Answer(k).Ok? ==> FailoverResult(a, true).Ok? && FailoverResult(a, true).value.value == a.Answer(k).value
  {
    hide Final, Attempts.RowOf, Asking.Trail, ProvenanceOf;
    forall j: nat | j < k
      ensures GoesOn(a, true, j)
    {
      LeavesOpenGoesOn(a, true, j);
      if j == i {
        forall h: nat | h < i
          ensures a.Answer(h) != Err(NotFound)
        {
          assert LeavesOpen(a, h);
        }
      } else {
        assert LeavesOpen(a, j);
      }
    }
    assert a.SaysNotFound(i);
    if a.Answer(k).Ok? || a.Answer(k) == Err(NotFound) {
      assert !GoesOn(a, true, k);
      FailoverDecided(a, true);
    }
  }

  // ----- nobody answered

  /**
   * The code when none of the candidates answered, whichever strategy asked them all: the last one's own words, where
   * "unsupported" stands only if every vendor that failed itself said so, and being down counts as "all providers failed".
   */
  lemma NobodyAnswered<T>(a: Asking<T>)
    requires AllSkipped(a.candidates.skipped) && a.Successes(a.Size()) == []
    ensures var (n, code) := (a.Size(), RouteFailure(a.LastError(a.Size()), a.Trail(a.Size())).code);
            if n == 0 then code == UnsupportedCapability
            else
              && a.Answer(n - 1).Err?
              && if a.Answer(n - 1).error.Unsupported? && !OnlyUnsupported(a, n) then code == AllProvidersFailed
                 else CodeIs(a.Answer(n - 1).error, code)
  {
    hide Final, Attempts.RowOf, AllUnsupported, OnlyUnsupported;
    TrailUnsupported(a, a.Size());
    if a.Size() == 0 {
      TrailStarts(a);
    }
  }

  /** A failover that runs out has asked everybody, and ends with that code. */
  lemma FailoverRunsOut<T>(a: Asking<T>, confirm: bool)
    requires AllSkipped(a.candidates.skipped) && forall j: nat :: j < a.Size() ==> LeavesOpen(a, j)
    ensures FailoverResult(a, confirm) == Err(RouteFailure(a.LastError(a.Size()), a.Trail(a.Size())))
    ensures a.Successes(a.Size()) == []
  {
    hide Final, Attempts.RowOf, Asking.Trail, CodeFor;
    forall j: nat | j < a.Size()
      ensures GoesOn(a, confirm, j)
    {
      LeavesOpenGoesOn(a, confirm, j);
    }
    FailoverDecided(a, confirm);
    NoSuccess(a, a.Size());
  }

  lemma {:induction false} NoSuccess<T>(a: Asking<T>, n: nat)
    requires n <= a.Size() && forall j: nat :: j < n ==> a.Answer(j).Err?
    ensures a.Successes(n) == []
  {
    hide Final;
    if n > 0 {
      NoSuccess(a, n - 1);
    }
  }

  // ----- aggregate

  /** The successes are the answers in configured order: each vendor with what it said, and nobody who failed. */
  lemma {:induction false} SuccessesMean<T>(a: Asking<T>, n: nat)
    requires n <= a.Size()
    ensures forall i: nat :: i < n && a.Answer(i).Ok? ==> (a.candidates.list[i], a.Answer(i).value) in a.Successes(n)
    ensures forall ok :: ok in a.Successes(n) ==>
              exists i: nat :: i < n && a.Answer(i).Ok? && ok == (a.candidates.list[i], a.Answer(i).value)
  {
    hide Final;
    if n > 0 {
      SuccessesMean(a, n - 1);
      var front := a.Successes(n - 1);
      forall ok | ok in a.Successes(n)
        ensures exists i: nat :: i < n && a.Answer(i).Ok? && ok == (a.candidates.list[i], a.Answer(i).value)
      {
        if ok in front {
          var i: nat :| i < n - 1 && a.Answer(i).Ok? && ok == (a.candidates.list[i], a.Answer(i).value);
          assert i < n;
        } else {
          assert a.Answer(n - 1).Ok? && ok == (a.candidates.list[n - 1], a.Answer(n - 1).value);
        }
      }
    }
  }

  /**
   * An aggregate of `n` gives the first min(n, k) of the k answers there are, in configured order (of one at least), under the
   * name "aggregate"; it fails exactly if nobody answers, and then everybody was asked.
   */
  lemma AggregateVerdict<T>(a: Asking<T>, n: nat)
    ensures var r := AggregateResult(a, n);
            var all := a.Successes(a.Size());
            var wanted := if n >= 1 then n else 1;
            && (r.Ok? <==> all != [])
            && (r.Ok? ==>
                  && r.value.value == (if wanted <= |all| then all[..wanted] else all)
                  && r.value.provenance.source == Aggregate && r.value.provenance.provider == Some("aggregate")
                  && r.value.provenance.tried == a.Trail(TriedFor(a, wanted)))
            && (r.Err? ==> r.error == RouteFailure(a.LastError(a.Size()), a.Trail(a.Size())))
  {
    hide Final, TriedFor, Asking.Trail, CodeFor;
    CollectsFirst(a, if n >= 1 then n else 1);
  }

  /** A quorum that fails without a conflict asked everybody, and ends like any other strategy that nobody answered. */
  lemma QuorumUnanswered<T>(a: Asking<T>, n: nat, key: T -> string)
    ensures var r := QuorumResult(a, n, key);
            a.Successes(a.Size()) == [] ==> r == Err(RouteFailure(a.LastError(a.Size()), a.Trail(a.Size())))
  {
    hide Final, TriedFor, Asking.Trail, CodeFor;
    CollectsFirst(a, if n >= 1 then n else 1);
  }

  /**
   * A quorum's answer names the first vendor that answered and everybody who was tried; it is an aggregate once two agree and
   * otherwise primary exactly if that vendor heads the order. A conflict keeps the whole trail.
   */
  lemma QuorumProvenance<T>(a: Asking<T>, n: nat, key: T -> string)
    ensures var r := QuorumResult(a, n, key);
            var tried := a.Trail(TriedFor(a, if n >= 1 then n else 1));
            var all := a.Successes(a.Size());
            && (r.Ok? ==>
                  && all != []
                  && r.value.value.value == all[0].1 && r.value.value.required == n
                  && r.value.provenance.provider == Some(all[0].0) && r.value.provenance.tried == tried
                  && (r.value.value.agreeing >= 2 ==> r.value.provenance.source == Aggregate)
                  && (r.value.value.agreeing == 1 ==>
                        r.value.provenance.source == if a.candidates.head == Some(all[0].0) then Primary else Fallback))
            && (r.Err? && all != [] ==>
                  && r.error.code == Conflict && multiset(r.error.attempts) == multiset(tried)
                  && forall i, j :: 0 <= i < j < |r.error.attempts| && r.error.attempts[j].outcome.Skipped? ==>
                       r.error.attempts[i].outcome.Skipped?)
  {
    hide Final, TriedFor, Asking.Trail, CodeFor, Agree, SkippedFirst;
    var wanted := if n >= 1 then n else 1;
    CollectsFirst(a, wanted);
    SkippedFirstKeepsRows(a.Trail(TriedFor(a, wanted)));
    SkippedFirstMeans(a.Trail(TriedFor(a, wanted)));
  }
}
