/**
 * Routing a request is a stretch of the vendors' history: what a strategy does to the runtime state is the events of its
 * screening and of its tries, so everything proved of histories holds of every sequence of requests.
 */
module RoutedHistory {
  import opened Attempts
  import opened BreakerHistory
  import opened Providers
  import opened Runtime
  import opened Strategies
  import opened Wrappers

  /** Equal for every vendor; an entry that was never touched counts as a fresh one. */
  ghost predicate Alike(a: map<string, VendorState>, b: map<string, VendorState>) {
    forall v :: StateOf(a, v) == StateOf(b, v)
  }

  /** The breaker questions asked while an order is screened. */
  function Asks(table: Table, m: Moment, vendors: map<string, VendorState>, order: seq<string>): seq<Event>
    decreases |order|
  {
    if order == [] then []
    else
      var front, vendor := order[..|order| - 1], order[|order| - 1];
      var s := StateOf(ScreenedAll(table, m, vendors, front), vendor);
      Asks(table, m, vendors, front) +
      if Excluded(table, vendor).Some? || Blocking(s, m.totals, vendor, BudgetOf(table, vendor), m.wall).Some? then []
      else [Ask(vendor, m.now)]
  }

  /** The first `count` tries of an attempt. */
  function Tries<T>(vendor: string, reply: Reply<T>, count: nat): seq<Event> {
    if count == 0 then []
    else
      Tries(vendor, reply, count - 1) +
      [Outcome(vendor, ErrorOf(reply.answers(count - 1)), reply.now(count - 1), reply.wall(count - 1))]
  }

  /** The tries at the first `n` candidates. */
  function Calls<T>(a: Asking<T>, n: nat): seq<Event>
    requires n <= a.Size()
  {
    if n == 0 then []
    else
      var reply := a.replies(n - 1);
      Calls(a, n - 1) +
      if reply.granted then Tries(a.candidates.list[n - 1], reply, LastTry(reply.answers, a.retries, 0) + 1) else []
  }

  lemma ReplayOneMore(cfg: Config, h: seq<Event>, e: Event)
    ensures Replay(cfg, h + [e]) == BreakerHistory.Stepping(cfg, Replay(cfg, h), e)
  {
    hide BreakerHistory.Stepping;
    assert (h + [e])[..|h|] == h;
  }

  lemma AlikeUpdated(a: map<string, VendorState>, b: map<string, VendorState>, vendor: string, s: VendorState)
    requires Alike(a, b)
    ensures Alike(a[vendor := s], b[vendor := s]) && Alike(a[vendor := StateOf(a, vendor)], b)
  {
    var a', b', touched := a[vendor := s], b[vendor := s], a[vendor := StateOf(a, vendor)];
    forall v
      ensures StateOf(a', v) == StateOf(b', v) && StateOf(touched, v) == StateOf(b, v)
    {
      assert StateOf(a, v) == StateOf(b, v);
      if v == vendor {
        assert StateOf(a', v) == s && StateOf(b', v) == s && StateOf(touched, v) == StateOf(a, v);
      } else {
        assert StateOf(a', v) == StateOf(a, v) && StateOf(b', v) == StateOf(b, v) && StateOf(touched, v) == StateOf(a, v);
      }
    }
  }

  lemma ScreenedOnce(cfg: Config, table: Table, m: Moment, vendors: map<string, VendorState>, h: seq<Event>, vendor: string)
    requires Alike(vendors, Replay(cfg, h))
    ensures var s := StateOf(vendors, vendor);
            if Excluded(table, vendor).Some? || Blocking(s, m.totals, vendor, BudgetOf(table, vendor), m.wall).Some? then
              Alike(Screened(table, m, vendors, vendor), Replay(cfg, h))
            else Alike(Screened(table, m, vendors, vendor), Replay(cfg, h + [Ask(vendor, m.now)]))
  {
    hide Blocking, Excluded, Allowing, Replay;
    var s := StateOf(vendors, vendor);
    assert s == StateOf(Replay(cfg, h), vendor);
    ReplayOneMore(cfg, h, Ask(vendor, m.now));
    AlikeUpdated(vendors, Replay(cfg, h), vendor, Allowing(s, m.now).0);
  }

  lemma {:induction false} ScreenedIsHistory(cfg: Config, table: Table, m: Moment, vendors: map<string, VendorState>,
                                             h: seq<Event>, order: seq<string>)
    requires Alike(vendors, Replay(cfg, h))
    ensures Alike(ScreenedAll(table, m, vendors, order), Replay(cfg, h + Asks(table, m, vendors, order)))
    decreases |order|
  {
    hide Alike, Screened, Blocking, Excluded, Replay;
    if order == [] {
      assert h + [] == h;
    } else {
      var front, vendor := order[..|order| - 1], order[|order| - 1];
      ScreenedIsHistory(cfg, table, m, vendors, h, front);
      var asked := h + Asks(table, m, vendors, front);
      ScreenedOnce(cfg, table, m, ScreenedAll(table, m, vendors, front), asked, vendor);
      assert asked + [] == asked;
      assert asked + [Ask(vendor, m.now)] == h + (Asks(table, m, vendors, front) + [Ask(vendor, m.now)]);
      assert asked == h + (Asks(table, m, vendors, front) + []);
    }
  }

  lemma RecordedOnce(cfg: Config, vendors: map<string, VendorState>, h: seq<Event>, e: Event)
    requires e.Outcome? && Alike(vendors, Replay(cfg, h))
    ensures Alike(vendors[e.vendor := Recording(cfg, e.vendor, StateOf(vendors, e.vendor), e.result, e.now, e.wall)],
                  Replay(cfg, h + [e]))
  {
    hide Recording, Replay;
    var s := StateOf(vendors, e.vendor);
    assert s == StateOf(Replay(cfg, h), e.vendor);
    ReplayOneMore(cfg, h, e);
    AlikeUpdated(vendors, Replay(cfg, h), e.vendor, Recording(cfg, e.vendor, s, e.result, e.now, e.wall));
  }

  lemma {:induction false} RecordedIsHistory<T>(cfg: Config, vendors: map<string, VendorState>, h: seq<Event>, vendor: string,
                                                reply: Reply<T>, count: nat)
    requires Alike(vendors, Replay(cfg, h))
    ensures Alike(Recorded(cfg, vendors, vendor, reply, count), Replay(cfg, h + Tries(vendor, reply, count)))
  {
    hide Alike, Recording, Replay;
    if count == 0 {
      assert h + [] == h;
    } else {
      RecordedIsHistory(cfg, vendors, h, vendor, reply, count - 1);
      var before := h + Tries(vendor, reply, count - 1);
      var last := Outcome(vendor, ErrorOf(reply.answers(count - 1)), reply.now(count - 1), reply.wall(count - 1));
      RecordedOnce(cfg, Recorded(cfg, vendors, vendor, reply, count - 1), before, last);
      assert before + [last] == h + Tries(vendor, reply, count);
    }
  }

  lemma {:induction false} CallsAreHistory<T>(cfg: Config, vendors: map<string, VendorState>, h: seq<Event>, a: Asking<T>, n: nat)
    requires n <= a.Size() && Alike(vendors, Replay(cfg, h))
    ensures Alike(a.VendorsAfter(cfg, vendors, n), Replay(cfg, h + Calls(a, n)))
  {
    hide Alike, Recorded, Replay, Tries;
    if n == 0 {
      assert h + [] == h;
    } else {
      CallsAreHistory(cfg, vendors, h, a, n - 1);
      var before, reply, vendor := h + Calls(a, n - 1), a.replies(n - 1), a.candidates.list[n - 1];
      if reply.granted {
        var count := LastTry(reply.answers, a.retries, 0) + 1;
        RecordedIsHistory(cfg, a.VendorsAfter(cfg, vendors, n - 1), before, vendor, reply, count);
        assert before + Tries(vendor, reply, count) == h + Calls(a, n);
      } else {
        assert Calls(a, n) == Calls(a, n - 1);
      }
    }
  }

  /** The request's own stretch of history, when `n` of its candidates have been tried. */
  function RequestEvents<T>(table: Table, m: Moment, vendors: map<string, VendorState>, order: seq<string>, a: Asking<T>, n: nat)
    : seq<Event>
    requires n <= a.Size()
  {
    Asks(table, m, vendors, order) + Calls(a, n)
  }

  /**
   * Whatever the strategy, screening an order and trying the first `n` candidates takes the vendors from one history to
   * that history extended by the request's own events.
   */
  lemma RoutingIsHistory<T>(cfg: Config, table: Table, m: Moment, vendors: map<string, VendorState>, h: seq<Event>,
                            order: seq<string>, a: Asking<T>, n: nat)
    requires Alike(vendors, Replay(cfg, h)) && n <= a.Size()
    ensures Alike(a.VendorsAfter(cfg, ScreenedAll(table, m, vendors, order), n),
                  Replay(cfg, h + RequestEvents(table, m, vendors, order, a, n)))
  {
    hide Alike, Replay, Asks, Calls;
    ScreenedIsHistory(cfg, table, m, vendors, h, order);
    CallsAreHistory(cfg, ScreenedAll(table, m, vendors, order), h + Asks(table, m, vendors, order), a, n);
    assert h + Asks(table, m, vendors, order) + Calls(a, n) == h + RequestEvents(table, m, vendors, order, a, n);
  }

  // ----- probes that are claimed and never used

  predicate Silent(events: seq<Event>, vendor: string) {
    forall i :: 0 <= i < |events| ==> !Concerns(events[i], vendor)
  }

  /** Without an outcome of the vendor, its failures stay and its admissions only grow. */
  lemma {:induction false} SilentKeeps(cfg: Config, h: seq<Event>, more: seq<Event>, vendor: string)
    requires Silent(more, vendor)
    ensures Trailing(h + more, vendor) == Trailing(h, vendor)
    ensures AdmittedSince(cfg, h + more, vendor) >= AdmittedSince(cfg, h, vendor)
    decreases |more|
  {
    hide Allowing, Replay;
    if more == [] {
      assert h + more == h;
    } else {
      var front := more[..|more| - 1];
      SilentKeeps(cfg, h, front, vendor);
      assert (h + more)[..|h + more| - 1] == h + front && (h + more)[|h + more| - 1] == more[|more| - 1];
    }
  }

  /** A tripped vendor that has admitted a probe is refused until an outcome is recorded, however long that takes. */
  lemma ClaimedProbeBlocks(cfg: Config, h: seq<Event>, more: seq<Event>, vendor: string, now: int)
    requires vendor != COMPOSITE_VENDOR && cfg.threshold >= 1
    requires Tripped(cfg, h, vendor) && AdmittedSince(cfg, h, vendor) >= 1 && Silent(more, vendor)
    ensures !Allowing(After(cfg, h + more, vendor), now).1
  {
    hide Allowing, AdmittedSince, Trailing;
    SilentKeeps(cfg, h, more, vendor);
    AdmittedExactly(cfg, h + more, vendor, now);
  }

  lemma {:induction false} AsksAreSilent(table: Table, m: Moment, vendors: map<string, VendorState>, order: seq<string>, vendor: string)
    ensures Silent(Asks(table, m, vendors, order), vendor)
    decreases |order|
  {
    if order != [] {
      AsksAreSilent(table, m, vendors, order[..|order| - 1], vendor);
    }
  }

  lemma {:induction false} CandidateIsAdmitted(cfg: Config, table: Table, m: Moment, h: seq<Event>, order: seq<string>, vendor: string)
    requires vendor in Screening(table, m, Replay(cfg, h), order).0
    ensures AdmittedSince(cfg, h + Asks(table, m, Replay(cfg, h), order), vendor) >= 1
    decreases |order|
  {
    hide Blocking, Excluded, Allowing, Replay, ScreenedAll;
    var vendors := Replay(cfg, h);
    var front, last := order[..|order| - 1], order[|order| - 1];
    var asked := Asks(table, m, vendors, front);
    if vendor in Screening(table, m, vendors, front).0 {
      CandidateIsAdmitted(cfg, table, m, h, front, vendor);
      var one := Asks(table, m, vendors, order)[|asked|..];
      AsksAreSilent(table, m, vendors, order, vendor);
      assert Silent(one, vendor);
      SilentKeeps(cfg, h + asked, one, vendor);
      assert h + asked + one == h + Asks(table, m, vendors, order);
    } else {
      ScreenedIsHistory(cfg, table, m, vendors, h, front);
      var e := Ask(vendor, m.now);
      assert h + Asks(table, m, vendors, order) == h + asked + [e];
      assert (h + asked + [e])[..|h + asked|] == h + asked;
    }
  }

  lemma {:induction false} TriesConcern<T>(vendor: string, reply: Reply<T>, count: nat, other: string)
    requires other != vendor
    ensures Silent(Tries(vendor, reply, count), other)
  {
    if count > 0 {
      TriesConcern(vendor, reply, count - 1, other);
    }
  }

  /** Some try at the vendor was made: it was reached and the local rate limit let the attempt through. */
  ghost predicate Tried<T>(a: Asking<T>, n: nat, vendor: string)
    requires n <= a.Size()
  {
    exists j: nat :: j < n && a.candidates.list[j] == vendor && a.replies(j).granted
  }

  lemma {:induction false} CallsConcern<T>(a: Asking<T>, n: nat, vendor: string)
    requires n <= a.Size() && !Tried(a, n, vendor)
    ensures Silent(Calls(a, n), vendor)
  {
    hide Tries;
    if n > 0 {
      CallsConcern(a, n - 1, vendor);
      var reply := a.replies(n - 1);
      if reply.granted {
        TriesConcern(a.candidates.list[n - 1], reply, LastTry(reply.answers, a.retries, 0) + 1, vendor);
      }
    }
  }

  /** Events of other vendors change nothing of this one's admissions. */
  lemma {:induction false} ForeignKeeps(cfg: Config, h: seq<Event>, more: seq<Event>, vendor: string)
    requires forall i :: 0 <= i < |more| ==> more[i].vendor != vendor
    ensures AdmittedSince(cfg, h + more, vendor) == AdmittedSince(cfg, h, vendor)
    decreases |more|
  {
    hide Allowing, Replay;
    if more == [] {
      assert h + more == h;
    } else {
      var front := more[..|more| - 1];
      ForeignKeeps(cfg, h, front, vendor);
      assert (h + more)[..|h + more| - 1] == h + front && (h + more)[|h + more| - 1] == more[|more| - 1];
    }
  }

  lemma {:induction false} TriesAreOwn<T>(vendor: string, reply: Reply<T>, count: nat)
    ensures forall i :: 0 <= i < |Tries(vendor, reply, count)| ==> Tries(vendor, reply, count)[i].vendor == vendor
  {
    if count > 0 {
      TriesAreOwn(vendor, reply, count - 1);
    }
  }

  lemma TriesReset<T>(cfg: Config, h: seq<Event>, vendor: string, reply: Reply<T>, count: nat)
    requires count > 0
    ensures AdmittedSince(cfg, h + Tries(vendor, reply, count), vendor) == 0
  {
    hide Allowing, Replay;
    var all := h + Tries(vendor, reply, count);
    assert Concerns(all[|all| - 1], vendor);
  }

  /** Once a try was made no admission is outstanding: every try is recorded. */
  lemma {:induction false} CallsReset<T>(cfg: Config, h: seq<Event>, a: Asking<T>, n: nat, vendor: string)
    requires n <= a.Size() && Tried(a, n, vendor)
    ensures AdmittedSince(cfg, h + Calls(a, n), vendor) == 0
  {
    hide Tries, AdmittedSince;
    var reply, last, before := a.replies(n - 1), a.candidates.list[n - 1], h + Calls(a, n - 1);
    var count := LastTry(reply.answers, a.retries, 0) + 1;
    if reply.granted {
      assert h + Calls(a, n) == before + Tries(last, reply, count);
      if last == vendor {
        TriesReset(cfg, before, vendor, reply, count);
      } else {
        CallsReset(cfg, h, a, n - 1, vendor);
        TriesAreOwn(last, reply, count);
        ForeignKeeps(cfg, before, Tries(last, reply, count), vendor);
      }
    } else {
      CallsReset(cfg, h, a, n - 1, vendor);
      assert Calls(a, n) == Calls(a, n - 1);
    }
  }

  /** After a request, the probe or admission of one of its candidates is outstanding exactly if no try at it was made. */
  lemma OutstandingIffUntried<T>(cfg: Config, h: seq<Event>, table: Table, m: Moment, order: seq<string>, a: Asking<T>, n: nat,
                                 vendor: string)
    requires a.candidates == Choosing(table, m, Replay(cfg, h), order) && n <= a.Size() && vendor in a.candidates.list
    ensures AdmittedSince(cfg, h + RequestEvents(table, m, Replay(cfg, h), order, a, n), vendor) >= 1 <==> !Tried(a, n, vendor)
  {
    hide Asks, Calls, Screening, AdmittedSince, Replay, Tried;
    var asked, calls := Asks(table, m, Replay(cfg, h), order), Calls(a, n);
    assert h + asked + calls == h + RequestEvents(table, m, Replay(cfg, h), order, a, n);
    if Tried(a, n, vendor) {
      CallsReset(cfg, h + asked, a, n, vendor);
    } else {
      CandidateIsAdmitted(cfg, table, m, h, order, vendor);
      CallsConcern(a, n, vendor);
      SilentKeeps(cfg, h + asked, calls, vendor);
    }
  }

  /** The breaker refuses the vendor at every instant of every future that records no outcome for it. */
  ghost predicate ShutOut(cfg: Config, h: seq<Event>, vendor: string) {
    forall more, now :: Silent(more, vendor) ==> !Allowing(After(cfg, h + more, vendor), now).1
  }

  /** With no admission outstanding a vendor is let in at the latest when the cooldown has passed. */
  lemma LetInAgain(cfg: Config, h: seq<Event>, vendor: string) returns (now: int)
    requires vendor != COMPOSITE_VENDOR && cfg.threshold >= 1 && AdmittedSince(cfg, h, vendor) == 0
    ensures Allowing(After(cfg, h, vendor), now).1
  {
    hide Allowing, Trailing, After;
    BreakerExplained(cfg, h, vendor);
    now := if Tripped(cfg, h, vendor) then LastOutcome(h, vendor).value + cfg.cooldown else 0;
    AdmittedExactly(cfg, h, vendor, now);
  }

  /**
   * Screening claims the probe of every candidate before any is tried. So a tripped vendor that becomes a candidate is shut
   * out of all later requests, until something else records an outcome for it, if and only if the request made no try at it:
   * an earlier candidate settled it, or the local rate limit refused the attempt. No passing of time lets it back in.
   */
  lemma ProbeIsLostIff<T>(cfg: Config, h: seq<Event>, table: Table, m: Moment, order: seq<string>, a: Asking<T>, n: nat,
                          vendor: string)
    requires vendor != COMPOSITE_VENDOR && cfg.threshold >= 1 && Tripped(cfg, h, vendor)
    requires a.candidates == Choosing(table, m, Replay(cfg, h), order) && n <= a.Size() && vendor in a.candidates.list
    ensures ShutOut(cfg, h + RequestEvents(table, m, Replay(cfg, h), order, a, n), vendor) <==> !Tried(a, n, vendor)
  {
    hide Asks, Calls, Screening, Allowing, AdmittedSince, Trailing, Replay, After, Tried;
    var asked, calls := Asks(table, m, Replay(cfg, h), order), Calls(a, n);
    var end := h + RequestEvents(table, m, Replay(cfg, h), order, a, n);
    OutstandingIffUntried(cfg, h, table, m, order, a, n, vendor);
    if Tried(a, n, vendor) {
      var now := LetInAgain(cfg, end, vendor);
      assert Silent([], vendor) && end + [] == end;
    } else {
      AsksAreSilent(table, m, Replay(cfg, h), order, vendor);
      SilentKeeps(cfg, h, asked, vendor);
      CallsConcern(a, n, vendor);
      SilentKeeps(cfg, h + asked, calls, vendor);
      assert h + asked + calls == end;
      forall more, now | Silent(more, vendor)
        ensures !Allowing(After(cfg, end + more, vendor), now).1
      {
        ClaimedProbeBlocks(cfg, end, more, vendor, now);
      }
    }
  }

  /** A candidate that is not reached because an earlier one settled the request loses its probe. */
  lemma UnreachedProbeIsLost<T>(cfg: Config, h: seq<Event>, table: Table, m: Moment, order: seq<string>, a: Asking<T>, n: nat,
                                vendor: string)
    requires vendor != COMPOSITE_VENDOR && cfg.threshold >= 1 && Tripped(cfg, h, vendor)
    requires a.candidates == Choosing(table, m, Replay(cfg, h), order) && n <= a.Size()
    requires vendor in a.candidates.list[n..] && vendor !in a.candidates.list[..n]
    ensures ShutOut(cfg, h + RequestEvents(table, m, Replay(cfg, h), order, a, n), vendor)
  {
    hide ShutOut, Screening, RequestEvents;
    assert vendor in a.candidates.list;
    forall j: nat | j < n
      ensures a.candidates.list[j] != vendor
    {
      assert a.candidates.list[j] in a.candidates.list[..n];
    }
    ProbeIsLostIff(cfg, h, table, m, order, a, n, vendor);
  }

  /** A candidate that is reached loses its probe too when the local rate limit refuses every attempt at it. */
  lemma LimitedProbeIsLost<T>(cfg: Config, h: seq<Event>, table: Table, m: Moment, order: seq<string>, a: Asking<T>, n: nat,
                              vendor: string)
    requires vendor != COMPOSITE_VENDOR && cfg.threshold >= 1 && Tripped(cfg, h, vendor)
    requires a.candidates == Choosing(table, m, Replay(cfg, h), order) && n <= a.Size()
    requires vendor in a.candidates.list[..n] && forall j: nat :: j < n && a.candidates.list[j] == vendor ==> !a.replies(j).granted
    ensures ShutOut(cfg, h + RequestEvents(table, m, Replay(cfg, h), order, a, n), vendor)
  {
    hide ShutOut, Screening, RequestEvents;
    assert vendor in a.candidates.list;
    ProbeIsLostIff(cfg, h, table, m, order, a, n, vendor);
  }

  // ----- both happen

  /** Two active vendors without budgets. */
  const TWO := Table(map["a" := Active, "b" := Active], {"a", "b"}, map[])

  /** The second has failed once, long enough ago. */
  function Failed(cfg: Config): seq<Event> {
    [Outcome("b", Some(Transient), 0, 0)]
  }

  /** The request is made when the cooldown is over; `limited` is the index that the local rate limit refuses, if any. */
  function Example(cfg: Config, order: seq<string>, limited: Option<nat>): Asking<()> {
    Asking(Choosing(TWO, Moment(map[], cfg.cooldown, 0), Replay(cfg, Failed(cfg)), order),
           j => Reply(limited != Some(j), _ => Ok(()), _ => 0, _ => 0), 0)
  }

  lemma BothAreCandidates(cfg: Config, order: seq<string>)
    requires cfg.threshold == 1 && (order == ["a", "b"] || order == ["b", "a"])
    ensures Choosing(TWO, Moment(map[], cfg.cooldown, 0), Replay(cfg, Failed(cfg)), order).list == order
    ensures Tripped(cfg, Failed(cfg), "b")
  {
    var h, m := Failed(cfg), Moment(map[], cfg.cooldown, 0);
    assert h[..0] == [] && h == [] + h;
    ReplayOneMore(cfg, [], h[0]);
    var vendors := Replay(cfg, h);
    assert vendors == map["b" := Recording(cfg, "b", FRESH, Some(Transient), 0, 0)];
    assert Refusal(TWO, m, StateOf(vendors, "a"), "a").None?;
    assert Refusal(TWO, m, StateOf(vendors, "b"), "b").None?;
    CandidatesAreUsable(TWO, m, vendors, order);
    var front := order[..1];
    assert order == front + [order[1]] && front[..0] == [];
    assert Usable(TWO, m, vendors, front) == front;
  }

  /** Failover through a healthy vendor to one whose probe is due: the first answers, and the second is shut out. */
  lemma UnreachedExample(cfg: Config)
    requires cfg.threshold == 1
    ensures var a := Example(cfg, ["a", "b"], None);
            && FailoverResult(a, false).Ok? && TriedByFailover(a, false) == 1
            && ShutOut(cfg, Failed(cfg) + RequestEvents(TWO, Moment(map[], cfg.cooldown, 0), Replay(cfg, Failed(cfg)),
                                                        ["a", "b"], a, 1), "b")
  {
    hide ShutOut, Screening, RequestEvents, Replay, CodeFor;
    var a := Example(cfg, ["a", "b"], None);
    BothAreCandidates(cfg, ["a", "b"]);
    assert a.Answer(0).Ok?;
    UnreachedProbeIsLost(cfg, Failed(cfg), TWO, Moment(map[], cfg.cooldown, 0), ["a", "b"], a, 1, "b");
  }

  /** Failover to the vendor whose probe is due, which the local rate limit refuses: the other answers, and it is shut out. */
  lemma LimitedExample(cfg: Config)
    requires cfg.threshold == 1
    ensures var a := Example(cfg, ["b", "a"], Some(0));
            && FailoverResult(a, false).Ok? && TriedByFailover(a, false) == 2
            && ShutOut(cfg, Failed(cfg) + RequestEvents(TWO, Moment(map[], cfg.cooldown, 0), Replay(cfg, Failed(cfg)),
                                                        ["b", "a"], a, 2), "b")
  {
    hide ShutOut, Screening, RequestEvents, Replay, CodeFor;
    var a := Example(cfg, ["b", "a"], Some(0));
    BothAreCandidates(cfg, ["b", "a"]);
    assert GoesOn(a, false, 0) && a.Answer(1).Ok?;
    assert Decisive(a, false, 0) == Decisive(a, false, 1) == 1;
    LimitedProbeIsLost(cfg, Failed(cfg), TWO, Moment(map[], cfg.cooldown, 0), ["b", "a"], a, 2, "b");
  }
}
