/** The routing strategies: failover, quorum, aggregate and fan-out, and what each answer or error means. */
module Strategies {
  import opened Attempts
  import opened Budgets
  import opened Counters
  import opened Providers
  import opened Runtime
  import opened Wrappers

  /** One request at its candidates: who can be asked, and how an attempt at each of them would go. */
  datatype Asking<!T> = Asking(candidates: Candidates, replies: nat -> Reply<T>, retries: nat)
  {
    function Size(): nat {
      |candidates.list|
    }

    function Answer(i: nat): Result<T, ProviderError> {
      Final(replies(i), retries)
    }

    predicate SaysNotFound(i: nat) {
      Answer(i).Err? && Answer(i).error.NotFound?
    }

    function RowAt(i: nat): Row
      requires i < Size()
    {
      Attempts.RowOf(candidates.list[i], replies(i), retries)
    }

    /** The trail once the first `n` candidates have been tried. */
    function Trail(n: nat): (rows: seq<Row>)
      requires n <= Size()
      ensures |rows| == |candidates.skipped| + n
    {
      candidates.skipped + seq(n, i requires 0 <= i < n => RowAt(i))
    }

    /** The error of the last failed candidate among the first `n`. */
    function LastError(n: nat): Option<ProviderError> {
      if n == 0 then None
      else if Answer(n - 1).Err? then Some(Answer(n - 1).error)
      else LastError(n - 1)
    }

    /** The answers among the first `n` candidates, in configured order. */
    function Successes(n: nat): (oks: seq<(string, T)>)
      requires n <= Size()
      ensures |oks| <= n
    {
      if n == 0 then []
      else Successes(n - 1) + if Answer(n - 1).Ok? then [(candidates.list[n - 1], Answer(n - 1).value)] else []
    }

    /** The vendors once the first `n` candidates have been tried. */
    function VendorsAfter(cfg: Config, vendors: map<string, VendorState>, n: nat): map<string, VendorState>
      requires n <= Size()
    {
      if n == 0 then vendors
      else Attempted(cfg, VendorsAfter(cfg, vendors, n - 1), candidates.list[n - 1], replies(n - 1), retries)
    }
  }

  lemma TrailGrows<T>(a: Asking<T>, n: nat)
    requires n < a.Size()
    ensures a.Trail(n + 1) == a.Trail(n) + [a.RowAt(n)]
  {
  }

  lemma TrailStarts<T>(a: Asking<T>)
    ensures a.Trail(0) == a.candidates.skipped
  {
  }

  /** A failed or limited candidate leaves an error behind, so without one nothing was tried. */
  lemma LastErrorMissing<T>(a: Asking<T>, n: nat)
    requires n <= a.Size() && a.Successes(n) == [] && a.LastError(n).None?
    ensures n == 0
  {
  }

  /** Attempts at the first `count` candidates; they run at the same time, and no answer depends on another. */
  method JoinAll<T>(state: RuntimeState, c: Candidates, count: nat, retries: nat, replies: nat -> Reply<T>)
    returns (results: seq<(Result<T, ProviderError>, Row)>)
    requires count <= |c.list|
    modifies state`vendors
    ensures var a := Asking(c, replies, retries);
            && |results| == count
            && (forall i: nat :: i < count ==> results[i] == (a.Answer(i), a.RowAt(i)))
            && state.vendors == a.VendorsAfter(state.cfg, old(state.vendors), count)
  {
    hide Attempted, Attempts.RowOf, Final;
    ghost var a := Asking(c, replies, retries);
    results := [];
    for i := 0 to count
      invariant |results| == i
      invariant forall j: nat :: j < i ==> results[j] == (a.Answer(j), a.RowAt(j))
      invariant state.vendors == a.VendorsAfter(state.cfg, old(state.vendors), i)
    {
      var result, row := Attempt(state, c.list[i], retries, replies(i));
      results := results + [(result, row)];
    }
  }

  // ----- failover

  /** The answer of candidate `i` lets failover go on to the next. */
  predicate GoesOn<T>(a: Asking<T>, confirm: bool, i: nat) {
    a.Answer(i).Err? &&
    (a.Answer(i).error.AllowsFailover() || (a.SaysNotFound(i) && confirm && forall j: nat :: j < i ==> !a.SaysNotFound(j)))
  }

  /** The first candidate from `i` on whose answer settles the request, or the number of candidates if none does. */
  function Decisive<T>(a: Asking<T>, confirm: bool, i: nat): (k: nat)
    requires i <= a.Size()
    ensures i <= k <= a.Size()
    ensures forall j: nat :: i <= j < k ==> GoesOn(a, confirm, j)
    ensures k < a.Size() ==> !GoesOn(a, confirm, k)
    decreases a.Size() - i
  {
    if i < a.Size() && GoesOn(a, confirm, i) then Decisive(a, confirm, i + 1) else i
  }

  function TriedByFailover<T>(a: Asking<T>, confirm: bool): (n: nat)
    ensures n <= a.Size()
  {
    var k := Decisive(a, confirm, 0);
    if k < a.Size() then k + 1 else k
  }

  function FailoverResult<T>(a: Asking<T>, confirm: bool): Result<Routed<T>, RouteError> {
    var k := Decisive(a, confirm, 0);
    if k < a.Size() && a.Answer(k).Ok? then
      Ok(Routed(a.Answer(k).value, ProvenanceOf(a.Trail(k + 1), a.candidates.list[k], a.candidates.head)))
    else
      Err(RouteFailure(a.LastError(TriedByFailover(a, confirm)), a.Trail(TriedByFailover(a, confirm))))
  }

  method Failover<T>(state: RuntimeState, table: Table, order: seq<string>, confirm: bool, retries: nat,
                     now: int, wall: int, replies: nat -> Reply<T>)
    returns (r: Result<Routed<T>, RouteError>)
    modifies state`vendors
    ensures var m := Moment(state.store.totals, now, wall);
            var a := Asking(Choosing(table, m, old(state.vendors), order), replies, retries);
            && r == FailoverResult(a, confirm)
            && state.vendors == a.VendorsAfter(state.cfg, ScreenedAll(table, m, old(state.vendors), order), TriedByFailover(a, confirm))
  {
    hide Choosing, ScreenedAll, Attempted, CodeFor, Attempts.RowOf, Final, ProvenanceOf, Asking.Trail;
    var c := ChooseCandidates(state, table, order, now, wall);
    ghost var a := Asking(c, replies, retries);
    ghost var screened := state.vendors;
    var attempts := c.skipped;
    var last: Option<ProviderError> := None;
    var notFound := 0;
    TrailStarts(a);
    for i := 0 to |c.list|
      invariant attempts == a.Trail(i) && last == a.LastError(i)
      invariant state.vendors == a.VendorsAfter(state.cfg, screened, i)
      invariant notFound == 0 <==> forall j: nat :: j < i ==> !a.SaysNotFound(j)
      invariant Decisive(a, confirm, 0) == Decisive(a, confirm, i)
    {
      var result, row := Attempt(state, c.list[i], retries, replies(i));
      assert result == a.Answer(i);
      TrailGrows(a, i);
      attempts := attempts + [row];
      match result {
        case Ok(v) =>
          return Ok(Routed(v, ProvenanceOf(attempts, c.list[i], c.head)));
        case Err(e) =>
          if e.NotFound? && confirm && notFound == 0 {
            notFound := notFound + 1;
            last := Some(e);
          } else if e.AllowsFailover() {
            last := Some(e);
          } else {
            return Err(RouteFailure(Some(e), attempts));
          }
      }
    }
    return Err(RouteFailure(last, attempts));
  }

  /**
   * Failover is decided by the first candidate whose answer settles the request: it succeeds exactly if some candidate
   * answers and every one before it let the request go on; the answer is that candidate's, and the trail is the skipped
   * rows followed by the candidates up to and including the deciding one, so nothing after it was tried.
   */
  lemma FailoverDecided<T>(a: Asking<T>, confirm: bool)
    ensures FailoverResult(a, confirm).Ok? <==>
            exists k: nat :: k < a.Size() && a.Answer(k).Ok? && forall j: nat :: j < k ==> GoesOn(a, confirm, j)
    ensures forall k: nat :: k < a.Size() && !GoesOn(a, confirm, k) && (forall j: nat :: j < k ==> GoesOn(a, confirm, j)) ==>
              && TriedByFailover(a, confirm) == k + 1
              && (match a.Answer(k)
                  case Ok(v) => FailoverResult(a, confirm) ==
                                Ok(Routed(v, ProvenanceOf(a.Trail(k + 1), a.candidates.list[k], a.candidates.head)))
                  case Err(e) => FailoverResult(a, confirm) == Err(RouteFailure(Some(e), a.Trail(k + 1))))
    ensures (forall k: nat :: k < a.Size() ==> GoesOn(a, confirm, k)) ==>
              FailoverResult(a, confirm) == Err(RouteFailure(a.LastError(a.Size()), a.Trail(a.Size())))
  {
    hide Final, Attempts.RowOf, CodeFor, ProvenanceOf;
    var k := Decisive(a, confirm, 0);
    forall i: nat | i < a.Size() && !GoesOn(a, confirm, i) && (forall j: nat :: j < i ==> GoesOn(a, confirm, j))
      ensures i == k
    {
    }
    if k < a.Size() && a.Answer(k).Ok? {
      assert forall j: nat :: j < k ==> GoesOn(a, confirm, j);
    }
    forall i: nat | i < a.Size() && a.Answer(i).Ok? && (forall j: nat :: j < i ==> GoesOn(a, confirm, j))
      ensures i == k
    {
      assert !GoesOn(a, confirm, i);
    }
  }

  /** With confirmation asked for, a request is settled as "not found" before the candidates run out only by two answers. */
  lemma NotFoundIsConfirmed<T>(a: Asking<T>, confirm: bool)
    requires confirm && FailoverResult(a, confirm).Err? && FailoverResult(a, confirm).error.code == NotFoundCode
    requires TriedByFailover(a, confirm) < a.Size()
    ensures exists i: nat, j: nat :: i < j < TriedByFailover(a, confirm) && a.SaysNotFound(i) && a.SaysNotFound(j)
  {
    hide Final, Attempts.RowOf;
    var k := Decisive(a, confirm, 0);
    assert a.SaysNotFound(k);
    var i: nat :| i < k && a.SaysNotFound(i);
  }

  /** A failover's answer is the primary one exactly if nothing refuses the head of the order and its attempt answers. */
  lemma PrimaryIffHeadAnswers<T>(a: Asking<T>, confirm: bool, table: Table, m: Moment, vendors: map<string, VendorState>,
                                 order: seq<string>)
    requires NoDuplicates(order) && order != [] && a.candidates == Choosing(table, m, vendors, order)
    requires FailoverResult(a, confirm).Ok?
    ensures FailoverResult(a, confirm).value.provenance.source == Primary <==>
            Refusal(table, m, StateOf(vendors, order[0]), order[0]).None? && a.Answer(0).Ok?
  {
    hide Refusal, Final, Attempts.RowOf, Screening, Usable, Asking.Trail;
    CandidatesAreUsable(table, m, vendors, order);
    UsableHead(table, m, vendors, order);
    var k := Decisive(a, confirm, 0);
    if k > 0 {
      assert GoesOn(a, confirm, 0);
    }
  }

  /** Without confirmation the first "not found" settles it. */
  lemma NotFoundAtOnce<T>(a: Asking<T>, k: nat)
    requires k < a.Size() && a.SaysNotFound(k) && forall j: nat :: j < k ==> GoesOn(a, false, j)
    ensures FailoverResult(a, false) == Err(RouteError(NotFoundCode, a.Trail(k + 1)))
  {
    FailoverDecided(a, false);
  }

  /** The candidates among the first `n` that the vendor itself failed said "unsupported". */
  predicate OnlyUnsupported<T>(a: Asking<T>, n: nat) {
    forall i: nat :: i < n && a.replies(i).granted && a.Answer(i).Err? ==> a.Answer(i).error.Unsupported?
  }

  lemma TrailUnsupported<T>(a: Asking<T>, n: nat)
    requires n <= a.Size() && AllSkipped(a.candidates.skipped)
    ensures AllUnsupported(a.Trail(n)) <==> OnlyUnsupported(a, n)
    ensures n > 0 && OnlyUnsupported(a, n) && a.Answer(n - 1).Err? && !a.Answer(n - 1).error.Unsupported? ==> !a.replies(n - 1).granted
  {
    var skipped, rows := a.candidates.skipped, a.Trail(n);
    forall i: nat | i < n
      ensures rows[|skipped| + i] == a.RowAt(i)
      ensures rows[|skipped| + i].outcome.Failed? <==> a.replies(i).granted && a.Answer(i).Err?
      ensures a.replies(i).granted && a.Answer(i).Err? ==>
                (rows[|skipped| + i].code == Some(UnsupportedCapability) <==> a.Answer(i).error.Unsupported?)
    {
    }
    if AllUnsupported(rows) {
      forall i: nat | i < n && a.replies(i).granted && a.Answer(i).Err?
        ensures a.Answer(i).error.Unsupported?
      {
        assert rows[|skipped| + i].outcome.Failed?;
      }
    }
    if OnlyUnsupported(a, n) {
      forall i | 0 <= i < |rows| && rows[i].outcome.Failed?
        ensures rows[i].code == Some(UnsupportedCapability)
      {
        if i >= |skipped| {
          assert rows[|skipped| + (i - |skipped|)] == a.RowAt(i - |skipped|);
        }
      }
    }
  }

  /**
   * The error of a failover that ran out of candidates. It is "unsupported" exactly if there was nobody to ask, or the last
   * one asked and every other vendor that failed itself called it so; and "not found", "rate limited" or "quota exceeded"
   * are the last candidate's own words.
   */
  lemma ExhaustedMeaning<T>(a: Asking<T>, confirm: bool)
    requires Decisive(a, confirm, 0) == a.Size() && AllSkipped(a.candidates.skipped)
    ensures FailoverResult(a, confirm).Err?
    ensures var code, n := FailoverResult(a, confirm).error.code, a.Size();
            && (code == UnsupportedCapability <==>
                n == 0 || (a.Answer(n - 1).Err? && a.Answer(n - 1).error.Unsupported? && OnlyUnsupported(a, n)))
            && (n > 0 ==>
                  && a.Answer(n - 1).Err?
                  && (code == NotFoundCode <==> a.Answer(n - 1).error.NotFound?)
                  && (code == RateLimitedCode <==> a.Answer(n - 1).error.RateLimited?)
                  && (code == QuotaExceededCode <==> a.Answer(n - 1).error.QuotaExhausted?))
  {
    hide Final, Attempts.RowOf, AllUnsupported, OnlyUnsupported;
    var n := a.Size();
    TrailUnsupported(a, n);
    if n > 0 {
      assert GoesOn(a, confirm, n - 1);
    }
  }

  // ----- collecting answers

  /** How many candidates are tried: a first wave of `n`, then one at a time until `n` have answered. */
  function Backfill<T>(a: Asking<T>, n: nat, m: nat): (k: nat)
    requires m <= a.Size()
    ensures m <= k <= a.Size()
    ensures k < a.Size() ==> |a.Successes(k)| >= n
    ensures forall j: nat :: m <= j < k ==> |a.Successes(j)| < n
    decreases a.Size() - m
  {
    if m < a.Size() && |a.Successes(m)| < n then Backfill(a, n, m + 1) else m
  }

  function Wave<T>(a: Asking<T>, n: nat): (m: nat)
    ensures m <= a.Size()
  {
    if n <= a.Size() then n else a.Size()
  }

  function TriedFor<T>(a: Asking<T>, n: nat): (k: nat)
    ensures k <= a.Size()
  {
    Backfill(a, n, Wave(a, n))
  }

  /** Sorts the results of the first wave into answers, trail and last error. */
  method Gather<T>(c: Candidates, results: seq<(Result<T, ProviderError>, Row)>, ghost a: Asking<T>)
    returns (oks: seq<(string, T)>, attempts: seq<Row>, last: Option<ProviderError>)
    requires a.candidates == c && |results| <= |c.list|
    requires forall i: nat :: i < |results| ==> results[i] == (a.Answer(i), a.RowAt(i))
    ensures oks == a.Successes(|results|) && attempts == a.Trail(|results|) && last == a.LastError(|results|)
  {
    hide Attempts.RowOf, Final, Asking.Trail;
    TrailStarts(a);
    attempts, oks, last := c.skipped, [], None;
    for i := 0 to |results|
      invariant oks == a.Successes(i) && attempts == a.Trail(i) && last == a.LastError(i)
    {
      TrailGrows(a, i);
      attempts := attempts + [results[i].1];
      match results[i].0 {
        case Ok(v) => oks := oks + [(c.list[i], v)];
        case Err(e) => last := Some(e);
      }
    }
  }

  lemma BackfillStep<T>(a: Asking<T>, n: nat, m: nat)
    requires m <= a.Size()
    ensures Backfill(a, n, m) == if m < a.Size() && |a.Successes(m)| < n then Backfill(a, n, m + 1) else m
  {
    hide Asking.Successes;
  }

  lemma TriedOneMore<T>(a: Asking<T>, n: nat, cfg: Config, vendors: map<string, VendorState>)
    requires n < a.Size()
    ensures a.Successes(n + 1) == a.Successes(n) + if a.Answer(n).Ok? then [(a.candidates.list[n], a.Answer(n).value)] else []
    ensures a.LastError(n + 1) == if a.Answer(n).Err? then Some(a.Answer(n).error) else a.LastError(n)
    ensures a.VendorsAfter(cfg, vendors, n + 1)
            == Attempted(cfg, a.VendorsAfter(cfg, vendors, n), a.candidates.list[n], a.replies(n), a.retries)
  {
    hide Final, Attempted;
  }

  method CollectN<T>(state: RuntimeState, table: Table, order: seq<string>, n: nat, retries: nat,
                     now: int, wall: int, replies: nat -> Reply<T>)
    returns (oks: seq<(string, T)>, attempts: seq<Row>, last: Option<ProviderError>, head: Option<string>)
    modifies state`vendors
    ensures var m := Moment(state.store.totals, now, wall);
            var a := Asking(Choosing(table, m, old(state.vendors), order), replies, retries);
            var k := TriedFor(a, n);
            && oks == a.Successes(k) && attempts == a.Trail(k) && last == a.LastError(k) && head == a.candidates.head
            && state.vendors == a.VendorsAfter(state.cfg, ScreenedAll(table, m, old(state.vendors), order), k)
  {
    hide Choosing, ScreenedAll, Attempted, Attempts.RowOf, Final, Asking.Trail, Asking.Successes, Asking.LastError;
    hide Asking.VendorsAfter, Backfill;
    var c := ChooseCandidates(state, table, order, now, wall);
    ghost var a := Asking(c, replies, retries);
    ghost var screened := state.vendors;
    head := c.head;
    var next := if n <= |c.list| then n else |c.list|;
    var results := JoinAll(state, c, next, retries, replies);
    oks, attempts, last := Gather(c, results, a);
    while next < |c.list| && |oks| < n
      invariant next <= |c.list|
      invariant oks == a.Successes(next) && attempts == a.Trail(next) && last == a.LastError(next)
      invariant state.vendors == a.VendorsAfter(state.cfg, screened, next)
      invariant TriedFor(a, n) == Backfill(a, n, next)
    {
      BackfillStep(a, n, next);
      var result, row := Attempt(state, c.list[next], retries, replies(next));
      TrailGrows(a, next);
      TriedOneMore(a, next, state.cfg, screened);
      attempts := attempts + [row];
      match result {
        case Ok(v) => oks := oks + [(c.list[next], v)];
        case Err(e) => last := Some(e);
      }
      next := next + 1;
    }
    BackfillStep(a, n, next);
  }

  lemma {:induction false} SuccessesPrefix<T>(a: Asking<T>, m: nat, n: nat)
    requires m <= n <= a.Size()
    ensures a.Successes(m) <= a.Successes(n)
    decreases n - m
  {
    if m < n {
      SuccessesPrefix(a, m, n - 1);
    }
  }

  /**
   * Whatever the candidates answer, collecting yields exactly the first min(n, k) of the k candidates that would answer, in
   * configured order, and beyond the first wave of n it tries only the shortest prefix that is needed for that.
   */
  lemma CollectsFirst<T>(a: Asking<T>, n: nat)
    ensures var (k, all) := (TriedFor(a, n), a.Successes(a.Size()));
            && a.Successes(k) == (if n <= |all| then all[..n] else all)
            && (k < a.Size() ==> |a.Successes(k)| == n)
            && k >= Wave(a, n)
            && forall j: nat :: Wave(a, n) <= j < k ==> |a.Successes(j)| < n
  {
    hide Final;
    var k := TriedFor(a, n);
    SuccessesPrefix(a, k, a.Size());
    if k > Wave(a, n) {
      assert |a.Successes(k - 1)| < n;
    }
  }

  // ----- quorum

  datatype QuorumOutcome<T> = QuorumOutcome(value: T, agreeing: nat, required: nat)

  function AtLeastOne(n: nat): nat {
    if n > 1 then n else 1
  }

  predicate Agree<T>(oks: seq<(string, T)>, key: T -> string) {
    forall i :: 0 <= i < |oks| ==> key(oks[i].1) == key(oks[0].1)
  }

  function OnlyRows(rows: seq<Row>, skipped: bool): (r: seq<Row>)
    ensures forall i :: 0 <= i < |r| ==> r[i].outcome.Skipped? == skipped
    decreases |rows|
  {
    if rows == [] then []
    else if rows[0].outcome.Skipped? == skipped then [rows[0]] + OnlyRows(rows[1..], skipped)
    else OnlyRows(rows[1..], skipped)
  }

  /** Stable order by "was it tried at all". */
  function SkippedFirst(rows: seq<Row>): seq<Row> {
    OnlyRows(rows, true) + OnlyRows(rows, false)
  }

  /** The verdict on collected answers. */
  function QuorumResult<T>(a: Asking<T>, n: nat, key: T -> string): Result<Routed<QuorumOutcome<T>>, RouteError> {
    var k := TriedFor(a, AtLeastOne(n));
    var oks := a.Successes(k);
    if |oks| == 0 then Err(RouteFailure(a.LastError(k), a.Trail(k)))
    else if !Agree(oks, key) then Err(RouteError(Conflict, SkippedFirst(a.Trail(k))))
    else
      var p := ProvenanceOf(a.Trail(k), oks[0].0, a.candidates.head);
      Ok(Routed(QuorumOutcome(oks[0].1, |oks|, n), if |oks| > 1 then p.(source := Aggregate) else p))
  }

  method Quorum<T>(state: RuntimeState, table: Table, order: seq<string>, n: nat, key: T -> string, retries: nat,
                   now: int, wall: int, replies: nat -> Reply<T>)
    returns (r: Result<Routed<QuorumOutcome<T>>, RouteError>)
    modifies state`vendors
    ensures var m := Moment(state.store.totals, now, wall);
            var a := Asking(Choosing(table, m, old(state.vendors), order), replies, retries);
            r == QuorumResult(a, n, key)
  {
    hide Choosing, ScreenedAll, Attempted, Attempts.RowOf, Final, CodeFor, TriedFor;
    ghost var a := Asking(Choosing(table, Moment(state.store.totals, now, wall), state.vendors, order), replies, retries);
    var oks, attempts, last, head := CollectN(state, table, order, if n > 1 then n else 1, retries, now, wall, replies);
    var keys := seq(|oks|, i requires 0 <= i < |oks| => key(oks[i].1));
    if |keys| == 0 {
      return Err(RouteFailure(last, attempts));
    }
    if exists i :: 1 <= i < |keys| && keys[i] != keys[0] {
      return Err(RouteError(Conflict, SkippedFirst(attempts)));
    }
    assert Agree(oks, key) by {
      forall i | 0 <= i < |oks|
        ensures key(oks[i].1) == key(oks[0].1)
      {
        assert keys[i] == key(oks[i].1) && keys[0] == key(oks[0].1);
      }
    }
    var p := ProvenanceOf(attempts, oks[0].0, head);
    if |oks| > 1 {
      p := p.(source := Aggregate);
    }
    return Ok(Routed(QuorumOutcome(oks[0].1, |oks|, n), p));
  }

  /**
   * A quorum of n >= 1 succeeds exactly if somebody answered and the collected keys are all equal. Its answer is the first
   * in configured order, as many agree as could answer up to n, and fewer than required only when every candidate was tried.
   */
  lemma QuorumVerdict<T>(a: Asking<T>, n: nat, key: T -> string)
    requires n >= 1
    ensures var r := QuorumResult(a, n, key);
            var all := a.Successes(a.Size());
            var oks := if n <= |all| then all[..n] else all;
            && (r.Ok? <==> |all| > 0 && Agree(oks, key))
            && (r.Ok? ==> r.value.value == QuorumOutcome(all[0].1, |oks|, n))
            && (r.Ok? && r.value.value.agreeing < r.value.value.required ==> TriedFor(a, n) == a.Size() && oks == all)
            && (r.Ok? ==> (r.value.provenance.source == Aggregate <==> r.value.value.agreeing > 1))
            && (r.Err? && r.error.code == Conflict <==> !Agree(oks, key))
  {
    hide Final, TriedFor, Agree;
    CollectsFirst(a, n);
    var k := TriedFor(a, n);
    if a.Successes(k) == [] {
      EmptyAgrees(a.Successes(k), key);
    }
  }

  lemma EmptyAgrees<T>(oks: seq<(string, T)>, key: T -> string)
    requires oks == []
    ensures Agree(oks, key)
  {
  }

  lemma Moved<X>(a: seq<X>, x: X, b: seq<X>)
    ensures multiset(a + ([x] + b)) == multiset([x] + (a + b)) == multiset([x]) + multiset(a + b)
  {
  }

  lemma OneRow(first: Row, rest: seq<Row>)
    ensures var rows := [first] + rest;
            forall skipped :: OnlyRows(rows, skipped)
                              == (if first.outcome.Skipped? == skipped then [first] else []) + OnlyRows(rest, skipped)
  {
    assert ([first] + rest)[1..] == rest;
  }

  lemma OnSkipped(first: Row, rest: seq<Row>)
    requires first.outcome.Skipped?
    ensures SkippedFirst([first] + rest) == [first] + SkippedFirst(rest)
  {
    hide OnlyRows;
    OneRow(first, rest);
    assert OnlyRows([first] + rest, false) == OnlyRows(rest, false);
    assert [first] + OnlyRows(rest, true) + OnlyRows(rest, false) == [first] + (OnlyRows(rest, true) + OnlyRows(rest, false));
  }

  /** Reordering the trail of a conflict loses no row. */
  lemma {:induction false} SkippedFirstKeepsRows(rows: seq<Row>)
    ensures multiset(SkippedFirst(rows)) == multiset(rows)
    decreases |rows|
  {
    if rows != [] {
      var first, rest := rows[0], rows[1..];
      SkippedFirstKeepsRows(rest);
      assert rows == [first] + rest;
      OneRow(first, rest);
      if first.outcome.Skipped? {
        Moved([], first, SkippedFirst(rest));
        assert SkippedFirst(rows) == [first] + SkippedFirst(rest) by { OnSkipped(first, rest); }
      } else {
        Moved(OnlyRows(rest, true), first, OnlyRows(rest, false));
      }
    }
  }

  lemma {:induction false} OnlyRowsSplit(a: seq<Row>, b: seq<Row>, skipped: bool)
    ensures OnlyRows(a + b, skipped) == OnlyRows(a, skipped) + OnlyRows(b, skipped)
    decreases |a|
  {
    if a == [] {
      assert a + b == b;
    } else {
      OnlyRowsSplit(a[1..], b, skipped);
      assert (a + b)[1..] == a[1..] + b;
    }
  }

  lemma {:induction false} OnlyRowsAgain(rows: seq<Row>, skipped: bool, again: bool)
    ensures OnlyRows(OnlyRows(rows, skipped), again) == if skipped == again then OnlyRows(rows, skipped) else []
    decreases |rows|
  {
    if rows != [] {
      OnlyRowsAgain(rows[1..], skipped, again);
      if rows[0].outcome.Skipped? == skipped {
        assert ([rows[0]] + OnlyRows(rows[1..], skipped))[1..] == OnlyRows(rows[1..], skipped);
      }
    }
  }

  /** In the reordered trail the skipped rows come first, and on either side the rows keep their order. */
  lemma SkippedFirstMeans(rows: seq<Row>)
    ensures var sorted := SkippedFirst(rows);
            && (forall i, j :: 0 <= i < j < |sorted| && sorted[j].outcome.Skipped? ==> sorted[i].outcome.Skipped?)
            && forall skipped :: OnlyRows(sorted, skipped) == OnlyRows(rows, skipped)
  {
    hide OnlyRows;
    forall skipped
      ensures OnlyRows(SkippedFirst(rows), skipped) == OnlyRows(rows, skipped)
    {
      OnlyRowsSplit(OnlyRows(rows, true), OnlyRows(rows, false), skipped);
      OnlyRowsAgain(rows, true, skipped);
      OnlyRowsAgain(rows, false, skipped);
    }
  }

  // ----- aggregate and fan-out

  function AggregateResult<T>(a: Asking<T>, n: nat): Result<Routed<seq<(string, T)>>, RouteError> {
    var k := TriedFor(a, AtLeastOne(n));
    var oks := a.Successes(k);
    if |oks| == 0 then Err(RouteFailure(a.LastError(k), a.Trail(k)))
    else Ok(Routed(oks, Provenance(Aggregate, Some("aggregate"), a.Trail(k))))
  }

  method AggregateAnswers<T>(state: RuntimeState, table: Table, order: seq<string>, n: nat, retries: nat,
                             now: int, wall: int, replies: nat -> Reply<T>)
    returns (r: Result<Routed<seq<(string, T)>>, RouteError>)
    modifies state`vendors
    ensures var m := Moment(state.store.totals, now, wall);
            var a := Asking(Choosing(table, m, old(state.vendors), order), replies, retries);
            r == AggregateResult(a, n)
  {
    hide Choosing, ScreenedAll, Attempted, Attempts.RowOf, Final, CodeFor, TriedFor;
    var oks, attempts, last, head := CollectN(state, table, order, if n > 1 then n else 1, retries, now, wall, replies);
    if |oks| == 0 {
      return Err(RouteFailure(last, attempts));
    }
    var p := ProvenanceOf(attempts, oks[0].0, head).(source := Aggregate, provider := Some("aggregate"));
    return Ok(Routed(oks, p));
  }

  /** The first candidate among the first `n` that answered. */
  function FirstAnswer<T>(a: Asking<T>, i: nat): (k: nat)
    requires i <= a.Size()
    ensures i <= k <= a.Size()
    ensures forall j: nat :: i <= j < k ==> a.Answer(j).Err?
    ensures k < a.Size() ==> a.Answer(k).Ok?
    decreases a.Size() - i
  {
    if i < a.Size() && a.Answer(i).Err? then FirstAnswer(a, i + 1) else i
  }

  method FanOut<T>(state: RuntimeState, table: Table, order: seq<string>, retries: nat,
                   now: int, wall: int, replies: nat -> Reply<T>)
    returns (r: Result<Routed<seq<(string, Result<T, ProviderError>)>>, RouteError>)
    modifies state`vendors
    ensures var m := Moment(state.store.totals, now, wall);
            var a := Asking(Choosing(table, m, old(state.vendors), order), replies, retries);
            && state.vendors == a.VendorsAfter(state.cfg, ScreenedAll(table, m, old(state.vendors), order), a.Size())
            && (r.Ok? <==> exists i: nat :: i < a.Size() && a.Answer(i).Ok?)
            && (r.Ok? ==> |r.value.value| == a.Size() &&
                          (forall i: nat :: i < a.Size() ==> r.value.value[i] == (a.candidates.list[i], a.Answer(i))) &&
                          FirstAnswer(a, 0) < a.Size() &&
                          r.value.provenance == Provenance(Aggregate, Some(a.candidates.list[FirstAnswer(a, 0)]), a.Trail(a.Size())))
            && (r.Err? ==> r.error == RouteFailure(a.LastError(a.Size()), a.Trail(a.Size())))
  {
    hide Choosing, ScreenedAll, Attempted, Attempts.RowOf, Final, CodeFor;
    var c := ChooseCandidates(state, table, order, now, wall);
    ghost var a := Asking(c, replies, retries);
    ghost var screened := state.vendors;
    var attempts := c.skipped;
    var out: seq<(string, Result<T, ProviderError>)> := [];
    var last: Option<ProviderError> := None;
    var results := JoinAll(state, c, |c.list|, retries, replies);
    TrailStarts(a);
    for i := 0 to |c.list|
      invariant |out| == i && forall j: nat :: j < i ==> out[j] == (c.list[j], a.Answer(j))
      invariant attempts == a.Trail(i) && last == a.LastError(i)
      invariant state.vendors == a.VendorsAfter(state.cfg, screened, |c.list|)
    {
      var (result, row) := results[i];
      TrailGrows(a, i);
      attempts := attempts + [row];
      if result.Err? {
        last := Some(result.error);
      }
      out := out + [(c.list[i], result)];
    }
    for i := 0 to |out|
      invariant FirstAnswer(a, 0) == FirstAnswer(a, i)
      invariant forall j: nat :: j < i ==> a.Answer(j).Err?
    {
      assert out[i].1 == a.Answer(i);
      if out[i].1.Ok? {
        return Ok(Routed(out, ProvenanceOf(attempts, out[i].0, c.head).(source := Aggregate)));
      }
    }
    return Err(RouteFailure(last, attempts));
  }

  /**
   * No strategy ends in the bare "all providers failed": an error without a last answer means that nobody could be asked,
   * and is reported as a missing capability.
   */
  lemma NoBareFailure<T>(a: Asking<T>, confirm: bool, n: nat, key: T -> string)
    requires AllSkipped(a.candidates.skipped)
    ensures forall k: nat :: k <= a.Size() && a.Successes(k) == [] && a.LastError(k).None? ==>
              AllSkipped(a.Trail(k)) && RouteFailure(a.LastError(k), a.Trail(k)).code == UnsupportedCapability
    ensures FailoverResult(a, confirm).Err? ==>
              a.LastError(TriedByFailover(a, confirm)).None? ==> AllSkipped(a.Trail(TriedByFailover(a, confirm)))
    ensures QuorumResult(a, n, key).Err? && a.LastError(TriedFor(a, AtLeastOne(n))).None? ==>
              QuorumResult(a, n, key).error.code != AllProvidersFailed
  {
    hide Final, Attempts.RowOf, TriedFor, Backfill;
    forall k: nat | k <= a.Size() && a.Successes(k) == [] && a.LastError(k).None?
      ensures AllSkipped(a.Trail(k))
    {
      LastErrorMissing(a, k);
      TrailStarts(a);
    }
    TrailStarts(a);
    var k := Decisive(a, confirm, 0);
    if k > 0 {
      assert GoesOn(a, confirm, k - 1);
    }
  }
}
