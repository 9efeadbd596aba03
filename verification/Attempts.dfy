/** Choosing the candidates of one request, and one attempt at one of them. */
module Attempts {
  import opened Budgets
  import opened Counters
  import opened MapSums
  import opened Providers
  import opened Runtime
  import opened Wrappers

  // ----- the trail

  datatype AttemptOutcome = Answered | Failed | Skipped

  datatype Reason = NoReason | MissingKey | Disabled | UnknownVendor | NotForChain | Blocked(block: Block) | BreakerOpen
                  | LocalRateLimit | ErrorText(error: ProviderError)

  /** One line of the trail that answers and errors carry. */
  datatype Row = Row(vendor: string, outcome: AttemptOutcome, reason: Reason, code: Option<ErrorCode>)

  predicate AllSkipped(attempts: seq<Row>) {
    forall i :: 0 <= i < |attempts| ==> attempts[i].outcome.Skipped?
  }

  // ----- candidates

  datatype VendorStatus = Active | StatusDisabled | StatusMissingKey | StatusUnknown

  /** What the configuration and the registry say about each vendor for this request. */
  datatype Table = Table(status: map<string, VendorStatus>, ports: set<string>, budgets: map<string, EffectiveBudget>)

  function StatusOf(table: Table, vendor: string): VendorStatus {
    if vendor in table.status then table.status[vendor] else StatusUnknown
  }

  function BudgetOf(table: Table, vendor: string): Option<EffectiveBudget> {
    if vendor in table.budgets then Some(table.budgets[vendor]) else None
  }

  /** Why the configuration rules a vendor out, if it does. */
  function Excluded(table: Table, vendor: string): Option<Reason> {
    match StatusOf(table, vendor)
    case StatusMissingKey => Some(MissingKey)
    case StatusDisabled => Some(Disabled)
    case StatusUnknown => Some(UnknownVendor)
    case Active => if vendor in table.ports then None else Some(NotForChain)
  }

  /** Everything the guards read besides the vendors' own state. */
  datatype Moment = Moment(totals: map<TotalKey, int>, now: int, wall: int)

  /** Why a vendor in this state is not usable now, if it is not. */
  function Refusal(table: Table, m: Moment, s: VendorState, vendor: string): Option<Reason> {
    if Excluded(table, vendor).Some? then Excluded(table, vendor)
    else
      var block := Blocking(s, m.totals, vendor, BudgetOf(table, vendor), m.wall);
      if block.Some? then Some(Blocked(block.value))
      else if !Allowing(s, m.now).1 then Some(BreakerOpen)
      else None
  }

  function Screened(table: Table, m: Moment, vendors: map<string, VendorState>, vendor: string): map<string, VendorState> {
    var s := StateOf(vendors, vendor);
    if Excluded(table, vendor).Some? then vendors
    else if Blocking(s, m.totals, vendor, BudgetOf(table, vendor), m.wall).Some? then vendors[vendor := s]
    else vendors[vendor := Allowing(s, m.now).0]
  }

  /** The vendors' state once an order has been screened, its last vendor last. */
  function ScreenedAll(table: Table, m: Moment, vendors: map<string, VendorState>, order: seq<string>): map<string, VendorState>
    decreases |order|
  {
    if order == [] then vendors
    else Screened(table, m, ScreenedAll(table, m, vendors, order[..|order| - 1]), order[|order| - 1])
  }

  datatype Candidates = Candidates(list: seq<string>, skipped: seq<Row>, head: Option<string>)

  function Screening(table: Table, m: Moment, vendors: map<string, VendorState>, order: seq<string>): (seq<string>, seq<Row>)
    decreases |order|
  {
    if order == [] then ([], [])
    else
      var front, vendor := order[..|order| - 1], order[|order| - 1];
      var (list, skipped) := Screening(table, m, vendors, front);
      var refusal := Refusal(table, m, StateOf(ScreenedAll(table, m, vendors, front), vendor), vendor);
      if refusal.Some? then (list, skipped + [Row(vendor, Skipped, refusal.value, None)])
      else (list + [vendor], skipped)
  }

  function Choosing(table: Table, m: Moment, vendors: map<string, VendorState>, order: seq<string>): Candidates {
    var (list, skipped) := Screening(table, m, vendors, order);
    Candidates(list, skipped, if order == [] then None else Some(order[0]))
  }

  /** Resolve the order and filter out the vendors that cannot serve now; a passed open breaker is claimed for a probe. */
  method ChooseCandidates(state: RuntimeState, table: Table, order: seq<string>, now: int, wall: int) returns (c: Candidates)
    modifies state`vendors
    ensures var m := Moment(state.store.totals, now, wall);
            && c == Choosing(table, m, old(state.vendors), order)
            && state.vendors == ScreenedAll(table, m, old(state.vendors), order)
  {
    hide Blocking, Allowing;
    ghost var m := Moment(state.store.totals, now, wall);
    ghost var before := state.vendors;
    var list: seq<string>, skipped: seq<Row> := [], [];
    for i := 0 to |order|
      invariant (list, skipped) == Screening(table, m, before, order[..i])
      invariant state.vendors == ScreenedAll(table, m, before, order[..i])
    {
      assert order[..i + 1][..i] == order[..i];
      var vendor := order[i];
      match StatusOf(table, vendor) {
        case Active =>
        case StatusMissingKey =>
          skipped := skipped + [Row(vendor, Skipped, MissingKey, None)];
          continue;
        case StatusDisabled =>
          skipped := skipped + [Row(vendor, Skipped, Disabled, None)];
          continue;
        case StatusUnknown =>
          skipped := skipped + [Row(vendor, Skipped, UnknownVendor, None)];
          continue;
      }
      if vendor !in table.ports {
        skipped := skipped + [Row(vendor, Skipped, NotForChain, None)];
        continue;
      }
      var block := state.QuotaBlock(vendor, BudgetOf(table, vendor), wall);
      if block.Some? {
        skipped := skipped + [Row(vendor, Skipped, Blocked(block.value), None)];
        continue;
      }
      var allowed := state.BreakerAllows(vendor, now);
      if !allowed {
        skipped := skipped + [Row(vendor, Skipped, BreakerOpen, None)];
        assert state.vendors == Screened(table, m, ScreenedAll(table, m, before, order[..i]), vendor);
        continue;
      }
      list := list + [vendor];
    }
    assert order[..|order|] == order;
    c := Candidates(list, skipped, if order == [] then None else Some(order[0]));
  }

  predicate NoDuplicates(order: seq<string>) {
    forall i, j :: 0 <= i < j < |order| ==> order[i] != order[j]
  }

  function VendorsOf(rows: seq<Row>): seq<string>
    decreases |rows|
  {
    if rows == [] then [] else VendorsOf(rows[..|rows| - 1]) + [rows[|rows| - 1].vendor]
  }

  lemma VendorsOfAppended(rows: seq<Row>, row: Row)
    ensures VendorsOf(rows + [row]) == VendorsOf(rows) + [row.vendor]
  {
    assert (rows + [row])[..|rows|] == rows;
  }

  /** Every vendor of the order is in exactly one of the two, as often as in the order. */
  predicate Partitions(list: seq<string>, skipped: seq<Row>, order: seq<string>) {
    multiset(list) + multiset(VendorsOf(skipped)) == multiset(order) && AllSkipped(skipped)
  }

  lemma PartitionsOneMore(list: seq<string>, skipped: seq<Row>, front: seq<string>, vendor: string, row: Row)
    requires Partitions(list, skipped, front) && row.vendor == vendor && row.outcome.Skipped?
    ensures Partitions(list + [vendor], skipped, front + [vendor])
    ensures Partitions(list, skipped + [row], front + [vendor])
  {
    hide VendorsOf;
    VendorsOfAppended(skipped, row);
  }

  /** Screening loses no vendor and invents none: each one of the order is a candidate or explained in a skipped row. */
  lemma {:induction false} ScreeningPartitions(table: Table, m: Moment, vendors: map<string, VendorState>, order: seq<string>)
    ensures Partitions(Screening(table, m, vendors, order).0, Screening(table, m, vendors, order).1, order)
    decreases |order|
  {
    hide Refusal, ScreenedAll, Partitions;
    if order == [] {
      NothingPartitions();
    } else {
      var front, vendor := order[..|order| - 1], order[|order| - 1];
      ScreeningPartitions(table, m, vendors, front);
      var (list, skipped) := Screening(table, m, vendors, front);
      assert order == front + [vendor];
      var refusal := Refusal(table, m, StateOf(ScreenedAll(table, m, vendors, front), vendor), vendor);
      PartitionsOneMore(list, skipped, front, vendor, Row(vendor, Skipped, if refusal.Some? then refusal.value else NoReason, None));
    }
  }

  lemma NothingPartitions()
    ensures Partitions([], [], [])
  {
  }

  lemma {:induction false} UntouchedByScreening(table: Table, m: Moment, vendors: map<string, VendorState>,
                                                order: seq<string>, vendor: string)
    requires vendor !in order
    ensures StateOf(ScreenedAll(table, m, vendors, order), vendor) == StateOf(vendors, vendor)
    decreases |order|
  {
    if order != [] {
      UntouchedByScreening(table, m, vendors, order[..|order| - 1], vendor);
    }
  }

  /**
   * For an order without repetitions, the candidates are exactly its usable vendors: those whose state at the start of the
   * request gives no reason to refuse them. And they keep the configured order.
   */
  lemma {:induction false} CandidatesAreUsable(table: Table, m: Moment, vendors: map<string, VendorState>, order: seq<string>)
    requires NoDuplicates(order)
    ensures Screening(table, m, vendors, order).0 == Usable(table, m, vendors, order)
    decreases |order|
  {
    hide Refusal, ScreenedAll;
    if order != [] {
      var front, vendor := order[..|order| - 1], order[|order| - 1];
      CandidatesAreUsable(table, m, vendors, front);
      UntouchedByScreening(table, m, vendors, front, vendor);
    }
  }

  function Usable(table: Table, m: Moment, vendors: map<string, VendorState>, order: seq<string>): seq<string>
    decreases |order|
  {
    if order == [] then []
    else
      var vendor := order[|order| - 1];
      Usable(table, m, vendors, order[..|order| - 1]) +
      if Refusal(table, m, StateOf(vendors, vendor), vendor).None? then [vendor] else []
  }

  lemma OneMoreDistinct(list: seq<string>, vendor: string)
    requires NoDuplicates(list) && vendor !in list
    ensures NoDuplicates(list + [vendor])
  {
  }

  lemma {:induction false} UsableHead(table: Table, m: Moment, vendors: map<string, VendorState>, order: seq<string>)
    requires NoDuplicates(order) && order != []
    ensures var (list, head) := (Usable(table, m, vendors, order), order[0]);
            && NoDuplicates(list)
            && (forall v :: v in list ==> v in order)
            && if Refusal(table, m, StateOf(vendors, head), head).None? then list != [] && list[0] == head else head !in list
    decreases |order|
  {
    hide Refusal;
    var front, vendor := order[..|order| - 1], order[|order| - 1];
    assert forall v :: v in order <==> v in front || v == vendor;
    assert vendor !in front;
    var list := Usable(table, m, vendors, front);
    if front != [] {
      UsableHead(table, m, vendors, front);
    } else {
      assert list == [];
    }
    assert vendor !in list;
    OneMoreDistinct(list, vendor);
  }

  // ----- one attempt

  /**
   * How one attempt at a candidate goes: whether the local rate limit grants it in time, and for each try the vendor's
   * answer (a timeout is a transient error) and the clocks when it is recorded.
   */
  datatype Reply<T> = Reply(granted: bool, answers: nat -> Result<T, ProviderError>, now: nat -> int, wall: nat -> int)

  function ErrorOf<T>(r: Result<T, ProviderError>): Option<ProviderError> {
    match r
    case Ok(_) => None
    case Err(e) => Some(e)
  }

  predicate Retried<T>(r: Result<T, ProviderError>) {
    r.Err? && r.error.IsRetryable()
  }

  /** The try that decides: the first whose answer is not retryable, or the last one allowed. */
  function LastTry<T>(answers: nat -> Result<T, ProviderError>, retries: nat, tries: nat): (k: nat)
    requires tries <= retries
    ensures tries <= k <= retries
    ensures forall j :: tries <= j < k ==> Retried(answers(j))
    ensures k == retries || !Retried(answers(k))
    decreases retries - tries
  {
    if tries < retries && Retried(answers(tries)) then LastTry(answers, retries, tries + 1) else tries
  }

  function Final<T>(reply: Reply<T>, retries: nat): Result<T, ProviderError> {
    if reply.granted then reply.answers(LastTry(reply.answers, retries, 0)) else Err(RateLimited(None))
  }

  function RowOf<T>(vendor: string, reply: Reply<T>, retries: nat): Row {
    if !reply.granted then Row(vendor, Skipped, LocalRateLimit, None)
    else
      match Final(reply, retries)
      case Ok(_) => Row(vendor, Answered, NoReason, None)
      case Err(e) => Row(vendor, Failed, ErrorText(e), Some(e.Code()))
  }

  /** The vendors after the first `count` tries have been recorded. */
  function Recorded<T>(cfg: Config, vendors: map<string, VendorState>, vendor: string, reply: Reply<T>, count: nat)
    : map<string, VendorState>
  {
    if count == 0 then vendors
    else
      var before := Recorded(cfg, vendors, vendor, reply, count - 1);
      before[vendor := Recording(cfg, vendor, StateOf(before, vendor), ErrorOf(reply.answers(count - 1)),
                                 reply.now(count - 1), reply.wall(count - 1))]
  }

  function Attempted<T>(cfg: Config, vendors: map<string, VendorState>, vendor: string, reply: Reply<T>, retries: nat)
    : map<string, VendorState>
  {
    if reply.granted then Recorded(cfg, vendors, vendor, reply, LastTry(reply.answers, retries, 0) + 1) else vendors
  }

  /** Rate limit, retries and bookkeeping around the calls to one vendor. */
  method Attempt<T>(state: RuntimeState, vendor: string, retries: nat, reply: Reply<T>)
    returns (r: Result<T, ProviderError>, row: Row)
    modifies state`vendors
    ensures r == Final(reply, retries) && row == RowOf(vendor, reply, retries)
    ensures state.vendors == Attempted(state.cfg, old(state.vendors), vendor, reply, retries)
  {
    hide Recording;
    if !reply.granted {
      return Err(RateLimited(None)), Row(vendor, Skipped, LocalRateLimit, None);
    }
    var tries: nat := 0;
    while true
      invariant tries <= retries
      invariant LastTry(reply.answers, retries, 0) == LastTry(reply.answers, retries, tries)
      invariant state.vendors == Recorded(state.cfg, old(state.vendors), vendor, reply, tries)
      decreases retries - tries
    {
      r := reply.answers(tries);
      state.Record(vendor, ErrorOf(r), reply.now(tries), reply.wall(tries));
      if r.Err? && r.error.IsRetryable() && tries < retries {
        tries := tries + 1;
      } else if r.Ok? {
        return r, Row(vendor, Answered, NoReason, None);
      } else {
        return r, Row(vendor, Failed, ErrorText(r.error), Some(r.error.Code()));
      }
    }
  }

  /**
   * An attempt answers if and only if it was granted and some try within the allowance answered with only transient errors
   * before it; a transient error is reported only once every retry is used up, and any other error at once.
   */
  lemma AttemptOutcomes<T>(vendor: string, reply: Reply<T>, retries: nat)
    ensures Final(reply, retries).Ok? <==>
            reply.granted && exists k: nat :: k <= retries && reply.answers(k).Ok? && AllTransient(reply, k)
    ensures reply.granted ==>
              (Final(reply, retries) == Err(Transient) <==> AllTransient(reply, retries + 1))
    ensures forall k: nat :: reply.granted && k <= retries && AllTransient(reply, k) && reply.answers(k) != Err(Transient) ==>
              Final(reply, retries) == reply.answers(k)
    ensures !reply.granted ==> Final(reply, retries) == Err(RateLimited(None))
  {
    if reply.granted {
      var last := LastTry(reply.answers, retries, 0);
      assert forall j: nat :: Retried(reply.answers(j)) <==> reply.answers(j) == Err(Transient);
      assert AllTransient(reply, last);
      forall k: nat | k <= retries && AllTransient(reply, k) && reply.answers(k) != Err(Transient)
        ensures last == k
      {
        assert !Retried(reply.answers(k));
      }
    }
  }

  /** The first `n` tries all end in a transient error. */
  predicate AllTransient<T>(reply: Reply<T>, n: nat) {
    forall j: nat :: j < n ==> reply.answers(j).Err? && reply.answers(j).error == Transient
  }

  // ----- errors and provenance

  datatype Source = Primary | Fallback | Aggregate

  datatype Provenance = Provenance(source: Source, provider: Option<string>, tried: seq<Row>)

  datatype RouteError = RouteError(code: ErrorCode, attempts: seq<Row>)

  datatype Routed<T> = Routed(value: T, provenance: Provenance)

  function ProvenanceOf(attempts: seq<Row>, winner: string, head: Option<string>): Provenance {
    Provenance(if Some(winner) == head then Primary else Fallback, Some(winner), attempts)
  }

  /** Every vendor that was tried and failed called the request unsupported. */
  predicate AllUnsupported(attempts: seq<Row>) {
    forall i :: 0 <= i < |attempts| && attempts[i].outcome.Failed? ==> attempts[i].code == Some(UnsupportedCapability)
  }

  function CodeFor(last: Option<ProviderError>, attempts: seq<Row>): ErrorCode {
    match last
    case None => if AllSkipped(attempts) then UnsupportedCapability else AllProvidersFailed
    case Some(Invalid) => InvalidInput
    case Some(NotFound) => NotFoundCode
    case Some(RateLimited(_)) => RateLimitedCode
    case Some(QuotaExhausted(_)) => QuotaExceededCode
    case Some(e) => if e.Unsupported? && AllUnsupported(attempts) then UnsupportedCapability else AllProvidersFailed
  }

  function RouteFailure(last: Option<ProviderError>, attempts: seq<Row>): RouteError {
    RouteError(CodeFor(last, attempts), attempts)
  }
}
