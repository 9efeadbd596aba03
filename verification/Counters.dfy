/** Usage counters in memory, the sink that meters requests into them, and what metering conserves. */
module Counters {
  import opened Budgets
  import opened MapSums
  import opened Windows
  import opened Wrappers

  /** Attribution of one metered request; `operation` is the vendor method called. */
  datatype Dims = Dims(operation: string, tool: Option<string>, chain: Option<string>, client: Option<string>)

  type TotalKey = (string, WindowKey)
  type RowKey = (string, WindowKey, Dims)

  /** Value of the counters: totals per vendor and window, and rows per attribution. */
  datatype Usage = Usage(totals: map<TotalKey, int>, rows: map<RowKey, int>)

  function Add<K>(m: map<K, int>, k: K, amount: nat): map<K, int> {
    m[k := At(m, k) + amount]
  }

  function AddingTotal(u: Usage, vendor: string, w: WindowKey, amount: nat): Usage {
    u.(totals := Add(u.totals, (vendor, w), amount))
  }

  function AddingRow(u: Usage, vendor: string, w: WindowKey, amount: nat, dims: Dims): Usage {
    u.(rows := Add(u.rows, (vendor, w, dims), amount))
  }

  function Adding(u: Usage, vendor: string, w: WindowKey, amount: nat, dims: Dims): Usage {
    AddingRow(AddingTotal(u, vendor, w, amount), vendor, w, amount, dims)
  }

  class InMemoryCounterStore {
    var totals: map<TotalKey, int>
    var rows: map<RowKey, int>

    constructor ()
      ensures State() == Usage(map[], map[])
    {
      totals, rows := map[], map[];
    }

    function State(): Usage
      reads this
    {
      Usage(totals, rows)
    }

    method AddUsage(vendor: string, w: WindowKey, amount: nat, dims: Dims)
      modifies this
      ensures forall k :: At(totals, k) == At(old(totals), k) + if k == (vendor, w) then amount else 0
      ensures forall k :: At(rows, k) == At(old(rows), k) + if k == (vendor, w, dims) then amount else 0
      ensures State() == Adding(old(State()), vendor, w, amount, dims)
    {
      var total := if (vendor, w) in totals then totals[(vendor, w)] else 0;
      totals := totals[(vendor, w) := total + amount];
      var row := if (vendor, w, dims) in rows then rows[(vendor, w, dims)] else 0;
      rows := rows[(vendor, w, dims) := row + amount];
    }

    method Total(vendor: string, w: WindowKey) returns (n: int)
      ensures n == At(totals, (vendor, w))
    {
      n := if (vendor, w) in totals then totals[(vendor, w)] else 0;
    }

    /** How one vendor's window splits up: an amount for every attribution that was charged, which make up all its rows. */
    method Breakdown(vendor: string, w: WindowKey) returns (r: map<Dims, int>)
      ensures forall d :: d in r <==> (vendor, w, d) in rows
      ensures forall d :: d in r ==> r[d] == rows[(vendor, w, d)]
      ensures Sum(r) == RowsTotal(State(), vendor, w)
    {
      r := map k | k in rows && k.0 == vendor && k.1 == w :: k.2 := rows[k];
      SplitsUp(State(), vendor, w, r);
    }
  }

  /** One metered request: what it costs and when it was made. */
  datatype Request = Request(vendor: string, now: int, cost: nat, dims: Dims)

  function DayHalf(u: Usage, r: Request): Usage {
    Adding(u, r.vendor, DayKey(r.now), r.cost, r.dims)
  }

  function MonthHalf(u: Usage, r: Request): Usage {
    Adding(u, r.vendor, MonthKey(r.now), r.cost, r.dims)
  }

  class QuotaSink {
    const store: InMemoryCounterStore
    /** The configuration in force; reloading replaces both. */
    var entries: map<string, VendorEntry>
    var settings: map<string, VendorSettings>

    constructor (store: InMemoryCounterStore, entries: map<string, VendorEntry>, settings: map<string, VendorSettings>)
      ensures this.store == store && this.entries == entries && this.settings == settings
    {
      this.store, this.entries, this.settings := store, entries, settings;
    }

    method Swap(entries: map<string, VendorEntry>, settings: map<string, VendorSettings>)
      modifies this
      ensures this.entries == entries && this.settings == settings
    {
      this.entries, this.settings := entries, settings;
    }

    /** Charges the day and the month of one instant with what the call costs under the configuration in force. */
    method RecordRequest(vendor: string, now: int, dims: Dims)
      modifies store
      ensures var r := Request(vendor, now, Cost(entries, settings, vendor, dims.operation), dims);
              store.State() == MonthHalf(DayHalf(old(store.State()), r), r)
    {
      var cost := Cost(entries, settings, vendor, dims.operation);
      store.AddUsage(vendor, DayKey(now), cost, dims);
      store.AddUsage(vendor, MonthKey(now), cost, dims);
    }
  }

  // ----- conservation

  /** How far a request has come: totals and rows have locks of their own, so each of its four updates is a step. */
  datatype Stage = DayTotalled | DayDone | MonthTotalled

  datatype Flight = Flight(request: Request, stage: Stage)

  /** Requests of many callers, each somewhere between its first update and its last. */
  datatype Meter = Meter(usage: Usage, flights: seq<Flight>)

  datatype Step = Begin(request: Request) | Proceed(i: nat)

  function Stepping(m: Meter, step: Step): Meter {
    match step
    case Begin(r) => Meter(AddingTotal(m.usage, r.vendor, DayKey(r.now), r.cost), m.flights + [Flight(r, DayTotalled)])
    case Proceed(i) =>
      if i >= |m.flights| then m
      else
        var r := m.flights[i].request;
        match m.flights[i].stage
        case DayTotalled =>
          Meter(AddingRow(m.usage, r.vendor, DayKey(r.now), r.cost, r.dims), m.flights[i := Flight(r, DayDone)])
        case DayDone =>
          Meter(AddingTotal(m.usage, r.vendor, MonthKey(r.now), r.cost), m.flights[i := Flight(r, MonthTotalled)])
        case MonthTotalled =>
          Meter(AddingRow(m.usage, r.vendor, MonthKey(r.now), r.cost, r.dims), m.flights[..i] + m.flights[i + 1..])
  }

  function Run(m: Meter, steps: seq<Step>): Meter {
    if steps == [] then m else Stepping(Run(m, steps[..|steps| - 1]), steps[|steps| - 1])
  }

  /** A month's total that days run ahead of, or a window's rows that its total runs ahead of. */
  datatype Account = OfMonth(vendor: string, month: string) | OfRows(vendor: string, window: WindowKey)

  function OwedBy(f: Flight, a: Account): nat {
    var r := f.request;
    if r.vendor != a.vendor then 0
    else
      match a
      case OfMonth(_, month) => if !f.stage.MonthTotalled? && MonthKey(r.now) == Month(month) then r.cost else 0
      case OfRows(_, w) =>
        if (f.stage.DayTotalled? && w == DayKey(r.now)) || (f.stage.MonthTotalled? && w == MonthKey(r.now)) then r.cost else 0
  }

  /** What the requests in flight still owe an account. */
  function Owed(flights: seq<Flight>, a: Account): nat
    decreases |flights|
  {
    if flights == [] then 0 else OwedBy(flights[0], a) + Owed(flights[1..], a)
  }

  lemma {:induction false} OwedSplit(front: seq<Flight>, back: seq<Flight>, a: Account)
    ensures Owed(front + back, a) == Owed(front, a) + Owed(back, a)
    decreases |front|
  {
    hide OwedBy;
    if front == [] {
      assert front + back == back;
    } else {
      OwedSplit(front[1..], back, a);
      assert (front + back)[1..] == front[1..] + back;
    }
  }

  lemma OwedOne(f: Flight, a: Account)
    ensures Owed([f], a) == OwedBy(f, a)
  {
    hide OwedBy;
    assert Owed([f][1..], a) == 0;
  }

  lemma OwedChanged(flights: seq<Flight>, i: nat, f: Flight, a: Account)
    requires i < |flights|
    ensures Owed(flights[i := f], a) == Owed(flights, a) - OwedBy(flights[i], a) + OwedBy(f, a)
    ensures Owed(flights[..i] + flights[i + 1..], a) == Owed(flights, a) - OwedBy(flights[i], a)
  {
    hide OwedBy, Owed;
    assert flights == flights[..i] + ([flights[i]] + flights[i + 1..]);
    assert flights[i := f] == flights[..i] + ([f] + flights[i + 1..]);
    OwedSplit(flights[..i], [flights[i]] + flights[i + 1..], a);
    OwedSplit([flights[i]], flights[i + 1..], a);
    OwedSplit(flights[..i], [f] + flights[i + 1..], a);
    OwedSplit([f], flights[i + 1..], a);
    OwedSplit(flights[..i], flights[i + 1..], a);
    OwedOne(flights[i], a);
    OwedOne(f, a);
  }

  /** The days of a vendor's month. */
  predicate DayIn(k: TotalKey, vendor: string, month: string) {
    k.0 == vendor && k.1.Day? && MonthOf(k.1.date) == month
  }

  ghost function DaysTotal(u: Usage, vendor: string, month: string): int {
    SumWhere(u.totals, (k: TotalKey) => DayIn(k, vendor, month))
  }

  ghost function RowsTotal(u: Usage, vendor: string, w: WindowKey): int {
    SumWhere(u.rows, (k: RowKey) => k.0 == vendor && k.1 == w)
  }

  /** Amounts keyed by attribution alone sum up to the rows they come from. */
  lemma SplitsUp(u: Usage, vendor: string, w: WindowKey, r: map<Dims, int>)
    requires forall d :: d in r <==> (vendor, w, d) in u.rows
    requires forall d :: d in r ==> r[d] == u.rows[(vendor, w, d)]
    ensures Sum(r) == RowsTotal(u, vendor, w)
  {
    var own := Where(u.rows, (k: RowKey) => k.0 == vendor && k.1 == w);
    var key := (d: Dims) => (vendor, w, d);
    forall k | k in own
      ensures exists d :: d in r && key(d) == k
    {
      assert k == key(k.2);
    }
    SumRenamed(own, r, key);
  }

  /** What an account should hold, and what it does hold. */
  ghost function Expected(u: Usage, a: Account): int {
    match a
    case OfMonth(vendor, month) => DaysTotal(u, vendor, month)
    case OfRows(vendor, w) => At(u.totals, (vendor, w))
  }

  ghost function Booked(u: Usage, a: Account): int {
    match a
    case OfMonth(vendor, month) => At(u.totals, (vendor, Month(month)))
    case OfRows(vendor, w) => RowsTotal(u, vendor, w)
  }

  /** What is booked and what is still owed make up what is expected. */
  ghost predicate Balances(m: Meter, a: Account) {
    Booked(m.usage, a) + Owed(m.flights, a) == Expected(m.usage, a)
  }

  ghost predicate AllBalance(m: Meter) {
    forall a :: Balances(m, a)
  }

  predicate Dated(steps: seq<Step>) {
    forall i :: 0 <= i < |steps| && steps[i].Begin? ==> FourDigitYear(steps[i].request.now)
  }

  lemma TotalAdded(u: Usage, vendor: string, w: WindowKey, amount: nat, a: Account)
    ensures var u' := AddingTotal(u, vendor, w, amount);
            && Booked(u', a) == Booked(u, a) + (if a.OfMonth? && (vendor, w) == (a.vendor, Month(a.month)) then amount else 0)
            && Expected(u', a) == Expected(u, a) +
               (if (if a.OfMonth? then DayIn((vendor, w), a.vendor, a.month) else (vendor, w) == (a.vendor, a.window)) then amount else 0)
  {
    hide MonthOf;
    if a.OfMonth? {
      SumWhereUpdate(u.totals, (k: TotalKey) => DayIn(k, a.vendor, a.month), (vendor, w), At(u.totals, (vendor, w)) + amount);
    }
  }

  lemma RowAdded(u: Usage, vendor: string, w: WindowKey, amount: nat, dims: Dims, a: Account)
    ensures var u' := AddingRow(u, vendor, w, amount, dims);
            && Expected(u', a) == Expected(u, a)
            && Booked(u', a) == Booked(u, a) + if a.OfRows? && (vendor, w) == (a.vendor, a.window) then amount else 0
  {
    if a.OfRows? {
      SumWhereUpdate(u.rows, (k: RowKey) => k.0 == a.vendor && k.1 == a.window, (vendor, w, dims), At(u.rows, (vendor, w, dims)) + amount);
    }
  }

  lemma KeyKinds(now: int)
    ensures DayKey(now).Day? && MonthKey(now).Month?
  {
  }

  lemma BeginBalances(m: Meter, r: Request, a: Account)
    requires Balances(m, a) && FourDigitYear(r.now)
    ensures Balances(Stepping(m, Begin(r)), a)
  {
    hide DayKey, MonthKey, MonthOf, Expected, Booked, Owed;
    DayWithinMonth(r.now);
    KeyKinds(r.now);
    TotalAdded(m.usage, r.vendor, DayKey(r.now), r.cost, a);
    OwedSplit(m.flights, [Flight(r, DayTotalled)], a);
    OwedOne(Flight(r, DayTotalled), a);
  }

  lemma ProceedBalances(m: Meter, i: nat, a: Account)
    requires Balances(m, a) && i < |m.flights|
    ensures Balances(Stepping(m, Proceed(i)), a)
  {
    hide DayKey, MonthKey, MonthOf, Expected, Booked, Owed;
    var r := m.flights[i].request;
    KeyKinds(r.now);
    OwedChanged(m.flights, i, Flight(r, if m.flights[i].stage.DayTotalled? then DayDone else MonthTotalled), a);
    match m.flights[i].stage
    case DayTotalled => RowAdded(m.usage, r.vendor, DayKey(r.now), r.cost, r.dims, a);
    case DayDone => TotalAdded(m.usage, r.vendor, MonthKey(r.now), r.cost, a);
    case MonthTotalled => RowAdded(m.usage, r.vendor, MonthKey(r.now), r.cost, r.dims, a);
  }

  /** Every single update keeps every account balanced. */
  lemma StepBalances(m: Meter, step: Step)
    requires AllBalance(m) && (step.Begin? ==> FourDigitYear(step.request.now))
    ensures AllBalance(Stepping(m, step))
  {
    hide Balances, Stepping, FourDigitYear;
    forall a
      ensures Balances(Stepping(m, step), a)
    {
      assert Balances(m, a);
      match step
      case Begin(r) => BeginBalances(m, r, a);
      case Proceed(i) =>
        if i < |m.flights| {
          ProceedBalances(m, i, a);
        } else {
          assert Stepping(m, step) == m by { NoFlight(m, i); }
        }
    }
  }

  lemma NoFlight(m: Meter, i: nat)
    requires i >= |m.flights|
    ensures Stepping(m, Proceed(i)) == m
  {
  }

  /**
   * Over every interleaving of the updates of metered requests: a vendor's month total falls short of the sum of its days
   * exactly by the requests that have totalled their day and not yet their month, and the breakdown rows of a window fall
   * short of its total exactly by those between the two. With none in flight all are equal.
   */
  lemma {:induction false} MeteringConserves(m: Meter, steps: seq<Step>)
    requires AllBalance(m) && Dated(steps)
    ensures AllBalance(Run(m, steps))
    ensures Run(m, steps).flights == [] ==>
              var u := Run(m, steps).usage;
              && (forall vendor, month :: At(u.totals, (vendor, Month(month))) == DaysTotal(u, vendor, month))
              && forall vendor, w :: At(u.totals, (vendor, w)) == RowsTotal(u, vendor, w)
  {
    hide Stepping, DaysTotal, RowsTotal;
    if steps != [] {
      MeteringConserves(m, steps[..|steps| - 1]);
      StepBalances(Run(m, steps[..|steps| - 1]), steps[|steps| - 1]);
    }
    var end := Run(m, steps);
    if end.flights == [] {
      forall vendor, month
        ensures At(end.usage.totals, (vendor, Month(month))) == DaysTotal(end.usage, vendor, month)
      {
        assert Balances(end, OfMonth(vendor, month));
      }
      forall vendor, w
        ensures At(end.usage.totals, (vendor, w)) == RowsTotal(end.usage, vendor, w)
      {
        assert Balances(end, OfRows(vendor, w));
      }
    }
  }

  const NO_USAGE := Usage(map[], map[])

  /** Empty counters are balanced. */
  lemma EmptyBalances()
    ensures AllBalance(Meter(NO_USAGE, []))
  {
    forall a
      ensures Balances(Meter(NO_USAGE, []), a)
    {
      SumWhereEmpty((k: TotalKey) => DayIn(k, a.vendor, if a.OfMonth? then a.month else ""));
      if a.OfRows? {
        SumWhereEmpty((k: RowKey) => k.0 == a.vendor && k.1 == a.window);
      }
    }
  }

  /** A call that runs alone is its four updates in a row. */
  lemma WholeRequest(u: Usage, r: Request)
    ensures Run(Meter(u, []), [Begin(r), Proceed(0), Proceed(0), Proceed(0)]) == Meter(MonthHalf(DayHalf(u, r), r), [])
  {
    hide AddingTotal, AddingRow;
    var steps := [Begin(r), Proceed(0), Proceed(0), Proceed(0)];
    assert steps[..3][..2] == steps[..2] && steps[..2][..1] == steps[..1] && steps[..1][..0] == [];
    assert steps[..1] == [Begin(r)];
    var day := AddingTotal(u, r.vendor, DayKey(r.now), r.cost);
    assert Run(Meter(u, []), steps[..1]) == Meter(day, [Flight(r, DayTotalled)]);
    assert Run(Meter(u, []), steps[..2]) == Meter(DayHalf(u, r), [Flight(r, DayDone)]);
    assert Run(Meter(u, []), steps[..3]).flights == [Flight(r, MonthTotalled)];
  }
}
