/**
 * The persistent usage store: in-memory mirrors that the hot path reads and updates, and a first-in first-out queue of
 * database writes that a worker applies behind it. SQL upserts are map updates and are taken to succeed.
 */
module Persistence {
  import opened Counters
  import opened MapSums
  import opened Windows
  import opened Wrappers

  const I64_LIMIT: int := 0x8000_0000_0000_0000

  /** `n as i64` of an unsigned 64-bit number. */
  function AsI64(n: nat): int {
    if n % 0x1_0000_0000_0000_0000 < I64_LIMIT then n % 0x1_0000_0000_0000_0000
    else n % 0x1_0000_0000_0000_0000 - 0x1_0000_0000_0000_0000
  }

  datatype ClientCounters = ClientCounters(requests: int, credits: int, throttled: int)

  const ZERO := ClientCounters(0, 0, 0)

  function Plus(a: ClientCounters, b: ClientCounters): ClientCounters {
    ClientCounters(a.requests + b.requests, a.credits + b.credits, a.throttled + b.throttled)
  }

  /** Primary key of the `usage` table; a missing attribution is the empty string. */
  datatype UsageRow = UsageRow(
    vendor: string, window: string, operation: string, tool: string, chain: string, client: string)

  type ClientKey = (string, WindowKey)
  type ClientRow = (string, string)

  datatype Db = Db(usage: map<UsageRow, int>, clients: map<ClientRow, ClientCounters>)

  datatype Job =
    | UsageJob(row: UsageRow, amount: int)
    | ClientJob(client: string, windows: seq<string>, bump: ClientCounters)

  datatype Exceeded = DailyRequests | MonthlyCredits

  function CountersAt<K>(m: map<K, ClientCounters>, k: K): ClientCounters {
    if k in m then m[k] else ZERO
  }

  function Bumping<K>(m: map<K, ClientCounters>, k: K, bump: ClientCounters): map<K, ClientCounters> {
    m[k := Plus(CountersAt(m, k), bump)]
  }

  /** One upsert per window. */
  function Upsert(clients: map<ClientRow, ClientCounters>, client: string, windows: seq<string>, bump: ClientCounters)
    : map<ClientRow, ClientCounters>
    decreases |windows|
  {
    if windows == [] then clients
    else Upsert(Bumping(clients, (client, windows[0]), bump), client, windows[1..], bump)
  }

  function Apply(db: Db, job: Job): Db {
    match job
    case UsageJob(row, amount) => db.(usage := db.usage[row := At(db.usage, row) + amount])
    case ClientJob(client, windows, bump) => db.(clients := Upsert(db.clients, client, windows, bump))
  }

  function Drain(db: Db, jobs: seq<Job>): Db
    decreases |jobs|
  {
    if jobs == [] then db else Drain(Apply(db, jobs[0]), jobs[1..])
  }

  function OrEmpty(s: Option<string>): string {
    match s
    case Some(v) => v
    case None => ""
  }

  function RowOf(vendor: string, w: WindowKey, dims: Dims): UsageRow {
    UsageRow(vendor, WKey(w), dims.operation, OrEmpty(dims.tool), OrEmpty(dims.chain), OrEmpty(dims.client))
  }

  function NonEmpty(s: string): Option<string> {
    if s == "" then None else Some(s)
  }

  /** The attribution that a row's columns stand for. */
  function DimsOf(row: UsageRow): Dims {
    Dims(row.operation, NonEmpty(row.tool), NonEmpty(row.chain), NonEmpty(row.client))
  }

  /** No attribution is an empty text, which could not be told from a missing one. */
  predicate Told(d: Dims) {
    d.tool != Some("") && d.chain != Some("") && d.client != Some("")
  }

  /** What is written under an attribution is read back as that attribution. */
  lemma RowReadsBack(vendor: string, w: WindowKey, d: Dims)
    requires Told(d)
    ensures DimsOf(RowOf(vendor, w, d)) == d && RowIn(RowOf(vendor, w, d), vendor, WKey(w))
  {
    hide WKey;
  }

  /** And every row of a vendor's window is the one written under the attribution it reads as. */
  lemma RowTells(vendor: string, w: WindowKey, row: UsageRow)
    requires RowIn(row, vendor, WKey(w))
    ensures Told(DimsOf(row)) && RowOf(vendor, w, DimsOf(row)) == row
  {
    hide WKey;
  }

  predicate RowIn(row: UsageRow, vendor: string, window: string) {
    row.vendor == vendor && row.window == window
  }

  /** `SELECT vendor, window, SUM(amount) .. GROUP BY vendor, window`, keeping the windows that parse. */
  ghost function LoadTotals(usage: map<UsageRow, int>): map<TotalKey, int> {
    var keys := set row | row in usage && ParseWKey(row.window).Some? :: (row.vendor, ParseWKey(row.window).value);
    map k | k in keys :: NonNegative(Sum(WindowRows(usage, k.0, WKey(k.1))))
  }

  /** The amounts of a vendor's window. */
  ghost function WindowRows(usage: map<UsageRow, int>, vendor: string, window: string): map<UsageRow, int> {
    map row | row in usage && RowIn(row, vendor, window) :: usage[row]
  }

  function LoadClients(clients: map<ClientRow, ClientCounters>): map<ClientKey, ClientCounters> {
    var keys := set row | row in clients && ParseWKey(row.1).Some? :: (row.0, ParseWKey(row.1).value);
    map k | k in keys ::
      var c := CountersAt(clients, (k.0, WKey(k.1)));
      ClientCounters(NonNegative(c.requests), NonNegative(c.credits), NonNegative(c.throttled))
  }

  function NonNegative(n: int): int {
    if n > 0 then n else 0
  }

  // ----- state

  /**
   * `pending` holds the writes of calls that have updated a mirror and not yet reached the queue: the mirrors are locked
   * only while they are updated, so other calls may queue their writes in between.
   */
  datatype State = State(
    totals: map<TotalKey, int>,
    clientUsage: map<ClientKey, ClientCounters>,
    pending: seq<Job>,
    queue: seq<Job>,
    db: Db)

  ghost function Loaded(db: Db): State {
    State(LoadTotals(db.usage), LoadClients(db.clients), [], [], db)
  }

  /** The vendor's total, and the usage row that will follow. */
  function MirrorTotal(s: State, vendor: string, w: WindowKey, amount: nat, dims: Dims): State {
    s.(totals := Add(s.totals, (vendor, w), amount), pending := s.pending + [UsageJob(RowOf(vendor, w, dims), AsI64(amount))])
  }

  /** The client's credits, and the upsert that will follow. */
  function MirrorCredit(s: State, client: string, w: WindowKey, amount: nat): State {
    s.(clientUsage := Bumping(s.clientUsage, (client, w), ClientCounters(0, amount, 0)),
       pending := s.pending + [ClientJob(client, [WKey(w)], ClientCounters(0, AsI64(amount), 0))])
  }

  function MirrorAdd(s: State, vendor: string, w: WindowKey, amount: nat, dims: Dims): State {
    MirrorTotal(if dims.client.Some? then MirrorCredit(s, dims.client.value, w, amount) else s, vendor, w, amount, dims)
  }

  function QuotaCheck(s: State, client: string, now: int, daily: Option<nat>, monthly: Option<nat>): Result<(), Exceeded> {
    if daily.Some? && CountersAt(s.clientUsage, (client, DayKey(now))).requests >= daily.value then Err(DailyRequests)
    else if monthly.Some? && CountersAt(s.clientUsage, (client, MonthKey(now))).credits >= monthly.value then
      Err(MonthlyCredits)
    else Ok(())
  }

  /** Counts `bump` in the day and the month of `now`. */
  function MirrorBoth(s: State, client: string, now: int, bump: ClientCounters): State {
    s.(clientUsage := Bumping(Bumping(s.clientUsage, (client, DayKey(now)), bump), (client, MonthKey(now)), bump),
       pending := s.pending + [ClientJob(client, [WKey(DayKey(now)), WKey(MonthKey(now))], bump)])
  }

  function MirrorAdmit(s: State, client: string, now: int, daily: Option<nat>, monthly: Option<nat>): State {
    if QuotaCheck(s, client, now, daily, monthly).Ok? then MirrorBoth(s, client, now, ClientCounters(1, 0, 0)) else s
  }

  function MirrorThrottled(s: State, client: string, now: int): State {
    MirrorBoth(s, client, now, ClientCounters(0, 0, 1))
  }

  function Submitting(s: State, i: nat): State {
    if i >= |s.pending| then s
    else s.(pending := s.pending[..i] + s.pending[i + 1..], queue := s.queue + [s.pending[i]])
  }

  function SubmitAll(s: State): State {
    s.(pending := [], queue := s.queue + s.pending)
  }

  function Working(s: State): State {
    if s.queue == [] then s else s.(queue := s.queue[1..], db := Apply(s.db, s.queue[0]))
  }

  function Texts(windows: seq<WindowKey>): seq<string> {
    seq(|windows|, i requires 0 <= i < |windows| => WKey(windows[i]))
  }

  class Store {
    var totals: map<TotalKey, int>
    var clientUsage: map<ClientKey, ClientCounters>
    var queue: seq<Job>
    var db: Db

    /** No call is in progress between methods, so nothing is pending. */
    ghost function Value(): State
      reads this
    {
      State(totals, clientUsage, [], queue, db)
    }

    /** `totals` is the result of the grouped query over the table. */
    constructor (db: Db, totals: map<TotalKey, int>)
      requires totals == LoadTotals(db.usage)
      ensures Value() == Loaded(db)
    {
      this.db, this.totals, clientUsage, queue := db, totals, LoadClients(db.clients), [];
    }

    method Submit(job: Job)
      modifies this`queue
      ensures queue == old(queue) + [job]
    {
      queue := queue + [job];
    }

    method BumpClient(client: string, windows: seq<WindowKey>, bump: ClientCounters)
      modifies this`queue
      ensures queue == old(queue) + [ClientJob(client, Texts(windows), bump)]
    {
      Submit(ClientJob(client, Texts(windows), bump));
    }

    method AddUsage(vendor: string, w: WindowKey, amount: nat, dims: Dims)
      modifies this
      ensures Value() == SubmitAll(MirrorAdd(old(Value()), vendor, w, amount, dims))
    {
      var total := if (vendor, w) in totals then totals[(vendor, w)] else 0;
      totals := totals[(vendor, w) := total + amount];
      if dims.client.Some? {
        var client := dims.client.value;
        clientUsage := Bumping(clientUsage, (client, w), ClientCounters(0, amount, 0));
        BumpClient(client, [w], ClientCounters(0, AsI64(amount), 0));
        assert Texts([w]) == [WKey(w)];
      }
      Submit(UsageJob(RowOf(vendor, w, dims), AsI64(amount)));
    }

    /** Count `bump` in the client's day and month, then queue the write. */
    method CountBoth(client: string, now: int, bump: ClientCounters)
      modifies this
      ensures Value() == SubmitAll(MirrorBoth(old(Value()), client, now, bump))
    {
      hide DayKey, MonthKey, WKey;
      var windows := [DayKey(now), MonthKey(now)];
      for i := 0 to 2
        invariant Value() == old(Value()).(clientUsage := clientUsage)
        invariant i == 0 ==> clientUsage == old(clientUsage)
        invariant i == 1 ==> clientUsage == Bumping(old(clientUsage), (client, windows[0]), bump)
        invariant i == 2 ==>
            clientUsage == Bumping(Bumping(old(clientUsage), (client, windows[0]), bump), (client, windows[1]), bump)
      {
        clientUsage := Bumping(clientUsage, (client, windows[i]), bump);
      }
      BumpClient(client, windows, bump);
      assert Texts(windows) == [WKey(windows[0]), WKey(windows[1])];
    }

    method AdmitClient(client: string, now: int, daily: Option<nat>, monthly: Option<nat>) returns (r: Result<(), Exceeded>)
      modifies this
      ensures var requests := CountersAt(old(clientUsage), (client, DayKey(now))).requests;
              var credits := CountersAt(old(clientUsage), (client, MonthKey(now))).credits;
              && (r == Err(DailyRequests) <==> daily.Some? && requests >= daily.value)
              && (r == Err(MonthlyCredits) <==> !(daily.Some? && requests >= daily.value) && monthly.Some? && credits >= monthly.value)
              && (r == Ok(()) <==> (daily.Some? ==> requests < daily.value) && (monthly.Some? ==> credits < monthly.value))
      ensures r == QuotaCheck(old(Value()), client, now, daily, monthly)
      ensures Value() == SubmitAll(MirrorAdmit(old(Value()), client, now, daily, monthly))
    {
      hide DayKey, MonthKey, MirrorBoth;
      if daily.Some? && CountersAt(clientUsage, (client, DayKey(now))).requests >= daily.value {
        return Err(DailyRequests);
      }
      if monthly.Some? && CountersAt(clientUsage, (client, MonthKey(now))).credits >= monthly.value {
        return Err(MonthlyCredits);
      }
      CountBoth(client, now, ClientCounters(1, 0, 0));
      return Ok(());
    }

    method RecordThrottled(client: string, now: int)
      modifies this
      ensures Value() == SubmitAll(MirrorThrottled(old(Value()), client, now))
    {
      CountBoth(client, now, ClientCounters(0, 0, 1));
    }

    method Total(vendor: string, w: WindowKey) returns (n: int)
      ensures n == At(totals, (vendor, w))
    {
      n := if (vendor, w) in totals then totals[(vendor, w)] else 0;
    }

    /**
     * The rows of a vendor's window, keyed by attribution. The query queues behind every write before it, so these are in
     * the table when it is answered.
     */
    method Breakdown(vendor: string, w: WindowKey) returns (r: map<Dims, int>)
      modifies this
      ensures queue == [] && db == Drain(old(db), old(queue))
      ensures totals == old(totals) && clientUsage == old(clientUsage)
      ensures forall d :: d in r <==> Told(d) && RowOf(vendor, w, d) in db.usage
      ensures forall d :: d in r ==> r[d] == NonNegative(db.usage[RowOf(vendor, w, d)])
    {
      hide WKey, RowOf, DimsOf, Told, Apply;
      Close();
      var text := WKey(w);
      forall d | Told(d)
        ensures DimsOf(RowOf(vendor, w, d)) == d && RowIn(RowOf(vendor, w, d), vendor, text)
      {
        RowReadsBack(vendor, w, d);
      }
      forall row | RowIn(row, vendor, text)
        ensures Told(DimsOf(row)) && RowOf(vendor, w, DimsOf(row)) == row
      {
        RowTells(vendor, w, row);
      }
      r := map row | row in db.usage && RowIn(row, vendor, text) :: DimsOf(row) := NonNegative(db.usage[row]);
    }

    /** The worker takes one job off the queue. */
    method Work()
      modifies this
      ensures Value() == Working(old(Value()))
    {
      if queue != [] {
        db := Apply(db, queue[0]);
        queue := queue[1..];
      }
    }

    /** Dropping the last handle closes the channel; the worker applies what is queued and stops. */
    method Close()
      modifies this
      ensures queue == [] && db == Drain(old(db), old(queue))
      ensures totals == old(totals) && clientUsage == old(clientUsage)
    {
      while queue != []
        invariant Drain(db, queue) == Drain(old(db), old(queue))
        invariant totals == old(totals) && clientUsage == old(clientUsage)
        decreases |queue|
      {
        Work();
      }
    }
  }
}
