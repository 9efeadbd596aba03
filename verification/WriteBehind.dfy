/**
 * Write-behind refinement: whatever calls and the worker do, in whatever order, a mirror entry is what the database
 * holds plus what is still on its way to it. So closing the store and loading it again rebuilds the same mirrors.
 */
module WriteBehind {
  import opened Counters
  import opened MapSums
  import opened Persistence
  import opened Windows
  import opened Wrappers

  // ----- runs

  datatype Action =
    | AddTotal(vendor: string, w: WindowKey, amount: nat, dims: Dims)
    | AddCredit(client: string, w: WindowKey, amount: nat)
    | Admit(client: string, now: int, daily: Option<nat>, monthly: Option<nat>)
    | Throttle(client: string, now: int)
    | Submit(i: nat)
    | Work

  function Stepping(s: State, a: Action): State {
    match a
    case AddTotal(vendor, w, amount, dims) => MirrorTotal(s, vendor, w, amount, dims)
    case AddCredit(client, w, amount) => MirrorCredit(s, client, w, amount)
    case Admit(client, now, daily, monthly) => MirrorAdmit(s, client, now, daily, monthly)
    case Throttle(client, now) => MirrorThrottled(s, client, now)
    case Submit(i) => Submitting(s, i)
    case Work => Working(s)
  }

  function Run(s: State, actions: seq<Action>): State {
    if actions == [] then s else Stepping(Run(s, actions[..|actions| - 1]), actions[|actions| - 1])
  }

  function Outstanding(s: State): seq<Job> {
    s.queue + s.pending
  }

  // ----- what the database will hold

  /** Counters and whether any entry carries them; an entry of zeros is still an entry. */
  datatype Tally = Tally(counters: ClientCounters, present: bool)

  const NONE := Tally(ZERO, false)

  function Join(a: Tally, b: Tally): Tally {
    Tally(Plus(a.counters, b.counters), a.present || b.present)
  }

  function Credits(amount: int): Tally {
    Tally(ClientCounters(0, amount, 0), true)
  }

  /**
   * What is looked up: the `usage` rows of a vendor's window, the `usage` rows attributed to a client in a window, or the
   * `client_usage` row of a client and window.
   */
  datatype Query =
    | OfVendor(vendor: string, window: string)
    | OfClient(client: string, window: string)
    | CounterOf(client: string, window: string)

  predicate Matches(row: UsageRow, q: Query) {
    match q
    case OfVendor(vendor, window) => RowIn(row, vendor, window)
    case OfClient(client, window) => row.client == client && row.window == window
    case CounterOf(_, _) => false
  }

  /** One bump per occurrence of the window. */
  function WindowsTally(windows: seq<string>, window: string, bump: ClientCounters): Tally
    decreases |windows|
  {
    if windows == [] then NONE
    else Join(if windows[0] == window then Tally(bump, true) else NONE, WindowsTally(windows[1..], window, bump))
  }

  function JobTally(job: Job, q: Query): Tally {
    match job
    case UsageJob(row, amount) => if Matches(row, q) then Credits(amount) else NONE
    case ClientJob(client, windows, bump) =>
      if q.CounterOf? && q.client == client then WindowsTally(windows, q.window, bump) else NONE
  }

  function JobsTally(jobs: seq<Job>, q: Query): Tally
    decreases |jobs|
  {
    if jobs == [] then NONE else Join(JobTally(jobs[0], q), JobsTally(jobs[1..], q))
  }

  function EntryTally<K>(m: map<K, ClientCounters>, k: K): Tally {
    Tally(CountersAt(m, k), k in m)
  }

  /** The amounts of the rows that match. */
  ghost function MatchingRows(usage: map<UsageRow, int>, q: Query): map<UsageRow, int> {
    map row | row in usage && Matches(row, q) :: usage[row]
  }

  ghost function TableTally(db: Db, q: Query): Tally {
    if q.CounterOf? then
      EntryTally(db.clients, (q.client, q.window))
    else
      Tally(ClientCounters(0, Sum(MatchingRows(db.usage, q)), 0),
            exists row :: row in db.usage && Matches(row, q))
  }

  /** What the database will hold once every outstanding job is applied. */
  ghost function Outlook(s: State, q: Query): Tally {
    Join(TableTally(s.db, q), JobsTally(Outstanding(s), q))
  }

  lemma JoinLaws(a: Tally, b: Tally, c: Tally)
    ensures Join(Join(a, b), c) == Join(a, Join(b, c))
    ensures Join(a, b) == Join(b, a)
    ensures Join(a, NONE) == a == Join(NONE, a)
  {
  }

  lemma {:induction false} JobsTallySplit(a: seq<Job>, b: seq<Job>, q: Query)
    ensures JobsTally(a + b, q) == Join(JobsTally(a, q), JobsTally(b, q))
    decreases |a|
  {
    hide JobTally;
    if a == [] {
      assert a + b == b;
    } else {
      JobsTallySplit(a[1..], b, q);
      assert (a + b)[1..] == a[1..] + b;
    }
  }

  lemma JobsTallyOne(job: Job, q: Query)
    ensures JobsTally([job], q) == JobTally(job, q)
  {
    hide JobTally;
    assert JobsTally([job][1..], q) == NONE;
  }

  lemma BumpAt<K>(m: map<K, ClientCounters>, k: K, bump: ClientCounters, k': K)
    ensures EntryTally(Bumping(m, k, bump), k') == Join(EntryTally(m, k'), if k == k' then Tally(bump, true) else NONE)
  {
  }

  lemma {:induction false} UpsertTally(clients: map<ClientRow, ClientCounters>, client: string, windows: seq<string>,
                                       bump: ClientCounters, k: ClientRow)
    ensures EntryTally(Upsert(clients, client, windows, bump), k)
            == Join(EntryTally(clients, k), if k.0 == client then WindowsTally(windows, k.1, bump) else NONE)
    decreases |windows|
  {
    hide EntryTally, Bumping, Join;
    JoinLaws(EntryTally(clients, k), NONE, NONE);
    if windows != [] {
      var next := Bumping(clients, (client, windows[0]), bump);
      var first := if windows[0] == k.1 then Tally(bump, true) else NONE;
      var rest := WindowsTally(windows[1..], k.1, bump);
      BumpAt(clients, (client, windows[0]), bump, k);
      UpsertTally(next, client, windows[1..], bump, k);
      JoinLaws(EntryTally(clients, k), first, rest);
    }
  }

  lemma UsagePresence(before: map<UsageRow, int>, row: UsageRow, amount: int, q: Query)
    ensures (exists r :: r in before[row := amount] && Matches(r, q))
            <==> (exists r :: r in before && Matches(r, q)) || Matches(row, q)
  {
    hide Matches;
    var after := before[row := amount];
    assert row in after;
    assert forall r :: r in after <==> r in before || r == row;
  }

  lemma UsageJobTally(db: Db, job: Job, q: Query)
    requires job.UsageJob? && !q.CounterOf?
    ensures TableTally(Apply(db, job), q) == Join(TableTally(db, q), JobTally(job, q))
  {
    hide Matches, Sum;
    var amount := At(db.usage, job.row) + job.amount;
    assert MatchingRows(db.usage, q) == Where(db.usage, (row: UsageRow) => Matches(row, q));
    assert MatchingRows(db.usage[job.row := amount], q) == Where(db.usage[job.row := amount], (row: UsageRow) => Matches(row, q));
    SumWhereUpdate(db.usage, (row: UsageRow) => Matches(row, q), job.row, amount);
    UsagePresence(db.usage, job.row, amount, q);
  }

  lemma ClientJobTally(db: Db, job: Job, q: Query)
    requires job.ClientJob? && q.CounterOf?
    ensures TableTally(Apply(db, job), q) == Join(TableTally(db, q), JobTally(job, q))
  {
    hide Upsert, WindowsTally, Join, EntryTally;
    UpsertTally(db.clients, job.client, job.windows, job.bump, (q.client, q.window));
  }

  /** Applying a job moves its tally from the queue into the tables. */
  lemma ApplyTally(db: Db, job: Job, q: Query)
    ensures TableTally(Apply(db, job), q) == Join(TableTally(db, q), JobTally(job, q))
  {
    hide Upsert, WindowsTally, Join, EntryTally, Sum;
    if job.ClientJob? && q.CounterOf? {
      ClientJobTally(db, job, q);
    } else if job.UsageJob? && !q.CounterOf? {
      UsageJobTally(db, job, q);
    } else {
      JoinLaws(TableTally(db, q), NONE, NONE);
    }
  }

  lemma WorkTally(s: State, q: Query)
    ensures Outlook(Working(s), q) == Outlook(s, q)
  {
    hide JobsTally, TableTally, JobTally, Apply;
    if s.queue != [] {
      ApplyTally(s.db, s.queue[0], q);
      assert Outstanding(s) == [s.queue[0]] + Outstanding(Working(s));
      JobsTallySplit([s.queue[0]], Outstanding(Working(s)), q);
      JobsTallyOne(s.queue[0], q);
    }
  }

  lemma SubmitTally(s: State, i: nat, q: Query)
    ensures Outlook(Submitting(s, i), q) == Outlook(s, q)
  {
    hide JobsTally, TableTally;
    if i < |s.pending| {
      var job, before, after := s.pending[i], s.pending[..i], s.pending[i + 1..];
      assert Outstanding(s) == s.queue + (before + ([job] + after));
      assert Outstanding(Submitting(s, i)) == s.queue + ([job] + (before + after));
      JobsTallySplit(s.queue, before + ([job] + after), q);
      JobsTallySplit(before, [job] + after, q);
      JobsTallySplit([job], after, q);
      JobsTallySplit(s.queue, [job] + (before + after), q);
      JobsTallySplit([job], before + after, q);
      JobsTallySplit(before, after, q);
    }
  }

  /** Jobs that a call leaves behind add their own tally. */
  lemma PendingTally(s: State, s': State, jobs: seq<Job>, q: Query)
    requires s'.db == s.db && s'.queue == s.queue && s'.pending == s.pending + jobs
    ensures Outlook(s', q) == Join(Outlook(s, q), JobsTally(jobs, q))
  {
    hide JobsTally, TableTally;
    assert Outstanding(s') == Outstanding(s) + jobs;
    JobsTallySplit(Outstanding(s), jobs, q);
  }

  /** What a charge to a vendor adds to a query. */
  function ChargedBy(vendor: string, w: WindowKey, amount: int, dims: Dims, q: Query): Tally {
    if Matches(RowOf(vendor, w, dims), q) then Credits(amount) else NONE
  }

  /** What a charge to a client adds to a query. */
  function CreditedBy(client: string, w: WindowKey, amount: int, q: Query): Tally {
    if q.CounterOf? && q.client == client && WKey(w) == q.window then Credits(amount) else NONE
  }

  lemma OneWindow(w: string, window: string, bump: ClientCounters)
    ensures WindowsTally([w], window, bump) == if w == window then Tally(bump, true) else NONE
  {
    assert WindowsTally([w][1..], window, bump) == NONE;
  }

  /** The tables are charged what is left of the amount in a signed column. */
  lemma ChargeTally(s: State, vendor: string, w: WindowKey, amount: nat, dims: Dims, q: Query)
    ensures Outlook(MirrorTotal(s, vendor, w, amount, dims), q)
            == Join(Outlook(s, q), ChargedBy(vendor, w, AsI64(amount), dims, q))
  {
    hide RowOf, AsI64, Outlook, JobsTally, WKey, Join;
    var usage := UsageJob(RowOf(vendor, w, dims), AsI64(amount));
    PendingTally(s, MirrorTotal(s, vendor, w, amount, dims), [usage], q);
    JobsTallyOne(usage, q);
  }

  lemma CreditTally(s: State, client: string, w: WindowKey, amount: nat, q: Query)
    ensures Outlook(MirrorCredit(s, client, w, amount), q) == Join(Outlook(s, q), CreditedBy(client, w, AsI64(amount), q))
  {
    hide AsI64, Outlook, JobsTally, WKey, WindowsTally, Join;
    var credit := ClientJob(client, [WKey(w)], ClientCounters(0, AsI64(amount), 0));
    PendingTally(s, MirrorCredit(s, client, w, amount), [credit], q);
    JobsTallyOne(credit, q);
    OneWindow(WKey(w), q.window, credit.bump);
  }

  lemma WKeyInjective(w: WindowKey, x: WindowKey)
    ensures WKey(w) == WKey(x) <==> w == x
  {
    WKeyRoundTrip(w, WKey(x));
    WKeyRoundTrip(x, WKey(x));
  }

  lemma DistinctWindows(now: int)
    ensures WKey(DayKey(now)) != WKey(MonthKey(now))
  {
    hide WKey;
    WKeyInjective(DayKey(now), MonthKey(now));
  }

  /** What counting a call in its day and month adds to a query. */
  function BumpedBy(client: string, now: int, bump: ClientCounters, q: Query): Tally {
    if q.CounterOf? && q.client == client && (q.window == WKey(DayKey(now)) || q.window == WKey(MonthKey(now))) then Tally(bump, true)
    else NONE
  }

  lemma TwoWindows(a: string, b: string, window: string, bump: ClientCounters)
    requires a != b
    ensures WindowsTally([a, b], window, bump) == if window == a || window == b then Tally(bump, true) else NONE
  {
    hide Join;
    assert [a, b][1..] == [b];
    OneWindow(b, window, bump);
    JoinLaws(Tally(bump, true), NONE, NONE);
  }

  lemma BothTally(s: State, client: string, now: int, bump: ClientCounters, q: Query)
    ensures Outlook(MirrorBoth(s, client, now, bump), q) == Join(Outlook(s, q), BumpedBy(client, now, bump, q))
  {
    hide DayKey, MonthKey, WKey, Outlook, JobsTally, WindowsTally;
    var s' := MirrorBoth(s, client, now, bump);
    var job := ClientJob(client, [WKey(DayKey(now)), WKey(MonthKey(now))], bump);
    PendingTally(s, s', [job], q);
    JobsTallyOne(job, q);
    DistinctWindows(now);
    TwoWindows(WKey(DayKey(now)), WKey(MonthKey(now)), q.window, bump);
  }

  // ----- the mirrors agree with it

  ghost predicate TotalMatches(s: State, vendor: string, w: WindowKey) {
    Tally(ClientCounters(0, At(s.totals, (vendor, w)), 0), (vendor, w) in s.totals) == Outlook(s, OfVendor(vendor, WKey(w)))
  }

  ghost predicate ClientMatches(s: State, client: string, w: WindowKey) {
    EntryTally(s.clientUsage, (client, w)) == Outlook(s, CounterOf(client, WKey(w)))
  }

  /** By how much a vendor's total is ahead of the database and what is outstanding. */
  ghost function TotalGap(s: State, vendor: string, w: WindowKey): int {
    At(s.totals, (vendor, w)) - Outlook(s, OfVendor(vendor, WKey(w))).counters.credits
  }

  ghost predicate TotalShaped(s: State, vendor: string, w: WindowKey) {
    var o := Outlook(s, OfVendor(vendor, WKey(w)));
    o.counters.requests == 0 && o.counters.throttled == 0 && (o.present <==> (vendor, w) in s.totals)
  }

  /** By how much a client's credits are ahead of its row and what is outstanding for it. */
  ghost function ClientGap(s: State, client: string, w: WindowKey): int {
    CountersAt(s.clientUsage, (client, w)).credits - Outlook(s, CounterOf(client, WKey(w))).counters.credits
  }

  ghost predicate ClientShaped(s: State, client: string, w: WindowKey) {
    var (o, c) := (Outlook(s, CounterOf(client, WKey(w))), CountersAt(s.clientUsage, (client, w)));
    o.counters.requests == c.requests && o.counters.throttled == c.throttled && (o.present <==> (client, w) in s.clientUsage)
  }

  /** Agreement is the right shape and no gap. */
  lemma MatchesIff(s: State, k: string, w: WindowKey)
    ensures TotalMatches(s, k, w) <==> TotalShaped(s, k, w) && TotalGap(s, k, w) == 0
    ensures ClientMatches(s, k, w) <==> ClientShaped(s, k, w) && ClientGap(s, k, w) == 0
  {
    hide Outlook, WKey;
  }

  /** By how much a client's credits are ahead of the usage rows attributed to it, stored or outstanding. */
  ghost function Lead(s: State, client: string, w: WindowKey): int {
    CountersAt(s.clientUsage, (client, w)).credits - Outlook(s, OfClient(client, WKey(w))).counters.credits
  }

  lemma AddAt<K>(m: map<K, int>, k: K, amount: nat, k': K)
    ensures At(Add(m, k, amount), k') == At(m, k') + if k == k' then amount else 0
    ensures k' in Add(m, k, amount) <==> k' in m || k == k'
  {
  }

  lemma AddedToVendor(v: string, x: WindowKey, amount: int, dims: Dims, vendor: string, w: WindowKey)
    ensures ChargedBy(v, x, amount, dims, OfVendor(vendor, WKey(w))) == if (v, x) == (vendor, w) then Credits(amount) else NONE
  {
    hide WKey, OrEmpty;
    WKeyInjective(w, x);
  }

  lemma AddedToClient(v: string, x: WindowKey, amount: int, dims: Dims, client: string, w: WindowKey)
    requires client != ""
    ensures ChargedBy(v, x, amount, dims, OfClient(client, WKey(w)))
            == if dims.client == Some(client) && x == w then Credits(amount) else NONE
  {
    hide WKey;
    WKeyInjective(w, x);
  }

  lemma CreditedToClient(c: string, x: WindowKey, amount: int, client: string, w: WindowKey)
    ensures CreditedBy(c, x, amount, CounterOf(client, WKey(w))) == if c == client && x == w then Credits(amount) else NONE
  {
    hide WKey;
    WKeyInjective(w, x);
  }

  /** What the cast to a signed column takes off an amount: 2^64 or nothing. */
  function CastLoss(amount: nat): int {
    amount - AsI64(amount)
  }

  lemma ChargeGaps(s: State, v: string, x: WindowKey, amount: nat, dims: Dims, k: string, w: WindowKey)
    ensures var s' := MirrorTotal(s, v, x, amount, dims);
            && (TotalShaped(s, k, w) ==> TotalShaped(s', k, w))
            && TotalGap(s', k, w) == TotalGap(s, k, w) + (if (v, x) == (k, w) then CastLoss(amount) else 0)
            && (ClientShaped(s, k, w) ==> ClientShaped(s', k, w)) && ClientGap(s', k, w) == ClientGap(s, k, w)
            && (k != "" ==> Lead(s', k, w) == Lead(s, k, w) - if dims.client == Some(k) && x == w then AsI64(amount) else 0)
  {
    hide Outlook, WKey, Add, At, ChargedBy, CountersAt, RowOf, AsI64;
    ChargeTally(s, v, x, amount, dims, OfVendor(k, WKey(w)));
    ChargeTally(s, v, x, amount, dims, OfClient(k, WKey(w)));
    ChargeTally(s, v, x, amount, dims, CounterOf(k, WKey(w)));
    NoCounterRow(v, x, AsI64(amount), dims, k, WKey(w));
    AddedToVendor(v, x, AsI64(amount), dims, k, w);
    if k != "" {
      AddedToClient(v, x, AsI64(amount), dims, k, w);
    }
    AddAt(s.totals, (v, x), amount, (k, w));
  }

  lemma NoCounterRow(v: string, x: WindowKey, amount: int, dims: Dims, client: string, window: string)
    ensures ChargedBy(v, x, amount, dims, CounterOf(client, window)) == NONE
  {
  }

  lemma CreditGaps(s: State, c: string, x: WindowKey, amount: nat, k: string, w: WindowKey)
    ensures var s' := MirrorCredit(s, c, x, amount);
            && (TotalShaped(s, k, w) ==> TotalShaped(s', k, w)) && TotalGap(s', k, w) == TotalGap(s, k, w)
            && (ClientShaped(s, k, w) ==> ClientShaped(s', k, w))
            && ClientGap(s', k, w) == ClientGap(s, k, w) + (if c == k && x == w then CastLoss(amount) else 0)
            && Lead(s', k, w) == Lead(s, k, w) + if c == k && x == w then amount else 0
  {
    hide Outlook, WKey, Bumping, CountersAt, CreditedBy, MirrorCredit, At, AsI64;
    var s' := MirrorCredit(s, c, x, amount);
    CreditTally(s, c, x, amount, OfVendor(k, WKey(w)));
    CreditTally(s, c, x, amount, OfClient(k, WKey(w)));
    CreditTally(s, c, x, amount, CounterOf(k, WKey(w)));
    OnlyCounters(c, x, AsI64(amount), k, WKey(w));
    CreditedToClient(c, x, AsI64(amount), k, w);
    CreditMirrors(s, c, x, amount);
    BumpAt(s.clientUsage, (c, x), ClientCounters(0, amount, 0), (k, w));
  }

  lemma CreditMirrors(s: State, c: string, x: WindowKey, amount: nat)
    ensures MirrorCredit(s, c, x, amount).totals == s.totals
    ensures MirrorCredit(s, c, x, amount).clientUsage == Bumping(s.clientUsage, (c, x), ClientCounters(0, amount, 0))
  {
    hide Bumping, AsI64, WKey;
  }

  lemma OnlyCounters(c: string, x: WindowKey, amount: int, k: string, window: string)
    ensures CreditedBy(c, x, amount, OfVendor(k, window)) == NONE == CreditedBy(c, x, amount, OfClient(k, window))
  {
  }

  lemma BumpedInClient(client: string, now: int, bump: ClientCounters, k: string, w: WindowKey)
    ensures BumpedBy(client, now, bump, CounterOf(k, WKey(w)))
            == if k == client && (w == DayKey(now) || w == MonthKey(now)) then Tally(bump, true) else NONE
  {
    hide WKey, DayKey, MonthKey;
    WKeyInjective(w, DayKey(now));
    WKeyInjective(w, MonthKey(now));
  }

  lemma BothGaps(s: State, client: string, now: int, bump: ClientCounters, k: string, w: WindowKey)
    requires bump.credits == 0
    ensures SameGaps(s, MirrorBoth(s, client, now, bump), k, w)
  {
    hide Outlook, WKey, Bumping, CountersAt, DayKey, MonthKey;
    BothTally(s, client, now, bump, OfVendor(k, WKey(w)));
    BothTally(s, client, now, bump, OfClient(k, WKey(w)));
    BothTally(s, client, now, bump, CounterOf(k, WKey(w)));
    BumpedInClient(client, now, bump, k, w);
    DistinctWindows(now);
    var day, month := (client, DayKey(now)), (client, MonthKey(now));
    BumpAt(s.clientUsage, day, bump, (k, w));
    BumpAt(Bumping(s.clientUsage, day, bump), month, bump, (k, w));
  }

  ghost predicate SameGaps(s: State, s': State, k: string, w: WindowKey) {
    && (TotalShaped(s, k, w) ==> TotalShaped(s', k, w)) && TotalGap(s', k, w) == TotalGap(s, k, w)
    && (ClientShaped(s, k, w) ==> ClientShaped(s', k, w)) && ClientGap(s', k, w) == ClientGap(s, k, w)
    && Lead(s', k, w) == Lead(s, k, w)
  }

  /** What an action's amount loses in the cast on its way to a vendor's rows, and to a client's. */
  function TotalLoss(a: Action, vendor: string, w: WindowKey): int {
    if a.AddTotal? && a.vendor == vendor && a.w == w then CastLoss(a.amount) else 0
  }

  function ClientLoss(a: Action, client: string, w: WindowKey): int {
    if a.AddCredit? && a.client == client && a.w == w then CastLoss(a.amount) else 0
  }

  /** By how much an action moves a client's credits ahead of its attributed rows. */
  function LeadOf(a: Action, client: string, w: WindowKey): int {
    match a
    case AddTotal(_, x, amount, dims) => 0 - (if dims.client == Some(client) && x == w then AsI64(amount) else 0)
    case AddCredit(c, x, amount) => if c == client && x == w then amount else 0
    case _ => 0
  }

  /** Each action moves each gap by exactly what the cast takes off its amount. */
  lemma StepGaps(s: State, a: Action, k: string, w: WindowKey)
    ensures TotalShaped(s, k, w) ==> TotalShaped(Stepping(s, a), k, w)
    ensures TotalGap(Stepping(s, a), k, w) == TotalGap(s, k, w) + TotalLoss(a, k, w)
    ensures ClientShaped(s, k, w) ==> ClientShaped(Stepping(s, a), k, w)
    ensures ClientGap(Stepping(s, a), k, w) == ClientGap(s, k, w) + ClientLoss(a, k, w)
    ensures k != "" ==> Lead(Stepping(s, a), k, w) == Lead(s, k, w) + LeadOf(a, k, w)
  {
    hide Outlook, WKey, MirrorTotal, MirrorCredit, MirrorBoth, QuotaCheck, Apply, CountersAt, At, AsI64;
    match a
    case AddTotal(v, x, amount, dims) => ChargeGaps(s, v, x, amount, dims, k, w);
    case AddCredit(c, x, amount) => CreditGaps(s, c, x, amount, k, w);
    case Admit(client, now, daily, monthly) => BothGaps(s, client, now, ClientCounters(1, 0, 0), k, w);
    case Throttle(client, now) => BothGaps(s, client, now, ClientCounters(0, 0, 1), k, w);
    case Submit(i) =>
      SubmitTally(s, i, OfVendor(k, WKey(w)));
      SubmitTally(s, i, OfClient(k, WKey(w)));
      SubmitTally(s, i, CounterOf(k, WKey(w)));
    case Work =>
      WorkTally(s, OfVendor(k, WKey(w)));
      WorkTally(s, OfClient(k, WKey(w)));
      WorkTally(s, CounterOf(k, WKey(w)));
  }

  lemma StepMatches(s: State, a: Action, k: string, w: WindowKey)
    requires CastableAction(a)
    ensures TotalMatches(s, k, w) ==> TotalMatches(Stepping(s, a), k, w)
    ensures ClientMatches(s, k, w) ==> ClientMatches(Stepping(s, a), k, w)
  {
    hide TotalMatches, ClientMatches, TotalShaped, ClientShaped, TotalGap, ClientGap, Lead, Stepping;
    StepGaps(s, a, k, w);
    MatchesIff(s, k, w);
    MatchesIff(Stepping(s, a), k, w);
  }

  // ----- over whole runs

  /** Every mirror entry is the database entry plus what is outstanding, and exists exactly if one of the two does. */
  ghost predicate Consistent(s: State) {
    forall k, w :: TotalMatches(s, k, w) && ClientMatches(s, k, w)
  }

  /** The amount survives the cast to a signed column. */
  predicate CastableAction(a: Action) {
    a.AddTotal? || a.AddCredit? ==> a.amount < I64_LIMIT
  }

  predicate Castable(actions: seq<Action>) {
    forall i :: 0 <= i < |actions| ==> CastableAction(actions[i])
  }

  lemma {:induction false} MirrorsRefineDatabase(s: State, actions: seq<Action>)
    requires Consistent(s) && Castable(actions)
    ensures Consistent(Run(s, actions))
    decreases |actions|
  {
    hide TotalMatches, ClientMatches, Stepping, CastableAction;
    if actions != [] {
      var front := actions[..|actions| - 1];
      MirrorsRefineDatabase(s, front);
      forall k, w
        ensures TotalMatches(Run(s, actions), k, w) && ClientMatches(Run(s, actions), k, w)
      {
        StepMatches(Run(s, front), actions[|actions| - 1], k, w);
      }
    }
  }

  /**
   * One metering call in the order the store performs it: the vendor's total, the client's credits if there is a client,
   * and then the writes, the client's before the vendor's.
   */
  function CallActions(vendor: string, w: WindowKey, amount: nat, dims: Dims): seq<Action> {
    if dims.client.Some? then
      [AddTotal(vendor, w, amount, dims), AddCredit(dims.client.value, w, amount), Submit(1), Submit(0)]
    else [AddTotal(vendor, w, amount, dims), Submit(0)]
  }

  /** Uninterrupted, those operations are the store's method. */
  lemma WholeAdd(s: State, vendor: string, w: WindowKey, amount: nat, dims: Dims)
    requires s.pending == []
    ensures Run(s, CallActions(vendor, w, amount, dims)) == SubmitAll(MirrorAdd(s, vendor, w, amount, dims))
  {
    hide Stepping, Run;
    var charge := AddTotal(vendor, w, amount, dims);
    var charged := Stepping(s, charge);
    if dims.client.Some? {
      var credit := AddCredit(dims.client.value, w, amount);
      assert [charge, credit, Submit(1), Submit(0)] == [charge] + ([credit] + ([Submit(1)] + ([Submit(0)] + [])));
      FirstStep(s, charge, [credit] + ([Submit(1)] + ([Submit(0)] + [])));
      FirstStep(charged, credit, [Submit(1)] + ([Submit(0)] + []));
      var both := Stepping(charged, credit);
      FirstStep(both, Submit(1), [Submit(0)] + []);
      FirstStep(Stepping(both, Submit(1)), Submit(0), []);
      NoActions(Stepping(Stepping(both, Submit(1)), Submit(0)));
      CreditedCall(s, vendor, w, amount, dims);
    } else {
      assert [charge, Submit(0)] == [charge] + ([Submit(0)] + []);
      FirstStep(s, charge, [Submit(0)] + []);
      FirstStep(charged, Submit(0), []);
      NoActions(Stepping(charged, Submit(0)));
      PlainCall(s, vendor, w, amount, dims);
    }
  }

  lemma NoActions(s: State)
    ensures Run(s, []) == s
  {
  }

  lemma PlainCall(s: State, vendor: string, w: WindowKey, amount: nat, dims: Dims)
    requires s.pending == [] && dims.client.None?
    ensures Stepping(Stepping(s, AddTotal(vendor, w, amount, dims)), Submit(0)) == SubmitAll(MirrorAdd(s, vendor, w, amount, dims))
  {
    hide AsI64, RowOf, Add;
    FirstSubmit(MirrorTotal(s, vendor, w, amount, dims));
  }

  lemma CreditedCall(s: State, vendor: string, w: WindowKey, amount: nat, dims: Dims)
    requires s.pending == [] && dims.client.Some?
    ensures var both := Stepping(Stepping(s, AddTotal(vendor, w, amount, dims)), AddCredit(dims.client.value, w, amount));
            Stepping(Stepping(both, Submit(1)), Submit(0)) == SubmitAll(MirrorAdd(s, vendor, w, amount, dims))
  {
    hide AsI64, RowOf, Add, Bumping, WKey;
    var both := MirrorCredit(MirrorTotal(s, vendor, w, amount, dims), dims.client.value, w, amount);
    var (usage, credit) := (both.pending[0], both.pending[1]);
    assert both.pending == [usage, credit];
    assert both.pending[..1] + both.pending[2..] == [usage];
    var next := both.(pending := [usage], queue := s.queue + [credit]);
    assert Stepping(both, Submit(1)) == next;
    FirstSubmit(next);
    assert s.queue + [credit] + [usage] == s.queue + [credit, usage];
  }

  predicate NonNegativeCounters(c: ClientCounters) {
    c.requests >= 0 && c.credits >= 0 && c.throttled >= 0
  }

  predicate NonNegativeMirrors(s: State) {
    && (forall k :: k in s.totals ==> s.totals[k] >= 0)
    && (forall k :: k in s.clientUsage ==> NonNegativeCounters(s.clientUsage[k]))
  }

  predicate NonNegativeDb(db: Db) {
    && (forall row :: row in db.usage ==> db.usage[row] >= 0)
    && (forall row :: row in db.clients ==> NonNegativeCounters(db.clients[row]))
  }

  lemma BumpingNonNegative<K>(m: map<K, ClientCounters>, k: K, bump: ClientCounters)
    requires forall k :: k in m ==> NonNegativeCounters(m[k])
    requires NonNegativeCounters(bump)
    ensures forall k' :: k' in Bumping(m, k, bump) ==> NonNegativeCounters(Bumping(m, k, bump)[k'])
  {
  }

  lemma StepNonNegative(s: State, a: Action)
    requires NonNegativeMirrors(s)
    ensures NonNegativeMirrors(Stepping(s, a))
  {
    hide DayKey, MonthKey, WKey, RowOf, AsI64, QuotaCheck, Bumping, Apply;
    match a
    case AddTotal(_, _, _, _) =>
    case AddCredit(client, w, amount) =>
      BumpingNonNegative(s.clientUsage, (client, w), ClientCounters(0, amount, 0));
    case Admit(client, now, _, _) => BothNonNegative(s, client, now, ClientCounters(1, 0, 0));
    case Throttle(client, now) => BothNonNegative(s, client, now, ClientCounters(0, 0, 1));
    case Submit(_) =>
    case Work =>
  }

  lemma BothNonNegative(s: State, client: string, now: int, bump: ClientCounters)
    requires NonNegativeMirrors(s) && NonNegativeCounters(bump)
    ensures NonNegativeMirrors(MirrorBoth(s, client, now, bump))
  {
    hide DayKey, MonthKey, WKey, Bumping;
    BumpingNonNegative(s.clientUsage, (client, DayKey(now)), bump);
    BumpingNonNegative(Bumping(s.clientUsage, (client, DayKey(now)), bump), (client, MonthKey(now)), bump);
  }

  lemma {:induction false} RunNonNegative(s: State, actions: seq<Action>)
    requires NonNegativeMirrors(s)
    ensures NonNegativeMirrors(Run(s, actions))
    decreases |actions|
  {
    hide Stepping, NonNegativeMirrors;
    if actions != [] {
      RunNonNegative(s, actions[..|actions| - 1]);
      StepNonNegative(Run(s, actions[..|actions| - 1]), actions[|actions| - 1]);
    }
  }

  predicate NonNegativeJob(job: Job) {
    match job
    case UsageJob(_, amount) => amount >= 0
    case ClientJob(_, _, bump) => NonNegativeCounters(bump)
  }

  /** Neither the tables nor what is on its way to them hold anything negative. */
  predicate NonNegativeStored(s: State) {
    && NonNegativeDb(s.db)
    && (forall job :: job in s.queue ==> NonNegativeJob(job))
    && forall job :: job in s.pending ==> NonNegativeJob(job)
  }

  lemma {:induction false} UpsertNonNegative(clients: map<ClientRow, ClientCounters>, client: string, windows: seq<string>,
                                             bump: ClientCounters)
    requires forall k :: k in clients ==> NonNegativeCounters(clients[k])
    requires NonNegativeCounters(bump)
    ensures forall k :: k in Upsert(clients, client, windows, bump) ==>
              NonNegativeCounters(Upsert(clients, client, windows, bump)[k])
    decreases |windows|
  {
    hide Bumping;
    if windows != [] {
      BumpingNonNegative(clients, (client, windows[0]), bump);
      UpsertNonNegative(Bumping(clients, (client, windows[0]), bump), client, windows[1..], bump);
    }
  }

  lemma ApplyNonNegative(db: Db, job: Job)
    requires NonNegativeDb(db) && NonNegativeJob(job)
    ensures NonNegativeDb(Apply(db, job))
  {
    hide Upsert;
    if job.ClientJob? {
      UpsertNonNegative(db.clients, job.client, job.windows, job.bump);
    }
  }

  lemma StepStored(s: State, a: Action)
    requires NonNegativeStored(s) && CastableAction(a)
    ensures NonNegativeStored(Stepping(s, a))
  {
    hide DayKey, MonthKey, WKey, RowOf, QuotaCheck, Bumping, Apply, Add, NonNegativeDb;
    match a
    case AddTotal(_, _, _, _) =>
    case AddCredit(_, _, _) =>
    case Admit(_, _, _, _) =>
    case Throttle(_, _) =>
    case Submit(i) =>
      if i < |s.pending| {
        assert s.pending[i] in s.pending;
      }
    case Work =>
      if s.queue != [] {
        assert s.queue[0] in s.queue;
        ApplyNonNegative(s.db, s.queue[0]);
      }
  }

  lemma {:induction false} RunStored(s: State, actions: seq<Action>)
    requires NonNegativeStored(s) && Castable(actions)
    ensures NonNegativeStored(Run(s, actions))
    decreases |actions|
  {
    hide Stepping, NonNegativeStored, CastableAction;
    if actions != [] {
      RunStored(s, actions[..|actions| - 1]);
      StepStored(Run(s, actions[..|actions| - 1]), actions[|actions| - 1]);
    }
  }

  /** The worker never makes an entry negative, so what closing leaves can be opened like what was opened before. */
  lemma {:induction false} DrainNonNegative(db: Db, jobs: seq<Job>)
    requires NonNegativeDb(db) && forall job :: job in jobs ==> NonNegativeJob(job)
    ensures NonNegativeDb(Drain(db, jobs))
    decreases |jobs|
  {
    hide Apply, NonNegativeDb;
    if jobs != [] {
      ApplyNonNegative(db, jobs[0]);
      DrainNonNegative(Apply(db, jobs[0]), jobs[1..]);
    }
  }

  function Submits(n: nat): (actions: seq<Action>)
    ensures |actions| == n
  {
    if n == 0 then [] else [Submit(0)] + Submits(n - 1)
  }

  /** A method of the store queues its writes before it returns: a step that leaves writes behind, then their submission. */
  lemma {:induction false} WholeCall(s: State)
    ensures SubmitAll(s) == Run(s, Submits(|s.pending|))
    decreases |s.pending|
  {
    hide Stepping;
    if s.pending != [] {
      var next := s.(pending := s.pending[1..], queue := s.queue + [s.pending[0]]);
      FirstSubmit(s);
      WholeCall(next);
      assert next.queue + next.pending == s.queue + s.pending;
      FirstStep(s, Submit(0), Submits(|next.pending|));
    } else {
      assert s.queue + s.pending == s.queue;
    }
  }

  lemma FirstSubmit(s: State)
    requires s.pending != []
    ensures Stepping(s, Submit(0)) == s.(pending := s.pending[1..], queue := s.queue + [s.pending[0]])
  {
    assert s.pending[..0] + s.pending[1..] == s.pending[1..];
  }

  lemma FirstStep(s: State, a: Action, rest: seq<Action>)
    ensures Run(s, [a] + rest) == Run(Stepping(s, a), rest)
  {
    hide Stepping;
    RunSplit(s, [a], rest);
    assert [a][..0] == [];
  }

  lemma {:induction false} RunSplit(s: State, first: seq<Action>, rest: seq<Action>)
    ensures Run(s, first + rest) == Run(Run(s, first), rest)
    decreases |rest|
  {
    hide Stepping;
    if rest == [] {
      assert first + rest == first;
    } else {
      RunSplit(s, first, rest[..|rest| - 1]);
      assert (first + rest)[..|first + rest| - 1] == first + rest[..|rest| - 1];
    }
  }

  // ----- closing and loading again

  lemma LoadedTotal(usage: map<UsageRow, int>, vendor: string, w: WindowKey)
    ensures (vendor, w) in LoadTotals(usage) <==> exists row :: row in usage && Matches(row, OfVendor(vendor, WKey(w)))
    ensures (vendor, w) in LoadTotals(usage) ==>
              LoadTotals(usage)[(vendor, w)]
              == NonNegative(Sum(MatchingRows(usage, OfVendor(vendor, WKey(w)))))
  {
    hide WKey, ParseWKey;
    forall row: UsageRow
      ensures ParseWKey(row.window) == Some(w) <==> row.window == WKey(w)
    {
      WKeyRoundTrip(w, row.window);
    }
    assert WindowRows(usage, vendor, WKey(w)) == MatchingRows(usage, OfVendor(vendor, WKey(w)));
  }

  function Cut(c: ClientCounters): ClientCounters {
    ClientCounters(NonNegative(c.requests), NonNegative(c.credits), NonNegative(c.throttled))
  }

  lemma LoadedClient(clients: map<ClientRow, ClientCounters>, client: string, w: WindowKey)
    ensures (client, w) in LoadClients(clients) <==> (client, WKey(w)) in clients
    ensures (client, w) in LoadClients(clients) ==>
              LoadClients(clients)[(client, w)] == Cut(CountersAt(clients, (client, WKey(w))))
  {
    hide WKey, ParseWKey;
    forall row: ClientRow
      ensures ParseWKey(row.1) == Some(w) <==> row.1 == WKey(w)
    {
      WKeyRoundTrip(w, row.1);
    }
    if (client, WKey(w)) in clients {
      var row := (client, WKey(w));
      assert row in clients && ParseWKey(row.1) == Some(w);
    }
  }

  lemma SettledOutlook(s: State, q: Query)
    requires Outstanding(s) == []
    ensures Outlook(s, q) == TableTally(s.db, q)
  {
    hide TableTally, Join;
    JoinLaws(TableTally(s.db, q), NONE, NONE);
  }

  /** With nothing outstanding, loading gives each total less its gap. */
  lemma SettledTotal(s: State, key: TotalKey)
    requires TotalShaped(s, key.0, key.1) && Outstanding(s) == []
    ensures key in LoadTotals(s.db.usage) <==> key in s.totals
    ensures key in s.totals ==> LoadTotals(s.db.usage)[key] == NonNegative(s.totals[key] - TotalGap(s, key.0, key.1))
  {
    hide WKey, LoadTotals, Sum, Outlook;
    assert key == (key.0, key.1);
    SettledOutlook(s, OfVendor(key.0, WKey(key.1)));
    LoadedTotal(s.db.usage, key.0, key.1);
  }

  lemma SettledClient(s: State, key: ClientKey)
    requires ClientShaped(s, key.0, key.1) && Outstanding(s) == []
    ensures key in LoadClients(s.db.clients) <==> key in s.clientUsage
    ensures key in s.clientUsage ==>
              var c := s.clientUsage[key];
              LoadClients(s.db.clients)[key] == Cut(c.(credits := c.credits - ClientGap(s, key.0, key.1)))
  {
    hide WKey, LoadClients, Outlook;
    assert key == (key.0, key.1);
    SettledOutlook(s, CounterOf(key.0, WKey(key.1)));
    LoadedClient(s.db.clients, key.0, key.1);
  }

  /** A state with nothing outstanding whose mirrors are consistent carries exactly what loading its database gives. */
  lemma SettledIsLoaded(s: State)
    requires Consistent(s) && NonNegativeMirrors(s) && Outstanding(s) == []
    ensures LoadTotals(s.db.usage) == s.totals && LoadClients(s.db.clients) == s.clientUsage
  {
    hide LoadTotals, LoadClients, TotalMatches, ClientMatches, TotalShaped, ClientShaped, TotalGap, ClientGap;
    forall key: TotalKey
      ensures key in LoadTotals(s.db.usage) <==> key in s.totals
      ensures key in s.totals ==> LoadTotals(s.db.usage)[key] == s.totals[key]
    {
      assert TotalMatches(s, key.0, key.1);
      MatchesIff(s, key.0, key.1);
      SettledTotal(s, key);
    }
    forall key: ClientKey
      ensures key in LoadClients(s.db.clients) <==> key in s.clientUsage
      ensures key in s.clientUsage ==> LoadClients(s.db.clients)[key] == s.clientUsage[key]
    {
      assert ClientMatches(s, key.0, key.1);
      MatchesIff(s, key.0, key.1);
      SettledClient(s, key);
    }
  }

  lemma {:induction false} DrainOutlook(s: State, q: Query)
    ensures Outlook(s.(queue := [], db := Drain(s.db, s.queue)), q) == Outlook(s, q)
    decreases |s.queue|
  {
    hide Outlook, Apply;
    if s.queue != [] {
      WorkTally(s, q);
      DrainOutlook(Working(s), q);
    }
  }

  /**
   * Closing and opening again. Whenever no call is between its mirror update and its queued write, draining the queue
   * into the database and loading that database gives exactly the mirrors the process had.
   */
  lemma ReloadRebuildsMirrors(s: State)
    requires Consistent(s) && NonNegativeMirrors(s) && s.pending == []
    ensures Loaded(Drain(s.db, s.queue)).totals == s.totals
    ensures Loaded(Drain(s.db, s.queue)).clientUsage == s.clientUsage
  {
    hide Outlook, LoadTotals, LoadClients;
    var drained := s.(queue := [], db := Drain(s.db, s.queue));
    forall k, w
      ensures TotalMatches(drained, k, w) && ClientMatches(drained, k, w)
    {
      assert TotalMatches(s, k, w) && ClientMatches(s, k, w);
      DrainOutlook(s, OfVendor(k, WKey(w)));
      DrainOutlook(s, CounterOf(k, WKey(w)));
    }
    SettledIsLoaded(drained);
  }

  lemma LoadedTotalMatches(db: Db, key: TotalKey)
    requires NonNegativeDb(db)
    ensures TotalMatches(Loaded(db), key.0, key.1)
    ensures key in Loaded(db).totals ==> Loaded(db).totals[key] >= 0
  {
    hide WKey, LoadTotals, LoadClients, Sum, Outlook;
    assert key == (key.0, key.1);
    SettledOutlook(Loaded(db), OfVendor(key.0, WKey(key.1)));
    LoadedTotal(db.usage, key.0, key.1);
    MatchingSum(db.usage, OfVendor(key.0, WKey(key.1)));
  }

  lemma LoadedClientMatches(db: Db, key: ClientKey)
    requires NonNegativeDb(db)
    ensures ClientMatches(Loaded(db), key.0, key.1)
    ensures key in Loaded(db).clientUsage ==> NonNegativeCounters(Loaded(db).clientUsage[key])
  {
    hide WKey, LoadTotals, LoadClients, Outlook;
    assert key == (key.0, key.1);
    SettledOutlook(Loaded(db), CounterOf(key.0, WKey(key.1)));
    LoadedClient(db.clients, key.0, key.1);
  }

  /** Loading a database starts consistent, rows with unreadable windows included. */
  lemma LoadedIsConsistent(db: Db)
    requires NonNegativeDb(db)
    ensures Consistent(Loaded(db)) && NonNegativeMirrors(Loaded(db))
  {
    hide Loaded, TotalMatches, ClientMatches, NonNegativeDb;
    forall k, w
      ensures TotalMatches(Loaded(db), k, w) && ClientMatches(Loaded(db), k, w)
    {
      LoadedTotalMatches(db, (k, w));
      LoadedClientMatches(db, (k, w));
    }
    forall key | key in Loaded(db).totals
      ensures Loaded(db).totals[key] >= 0
    {
      LoadedTotalMatches(db, key);
    }
    forall key | key in Loaded(db).clientUsage
      ensures NonNegativeCounters(Loaded(db).clientUsage[key])
    {
      LoadedClientMatches(db, key);
    }
  }

  lemma MatchingSum(usage: map<UsageRow, int>, q: Query)
    requires forall row :: row in usage ==> usage[row] >= 0
    ensures Sum(MatchingRows(usage, q)) >= 0
    ensures !(exists row :: row in usage && Matches(row, q)) ==> Sum(MatchingRows(usage, q)) == 0
  {
    var matching := MatchingRows(usage, q);
    SumNonNegative(matching);
    if !exists row :: row in usage && Matches(row, q) {
      assert matching == map[];
    }
  }

  lemma LoadedIsStored(db: Db)
    requires NonNegativeDb(db)
    ensures NonNegativeStored(Loaded(db))
  {
    hide LoadTotals, LoadClients;
  }

  /** From opening a database, through any run of calls and worker steps, to closing and opening it again, and so on. */
  lemma OpenRunReopen(db: Db, actions: seq<Action>)
    requires NonNegativeDb(db) && Castable(actions)
    ensures var s := Run(Loaded(db), actions);
            && Consistent(s)
            && NonNegativeDb(Drain(s.db, s.queue))
            && (s.pending == [] ==> var again := Loaded(Drain(s.db, s.queue));
                                    again.totals == s.totals && again.clientUsage == s.clientUsage)
  {
    hide Loaded, Consistent, NonNegativeMirrors, Run, Drain;
    LoadedIsConsistent(db);
    MirrorsRefineDatabase(Loaded(db), actions);
    RunNonNegative(Loaded(db), actions);
    LoadedIsStored(db);
    RunStored(Loaded(db), actions);
    var s := Run(Loaded(db), actions);
    DrainNonNegative(s.db, s.queue);
    if s.pending == [] {
      ReloadRebuildsMirrors(s);
    }
  }

  // ----- exactly when reloading rebuilds the mirrors

  /** Amounts are unsigned 64-bit numbers. */
  predicate Unsigned64(actions: seq<Action>) {
    forall i :: 0 <= i < |actions| && (actions[i].AddTotal? || actions[i].AddCredit?) ==> actions[i].amount < 2 * I64_LIMIT
  }

  function TotalLosses(actions: seq<Action>, vendor: string, w: WindowKey): int
    decreases |actions|
  {
    if actions == [] then 0
    else TotalLosses(actions[..|actions| - 1], vendor, w) + TotalLoss(actions[|actions| - 1], vendor, w)
  }

  function ClientLosses(actions: seq<Action>, client: string, w: WindowKey): int
    decreases |actions|
  {
    if actions == [] then 0
    else ClientLosses(actions[..|actions| - 1], client, w) + ClientLoss(actions[|actions| - 1], client, w)
  }

  /** Over a run the gaps are what the casts have taken off. */
  lemma {:induction false} RunGaps(s: State, actions: seq<Action>, k: string, w: WindowKey)
    ensures TotalShaped(s, k, w) ==> TotalShaped(Run(s, actions), k, w)
    ensures TotalGap(Run(s, actions), k, w) == TotalGap(s, k, w) + TotalLosses(actions, k, w)
    ensures ClientShaped(s, k, w) ==> ClientShaped(Run(s, actions), k, w)
    ensures ClientGap(Run(s, actions), k, w) == ClientGap(s, k, w) + ClientLosses(actions, k, w)
    decreases |actions|
  {
    hide Stepping, TotalShaped, TotalGap, ClientShaped, ClientGap, TotalLoss, ClientLoss, Lead, LeadOf;
    if actions != [] {
      RunGaps(s, actions[..|actions| - 1], k, w);
      StepGaps(Run(s, actions[..|actions| - 1]), actions[|actions| - 1], k, w);
    }
  }

  lemma CastLosses(amount: nat)
    requires amount < 2 * I64_LIMIT
    ensures CastLoss(amount) == if amount < I64_LIMIT then 0 else 2 * I64_LIMIT
  {
  }

  function AmountOf(a: Action): nat {
    if a.AddTotal? || a.AddCredit? then a.amount else 0
  }

  /** One step's mirrors: they never shrink, and an amount that loses something leaves them positive. */
  lemma StepGrows(s: State, a: Action, k: string, w: WindowKey)
    requires AmountOf(a) < 2 * I64_LIMIT && NonNegativeMirrors(s)
    ensures var s' := Stepping(s, a);
            && At(s'.totals, (k, w)) >= At(s.totals, (k, w)) >= 0
            && CountersAt(s'.clientUsage, (k, w)).credits >= CountersAt(s.clientUsage, (k, w)).credits >= 0
            && TotalLoss(a, k, w) >= 0 && ClientLoss(a, k, w) >= 0
            && (TotalLoss(a, k, w) > 0 ==> At(s'.totals, (k, w)) > 0)
            && (ClientLoss(a, k, w) > 0 ==> CountersAt(s'.clientUsage, (k, w)).credits > 0)
  {
    hide WKey, RowOf, AsI64, QuotaCheck, Apply, CastLoss, MirrorBoth, Bumping, Add, At, CountersAt;
    CastLosses(AmountOf(a));
    MirrorAt(s, (k, w));
    match a
    case AddTotal(v, x, amount, _) => AddAt(s.totals, (v, x), amount, (k, w));
    case AddCredit(c, x, amount) => BumpAt(s.clientUsage, (c, x), ClientCounters(0, amount, 0), (k, w));
    case Admit(client, now, _, _) => BothKeepsCredits(s, client, now, ClientCounters(1, 0, 0), (k, w));
    case Throttle(client, now) => BothKeepsCredits(s, client, now, ClientCounters(0, 0, 1), (k, w));
    case Submit(_) =>
    case Work =>
  }

  lemma MirrorAt(s: State, k: TotalKey)
    requires NonNegativeMirrors(s)
    ensures At(s.totals, k) >= 0 && CountersAt(s.clientUsage, k).credits >= 0
  {
  }

  lemma BothKeepsCredits(s: State, client: string, now: int, bump: ClientCounters, k: ClientKey)
    requires bump.credits == 0
    ensures MirrorBoth(s, client, now, bump).totals == s.totals
    ensures CountersAt(MirrorBoth(s, client, now, bump).clientUsage, k).credits == CountersAt(s.clientUsage, k).credits
  {
    hide DayKey, MonthKey, WKey, Bumping, CountersAt;
    BumpAt(s.clientUsage, (client, DayKey(now)), bump, k);
    BumpAt(Bumping(s.clientUsage, (client, DayKey(now)), bump), (client, MonthKey(now)), bump, k);
  }

  /** What a run loses is never negative, and where it loses something the mirror is positive. */
  lemma {:induction false} RunGrows(s: State, actions: seq<Action>, k: string, w: WindowKey)
    requires Unsigned64(actions) && NonNegativeMirrors(s)
    ensures TotalLosses(actions, k, w) >= 0 && ClientLosses(actions, k, w) >= 0
    ensures TotalLosses(actions, k, w) > 0 ==> At(Run(s, actions).totals, (k, w)) > 0
    ensures ClientLosses(actions, k, w) > 0 ==> CountersAt(Run(s, actions).clientUsage, (k, w)).credits > 0
    decreases |actions|
  {
    hide Stepping, TotalLoss, ClientLoss, NonNegativeMirrors, CountersAt, At;
    if actions != [] {
      var front, last := actions[..|actions| - 1], actions[|actions| - 1];
      assert actions[|actions| - 1] == last;
      RunGrows(s, front, k, w);
      RunNonNegative(s, front);
      StepGrows(Run(s, front), last, k, w);
    }
  }

  lemma {:induction false} SomethingLost(s: State, actions: seq<Action>, i: nat, k: string, w: WindowKey)
    requires Unsigned64(actions) && NonNegativeMirrors(s) && i < |actions| && !CastableAction(actions[i])
    ensures actions[i].AddTotal? && (actions[i].vendor, actions[i].w) == (k, w) ==> TotalLosses(actions, k, w) > 0
    ensures actions[i].AddCredit? && (actions[i].client, actions[i].w) == (k, w) ==> ClientLosses(actions, k, w) > 0
    decreases |actions|
  {
    hide CastLoss, NonNegativeMirrors;
    var front, last := actions[..|actions| - 1], actions[|actions| - 1];
    CastLosses(AmountOf(last));
    if i < |front| {
      assert front[i] == actions[i];
      SomethingLost(s, front, i, k, w);
    } else {
      RunGrows(s, front, k, w);
    }
  }

  /** What a settled state comes back as after closing and loading, entry by entry. */
  lemma ReloadedEntries(s: State, key: TotalKey)
    requires TotalShaped(s, key.0, key.1) && ClientShaped(s, key.0, key.1) && s.pending == []
    ensures var again := Loaded(Drain(s.db, s.queue));
            && (key in again.totals <==> key in s.totals)
            && (key in s.totals ==> again.totals[key] == NonNegative(s.totals[key] - TotalGap(s, key.0, key.1)))
            && (key in again.clientUsage <==> key in s.clientUsage)
            && (key in s.clientUsage ==>
                  var c := s.clientUsage[key];
                  again.clientUsage[key] == Cut(c.(credits := c.credits - ClientGap(s, key.0, key.1))))
  {
    hide Outlook, LoadTotals, LoadClients, WKey;
    var drained := s.(queue := [], db := Drain(s.db, s.queue));
    DrainOutlook(s, OfVendor(key.0, WKey(key.1)));
    DrainOutlook(s, CounterOf(key.0, WKey(key.1)));
    SettledTotal(drained, key);
    SettledClient(drained, key);
  }

  /**
   * The bound on amounts is needed, and nothing less will do. Over any run from opening a database, with amounts that are
   * unsigned 64-bit numbers, closing and loading again rebuilds the mirrors if and only if every amount is below 2^63: the
   * columns are signed, and a larger amount is stored as a negative one.
   */
  lemma ReloadNeedsCastable(db: Db, actions: seq<Action>)
    requires NonNegativeDb(db) && Unsigned64(actions) && Run(Loaded(db), actions).pending == []
    ensures var s := Run(Loaded(db), actions);
            var again := Loaded(Drain(s.db, s.queue));
            again.totals == s.totals && again.clientUsage == s.clientUsage <==> Castable(actions)
  {
    hide Loaded, Run, Drain, NonNegativeMirrors, TotalShaped, ClientShaped, TotalGap, ClientGap, TotalLosses, ClientLosses;
    LoadedIsConsistent(db);
    if Castable(actions) {
      OpenRunReopen(db, actions);
    } else {
      var i: nat :| i < |actions| && !CastableAction(actions[i]);
      LosesAnEntry(db, actions, i);
    }
  }

  lemma LosesAnEntry(db: Db, actions: seq<Action>, i: nat)
    requires NonNegativeDb(db) && Unsigned64(actions) && Run(Loaded(db), actions).pending == []
    requires i < |actions| && !CastableAction(actions[i])
    ensures var s := Run(Loaded(db), actions);
            var again := Loaded(Drain(s.db, s.queue));
            again.totals != s.totals || again.clientUsage != s.clientUsage
  {
    hide Loaded, Run, Drain, NonNegativeMirrors, TotalShaped, ClientShaped, TotalGap, ClientGap, TotalLosses, ClientLosses;
    hide TotalMatches, ClientMatches;
    var a, start := actions[i], Loaded(db);
    var (k, w) := if a.AddTotal? then (a.vendor, a.w) else (a.client, a.w);
    LoadedIsConsistent(db);
    assert TotalMatches(start, k, w) && ClientMatches(start, k, w);
    MatchesIff(start, k, w);
    RunGaps(start, actions, k, w);
    RunGrows(start, actions, k, w);
    SomethingLost(start, actions, i, k, w);
    ReloadedEntries(Run(start, actions), (k, w));
  }

  // ----- the breakdown

  /**
   * What the dashboard shows of a vendor's window adds up: with the mirrors consistent and no call in progress, the amounts
   * of its breakdown, read once every write queued before has been made, sum to the total in the mirror.
   */
  lemma BreakdownSums(s: State, vendor: string, w: WindowKey, r: map<Dims, int>)
    requires Consistent(s) && NonNegativeMirrors(s) && s.pending == []
    requires NonNegativeDb(Drain(s.db, s.queue))
    requires forall d :: d in r <==> Told(d) && RowOf(vendor, w, d) in Drain(s.db, s.queue).usage
    requires forall d :: d in r ==> r[d] == NonNegative(Drain(s.db, s.queue).usage[RowOf(vendor, w, d)])
    ensures Sum(r) == At(s.totals, (vendor, w))
  {
    hide Drain, WKey, RowOf, DimsOf, Told, Outlook, Sum;
    var db := Drain(s.db, s.queue);
    var drained := s.(queue := [], db := db);
    assert TotalMatches(s, vendor, w);
    DrainOutlook(s, OfVendor(vendor, WKey(w)));
    SettledOutlook(drained, OfVendor(vendor, WKey(w)));
    var own := MatchingRows(db.usage, OfVendor(vendor, WKey(w)));
    assert Sum(own) == At(s.totals, (vendor, w));
    var key := (d: Dims) => RowOf(vendor, w, d);
    forall d | d in r
      ensures key(d) in own && own[key(d)] == r[d]
    {
      RowReadsBack(vendor, w, d);
    }
    forall row | row in own
      ensures exists d :: d in r && key(d) == row
    {
      RowTells(vendor, w, row);
      assert key(DimsOf(row)) == row;
    }
    forall c, d | c in r && d in r && key(c) == key(d)
      ensures c == d
    {
      RowReadsBack(vendor, w, c);
      RowReadsBack(vendor, w, d);
    }
    SumRenamed(own, r, key);
  }

  /** Whatever the tables hold, nothing is loaded as negative. */
  lemma LoadedNeverNegative(db: Db)
    ensures NonNegativeMirrors(Loaded(db))
  {
    hide Sum, WKey, ParseWKey;
  }
}
