/** Reconciling local counters with what vendors report, and the window states shown on the dashboard. */
module Quota {
  import opened Budgets
  import opened Counters
  import opened MapSums
  import opened Persistence
  import opened Runtime
  import opened Windows
  import opened Wrappers

  datatype Unit = Requests | Credits

  datatype WindowKind = PerSecond | PerMinute | PerDay | PerMonth

  /** One window as the vendor's usage endpoint reports it. */
  datatype UsageWindow = UsageWindow(kind: WindowKind, unit: Unit, used: U64)

  const RECONCILE := Dims("vendor_reconcile", None, None, None)

  /** The counter window a kind is kept in; only days and months are counted. */
  function CalendarKey(kind: WindowKind, now: int): Option<WindowKey> {
    match kind
    case PerDay => Some(DayKey(now))
    case PerMonth => Some(MonthKey(now))
    case _ => None
  }

  function ReconcilingOne(s: State, vendor: string, w: UsageWindow, unit: Unit, now: int): State {
    var key := CalendarKey(w.kind, now);
    if key.None? || w.unit != unit || w.used <= At(s.totals, (vendor, key.value)) then s
    else SubmitAll(MirrorAdd(s, vendor, key.value, w.used - At(s.totals, (vendor, key.value)), RECONCILE))
  }

  function Reconciling(s: State, vendor: string, usage: seq<UsageWindow>, unit: Unit, now: int): State
    decreases |usage|
  {
    if usage == [] then s
    else ReconcilingOne(Reconciling(s, vendor, usage[..|usage| - 1], unit, now), vendor, usage[|usage| - 1], unit, now)
  }

  /** Counts upwards to what the vendor reports. */
  method Reconcile(store: Store, vendor: string, usage: seq<UsageWindow>, unit: Unit, now: int)
    modifies store
    ensures store.Value() == Reconciling(old(store.Value()), vendor, usage, unit, now)
  {
    hide DayKey, MonthKey, MirrorAdd;
    for i := 0 to |usage|
      invariant store.Value() == Reconciling(old(store.Value()), vendor, usage[..i], unit, now)
    {
      assert usage[..i + 1][..i] == usage[..i];
      var w := usage[i];
      var key: WindowKey;
      match w.kind {
        case PerDay => key := DayKey(now);
        case PerMonth => key := MonthKey(now);
        case PerSecond => continue;
        case PerMinute => continue;
      }
      if w.unit != unit {
        continue;
      }
      var local := store.Total(vendor, key);
      if w.used > local {
        store.AddUsage(vendor, key, w.used - local, RECONCILE);
      }
    }
    assert usage[..|usage|] == usage;
  }

  // ----- what reconciling amounts to

  /** A report that counts for the kind. */
  predicate Counts(w: UsageWindow, kind: WindowKind, unit: Unit) {
    w.kind == kind && w.unit == unit
  }

  /** `n` is the local total or a comparable report, and no other of them is higher. */
  ghost predicate IsHighest(n: int, local: int, usage: seq<UsageWindow>, kind: WindowKind, unit: Unit) {
    && (n == local || exists i :: 0 <= i < |usage| && Counts(usage[i], kind, unit) && usage[i].used == n)
    && n >= local
    && forall i :: 0 <= i < |usage| && Counts(usage[i], kind, unit) ==> usage[i].used <= n
  }

  lemma HighestUnique(n: int, m: int, local: int, usage: seq<UsageWindow>, kind: WindowKind, unit: Unit)
    requires IsHighest(n, local, usage, kind, unit) && IsHighest(m, local, usage, kind, unit)
    ensures n == m
  {
  }

  lemma HighestExtended(n: int, local: int, front: seq<UsageWindow>, w: UsageWindow, kind: WindowKind, unit: Unit)
    requires IsHighest(n, local, front, kind, unit)
    ensures IsHighest(if Counts(w, kind, unit) && w.used > n then w.used else n, local, front + [w], kind, unit)
  {
    var usage := front + [w];
    assert usage[|front|] == w;
    if n != local {
      var i :| 0 <= i < |front| && Counts(front[i], kind, unit) && front[i].used == n;
      assert usage[i] == front[i];
    }
  }

  lemma OneReconciled(s: State, vendor: string, w: UsageWindow, unit: Unit, now: int, kind: WindowKind)
    requires kind.PerDay? || kind.PerMonth?
    ensures var k := (vendor, CalendarKey(kind, now).value);
            At(ReconcilingOne(s, vendor, w, unit, now).totals, k) ==
            if Counts(w, kind, unit) && w.used > At(s.totals, k) then w.used else At(s.totals, k)
  {
    hide DayText, MonthText, Today, WKey, RowOf, AsI64;
  }

  /** After reconciling, a day or month total is the highest of the local count and every comparable report. */
  lemma {:induction false} ReconciledToHighest(s: State, vendor: string, usage: seq<UsageWindow>, unit: Unit, now: int, kind: WindowKind)
    requires kind.PerDay? || kind.PerMonth?
    ensures var k := (vendor, CalendarKey(kind, now).value);
            IsHighest(At(Reconciling(s, vendor, usage, unit, now).totals, k), At(s.totals, k), usage, kind, unit)
    decreases |usage|
  {
    hide DayKey, MonthKey, ReconcilingOne;
    if usage != [] {
      var front, w := usage[..|usage| - 1], usage[|usage| - 1];
      var s' := Reconciling(s, vendor, front, unit, now);
      ReconciledToHighest(s, vendor, front, unit, now, kind);
      OneReconciled(s', vendor, w, unit, now, kind);
      HighestExtended(At(s'.totals, (vendor, CalendarKey(kind, now).value)), At(s.totals, (vendor, CalendarKey(kind, now).value)),
                      front, w, kind, unit);
      assert front + [w] == usage;
    }
  }

  /** Nothing else moves: other vendors, other windows and the per-client counters stay as they were. */
  lemma {:induction false} ReconcileTouchesOnly(s: State, vendor: string, usage: seq<UsageWindow>, unit: Unit, now: int, k: TotalKey)
    requires k != (vendor, DayKey(now)) && k != (vendor, MonthKey(now))
    ensures var s' := Reconciling(s, vendor, usage, unit, now);
            At(s'.totals, k) == At(s.totals, k) && s'.clientUsage == s.clientUsage
    decreases |usage|
  {
    hide DayKey, MonthKey, RowOf, AsI64;
    if usage != [] {
      ReconcileTouchesOnly(s, vendor, usage[..|usage| - 1], unit, now, k);
    }
  }

  lemma {:induction false} ReconciledAlready(s: State, vendor: string, usage: seq<UsageWindow>, unit: Unit, now: int)
    requires forall i :: 0 <= i < |usage| && CalendarKey(usage[i].kind, now).Some? && usage[i].unit == unit ==>
               usage[i].used <= At(s.totals, (vendor, CalendarKey(usage[i].kind, now).value))
    ensures Reconciling(s, vendor, usage, unit, now) == s
    decreases |usage|
  {
    hide CalendarKey, MirrorAdd;
    if usage != [] {
      ReconciledAlready(s, vendor, usage[..|usage| - 1], unit, now);
    }
  }

  /** Reconciling the same report again changes nothing and queues nothing. */
  lemma ReconcileTwice(s: State, vendor: string, usage: seq<UsageWindow>, unit: Unit, now: int)
    ensures var once := Reconciling(s, vendor, usage, unit, now);
            Reconciling(once, vendor, usage, unit, now) == once
  {
    hide Reconciling, DayKey, MonthKey;
    var once := Reconciling(s, vendor, usage, unit, now);
    ReconciledToHighest(s, vendor, usage, unit, now, PerDay);
    ReconciledToHighest(s, vendor, usage, unit, now, PerMonth);
    forall i | 0 <= i < |usage| && CalendarKey(usage[i].kind, now).Some? && usage[i].unit == unit
      ensures usage[i].used <= At(once.totals, (vendor, CalendarKey(usage[i].kind, now).value))
    {
      assert Counts(usage[i], usage[i].kind, unit);
    }
    ReconciledAlready(once, vendor, usage, unit, now);
  }

  // ----- the dashboard's window rows

  datatype Source = Estimated | VendorApi

  datatype Reading = Reading(source: Source, used: int, comparable: bool)

  datatype QuotaState = Fine | Warning | Reserved | UsedUp
  {
    function Severity(): nat {
      match this
      case Fine => 0
      case Warning => 1
      case Reserved => 2
      case UsedUp => 3
    }
  }

  datatype WindowRow = WindowRow(
    kind: WindowKind, limit: Option<U64>, cap: Option<U64>, effective: Option<U64>, used: Option<int>,
    usedPct: Option<int>, sources: seq<Reading>, state: QuotaState)

  function Pick(b: WindowBudget, kind: WindowKind): Option<U64> {
    match kind
    case PerSecond => b.rps
    case PerMinute => b.perMinute
    case PerDay => b.daily
    case PerMonth => b.monthly
  }

  function Reported(usage: seq<UsageWindow>, kind: WindowKind, unit: Unit): seq<Reading>
    decreases |usage|
  {
    if usage == [] then []
    else
      var w := usage[|usage| - 1];
      Reported(usage[..|usage| - 1], kind, unit) + if w.kind == kind then [Reading(VendorApi, w.used, w.unit == unit)] else []
  }

  function Sources(totals: map<TotalKey, int>, vendor: string, usage: seq<UsageWindow>, kind: WindowKind, unit: Unit, now: int)
    : seq<Reading>
  {
    var key := CalendarKey(kind, now);
    (if key.Some? then [Reading(Estimated, At(totals, (vendor, key.value)), true)] else []) + Reported(usage, kind, unit)
  }

  /** Highest comparable reading; on a tie the vendor's own figure. */
  function Best(sources: seq<Reading>): Option<Reading>
    decreases |sources|
  {
    if sources == [] then None
    else
      var best, last := Best(sources[..|sources| - 1]), sources[|sources| - 1];
      if !last.comparable then best
      else if best.None? || !Above(best.value, last) then Some(last)
      else best
  }

  predicate Above(a: Reading, b: Reading) {
    a.used > b.used || (a.used == b.used && a.source == VendorApi && b.source == Estimated)
  }

  function UsedPct(used: Option<int>, eff: Option<U64>): Option<int> {
    if used.None? || eff.None? then None
    else if eff.value > 0 then
      Some((if used.value * 100 <= U64_MAX then used.value * 100 else U64_MAX) / eff.value)
    else if used.value > 0 then Some(100)
    else None
  }

  function StateFor(limit: Option<U64>, eff: Option<U64>, used: Option<int>, usedPct: Option<int>, minAlert: Option<nat>): QuotaState {
    if used.Some? && Reached(limit, used.value) then UsedUp
    else if used.Some? && Reached(eff, used.value) then Reserved
    else if usedPct.Some? && minAlert.Some? && usedPct.value >= minAlert.value then Warning
    else Fine
  }

  predicate Idle(b: EffectiveBudget, kind: WindowKind, sources: seq<Reading>) {
    && Pick(b.limit, kind).None? && Pick(b.cap, kind).None? && Pick(b.effective, kind).None?
    && forall i :: 0 <= i < |sources| ==> sources[i].used == 0
  }

  function RowFor(b: EffectiveBudget, minAlert: Option<nat>, kind: WindowKind, sources: seq<Reading>): WindowRow {
    var best := Best(sources);
    var used := if best.Some? then Some(best.value.used) else None;
    var pct := UsedPct(used, Pick(b.effective, kind));
    WindowRow(kind, Pick(b.limit, kind), Pick(b.cap, kind), Pick(b.effective, kind), used, pct, sources,
              StateFor(Pick(b.limit, kind), Pick(b.effective, kind), used, pct, minAlert))
  }

  function RowsFor(totals: map<TotalKey, int>, vendor: string, b: EffectiveBudget, unit: Unit, minAlert: Option<nat>,
                   usage: seq<UsageWindow>, now: int, kinds: seq<WindowKind>): seq<WindowRow>
    decreases |kinds|
  {
    if kinds == [] then []
    else
      var kind := kinds[|kinds| - 1];
      var sources := Sources(totals, vendor, usage, kind, unit, now);
      RowsFor(totals, vendor, b, unit, minAlert, usage, now, kinds[..|kinds| - 1]) +
      if Idle(b, kind, sources) then [] else [RowFor(b, minAlert, kind, sources)]
  }

  const KINDS := [PerSecond, PerMinute, PerDay, PerMonth]

  method ReadSources(store: Store, vendor: string, usage: seq<UsageWindow>, kind: WindowKind, unit: Unit, now: int)
    returns (sources: seq<Reading>)
    ensures sources == Sources(store.totals, vendor, usage, kind, unit, now)
  {
    hide DayKey, MonthKey;
    sources := [];
    var calendar := CalendarKey(kind, now);
    if calendar.Some? {
      var local := store.Total(vendor, calendar.value);
      sources := [Reading(Estimated, local, true)];
    }
    ghost var head := sources;
    for i := 0 to |usage|
      invariant sources == head + Reported(usage[..i], kind, unit)
    {
      assert usage[..i + 1][..i] == usage[..i];
      if usage[i].kind == kind {
        sources := sources + [Reading(VendorApi, usage[i].used, usage[i].unit == unit)];
      }
    }
    assert usage[..|usage|] == usage;
  }

  method ReadWindows(store: Store, vendor: string, b: EffectiveBudget, unit: Unit, minAlert: Option<nat>,
                     usage: seq<UsageWindow>, now: int) returns (rows: seq<WindowRow>)
    ensures rows == RowsFor(store.totals, vendor, b, unit, minAlert, usage, now, KINDS)
  {
    hide Sources, Idle, RowFor;
    rows := [];
    for k := 0 to |KINDS|
      invariant rows == RowsFor(store.totals, vendor, b, unit, minAlert, usage, now, KINDS[..k])
    {
      assert KINDS[..k + 1][..k] == KINDS[..k];
      var sources := ReadSources(store, vendor, usage, KINDS[k], unit, now);
      if Idle(b, KINDS[k], sources) {
        continue;
      }
      rows := rows + [RowFor(b, minAlert, KINDS[k], sources)];
    }
    assert KINDS[..|KINDS|] == KINDS;
  }

  // ----- dashboard and guard agree

  /** The dashboard shows the kind as closed to routing. */
  ghost predicate Shown(rows: seq<WindowRow>, kind: WindowKind) {
    exists i :: 0 <= i < |rows| && rows[i].kind == kind && rows[i].state.Severity() >= Reserved.Severity()
  }

  lemma LocalAlone(local: int, kind: WindowKind, unit: Unit)
    ensures IsHighest(local, local, [], kind, unit)
  {
  }

  lemma {:induction false} BestIsHighest(local: int, usage: seq<UsageWindow>, kind: WindowKind, unit: Unit)
    ensures var best := Best([Reading(Estimated, local, true)] + Reported(usage, kind, unit));
            best.Some? && IsHighest(best.value.used, local, usage, kind, unit)
    decreases |usage|
  {
    hide IsHighest;
    var own := [Reading(Estimated, local, true)];
    var sources := own + Reported(usage, kind, unit);
    if usage == [] {
      assert sources == own && own[..0] == [];
      LocalAlone(local, kind, unit);
    } else {
      var front, w := usage[..|usage| - 1], usage[|usage| - 1];
      BestIsHighest(local, front, kind, unit);
      var before := own + Reported(front, kind, unit);
      HighestExtended(Best(before).value.used, local, front, w, kind, unit);
      assert front + [w] == usage;
      if w.kind == kind {
        assert sources[..|sources| - 1] == before;
      } else {
        assert sources == before;
      }
    }
  }

  lemma {:induction false} RowsShown(totals: map<TotalKey, int>, vendor: string, b: EffectiveBudget, unit: Unit,
                                     minAlert: Option<nat>, usage: seq<UsageWindow>, now: int, kinds: seq<WindowKind>, kind: WindowKind)
    ensures var sources := Sources(totals, vendor, usage, kind, unit, now);
            Shown(RowsFor(totals, vendor, b, unit, minAlert, usage, now, kinds), kind) <==>
            kind in kinds && !Idle(b, kind, sources) && RowFor(b, minAlert, kind, sources).state.Severity() >= Reserved.Severity()
    decreases |kinds|
  {
    hide Sources, Idle, StateFor, Best, UsedPct;
    if kinds != [] {
      var front, last := kinds[..|kinds| - 1], kinds[|kinds| - 1];
      RowsShown(totals, vendor, b, unit, minAlert, usage, now, front, kind);
      var before := RowsFor(totals, vendor, b, unit, minAlert, usage, now, front);
      var sources := Sources(totals, vendor, usage, last, unit, now);
      assert forall k :: k in kinds <==> k in front || k == last;
      if !Idle(b, last, sources) {
        AppendShown(before, RowFor(b, minAlert, last, sources), kind);
      } else {
        assert before + [] == before;
      }
    }
  }

  lemma AppendShown(rows: seq<WindowRow>, row: WindowRow, kind: WindowKind)
    ensures Shown(rows + [row], kind) <==> Shown(rows, kind) || (row.kind == kind && row.state.Severity() >= Reserved.Severity())
  {
    var all := rows + [row];
    assert all[|rows|] == row;
    assert forall i :: 0 <= i < |rows| ==> all[i] == rows[i];
  }

  /** A day or month is shown as closed exactly if the highest reading reaches what routing enforces. */
  lemma ShownIffReached(totals: map<TotalKey, int>, vendor: string, b: EffectiveBudget, unit: Unit, minAlert: Option<nat>,
                        usage: seq<UsageWindow>, now: int, kind: WindowKind, n: int)
    requires kind.PerDay? || kind.PerMonth?
    requires Sound(Pick(b.limit, kind), Pick(b.cap, kind), Pick(b.effective, kind))
    requires IsHighest(n, At(totals, (vendor, CalendarKey(kind, now).value)), usage, kind, unit)
    ensures Shown(RowsFor(totals, vendor, b, unit, minAlert, usage, now, KINDS), kind) <==> Reached(Pick(b.effective, kind), n)
  {
    hide IsHighest, DayKey, MonthKey, RowsFor, Best, UsedPct;
    var local := At(totals, (vendor, CalendarKey(kind, now).value));
    RowsShown(totals, vendor, b, unit, minAlert, usage, now, KINDS, kind);
    BestIsHighest(local, usage, kind, unit);
    HighestUnique(n, Best(Sources(totals, vendor, usage, kind, unit, now)).value.used, local, usage, kind, unit);
    assert KINDS[2] == PerDay && KINDS[3] == PerMonth;
  }

  lemma SoundKinds(entry: VendorEntry, vs: VendorSettings, kind: WindowKind)
    requires ValidSettings(vs)
    ensures var b := Effective(entry, vs); Sound(Pick(b.limit, kind), Pick(b.cap, kind), Pick(b.effective, kind))
  {
    hide Effective, Sound;
    EffectiveIsSound(entry, vs);
  }

  /**
   * Dashboard and guard agree. Right after reconciling a vendor's report, for every configuration that loads, the budget
   * check of the router finds the budget used up exactly if the dashboard shows the day or the month as closed.
   */
  lemma DashboardAgreesWithGuard(s: State, vendor: string, entry: VendorEntry, vs: VendorSettings, unit: Unit,
                                 minAlert: Option<nat>, usage: seq<UsageWindow>, now: int)
    requires ValidSettings(vs)
    ensures var b := Effective(entry, vs);
            var totals := Reconciling(s, vendor, usage, unit, now).totals;
            var rows := RowsFor(totals, vendor, b, unit, minAlert, usage, now, KINDS);
            OverBudget(totals, vendor, b, now) <==> Shown(rows, PerDay) || Shown(rows, PerMonth)
  {
    hide Effective, Sound, IsHighest, DayKey, MonthKey, RowsFor, Reconciling, Shown;
    var b := Effective(entry, vs);
    var totals := Reconciling(s, vendor, usage, unit, now).totals;
    var again := Reconciling(Reconciling(s, vendor, usage, unit, now), vendor, usage, unit, now);
    ReconcileTwice(s, vendor, usage, unit, now);
    SoundKinds(entry, vs, PerDay);
    SoundKinds(entry, vs, PerMonth);
    ReconciledToHighest(Reconciling(s, vendor, usage, unit, now), vendor, usage, unit, now, PerDay);
    ReconciledToHighest(Reconciling(s, vendor, usage, unit, now), vendor, usage, unit, now, PerMonth);
    ShownIffReached(totals, vendor, b, unit, minAlert, usage, now, PerDay, At(totals, (vendor, DayKey(now))));
    ShownIffReached(totals, vendor, b, unit, minAlert, usage, now, PerMonth, At(totals, (vendor, MonthKey(now))));
  }

  /** Even without reconciling, a vendor the guard blocks for its budget is shown as closed. */
  lemma BlockedIsShown(totals: map<TotalKey, int>, vendor: string, entry: VendorEntry, vs: VendorSettings, unit: Unit,
                       minAlert: Option<nat>, usage: seq<UsageWindow>, now: int)
    requires ValidSettings(vs)
    requires OverBudget(totals, vendor, Effective(entry, vs), now)
    ensures var rows := RowsFor(totals, vendor, Effective(entry, vs), unit, minAlert, usage, now, KINDS);
            Shown(rows, PerDay) || Shown(rows, PerMonth)
  {
    hide Effective, Sound, DayKey, MonthKey, RowsFor, Shown;
    var b := Effective(entry, vs);
    SoundKinds(entry, vs, PerDay);
    SoundKinds(entry, vs, PerMonth);
    var day, month := At(totals, (vendor, DayKey(now))), At(totals, (vendor, MonthKey(now)));
    BestIsHighest(day, usage, PerDay, unit);
    BestIsHighest(month, usage, PerMonth, unit);
    ShownIffReached(totals, vendor, b, unit, minAlert, usage, now, PerDay,
                    Best([Reading(Estimated, day, true)] + Reported(usage, PerDay, unit)).value.used);
    ShownIffReached(totals, vendor, b, unit, minAlert, usage, now, PerMonth,
                    Best([Reading(Estimated, month, true)] + Reported(usage, PerMonth, unit)).value.used);
  }

  // ----- what a row says

  predicate AnyComparable(sources: seq<Reading>) {
    exists i :: 0 <= i < |sources| && sources[i].comparable
  }

  /** The reading shown is the highest comparable one, and the vendor's own where that is as high as ours. */
  ghost predicate IsBest(best: Reading, sources: seq<Reading>) {
    && best in sources && best.comparable
    && forall i :: 0 <= i < |sources| && sources[i].comparable ==>
         && sources[i].used <= best.used
         && (sources[i].used == best.used && sources[i].source == VendorApi ==> best.source == VendorApi)
  }

  lemma {:induction false} BestMeans(sources: seq<Reading>)
    ensures Best(sources).Some? <==> AnyComparable(sources)
    ensures Best(sources).Some? ==> IsBest(Best(sources).value, sources)
    decreases |sources|
  {
    if sources != [] {
      var front, last := sources[..|sources| - 1], sources[|sources| - 1];
      BestMeans(front);
      assert sources == front + [last];
      if last.comparable {
        assert sources[|sources| - 1].comparable;
      } else if AnyComparable(front) {
        var i :| 0 <= i < |front| && front[i].comparable;
        assert sources[i].comparable;
      }
      if AnyComparable(sources) && !last.comparable {
        var i :| 0 <= i < |sources| && sources[i].comparable;
        assert i < |front| && front[i].comparable;
      }
      if Best(front).Some? {
        assert Best(front).value in sources;
      }
    }
  }

  /** The limit is set and reached. */
  predicate Hit(limit: Option<U64>, used: Option<int>) {
    limit.Some? && used.Some? && limit.value <= used.value
  }

  /** The least alert percentage of what is enforced is reached, as far as the product can be held in 64 bits. */
  predicate Alerted(eff: Option<U64>, used: Option<int>, minAlert: Option<nat>) {
    && eff.Some? && used.Some? && minAlert.Some? && eff.value > 0
    && minAlert.value * eff.value <= 100 * used.value && minAlert.value * eff.value <= U64_MAX
  }

  lemma PercentMeans(used: int, eff: U64, alert: nat)
    requires eff > 0
    ensures UsedPct(Some(used), Some(eff)).Some?
    ensures UsedPct(Some(used), Some(eff)).value >= alert <==> alert * eff <= 100 * used && alert * eff <= U64_MAX
  {
    var m := if used * 100 <= U64_MAX then used * 100 else U64_MAX;
    QuotientMeans(m, eff, alert);
  }

  lemma QuotientMeans(m: int, d: nat, n: nat)
    requires d > 0
    ensures m / d >= n <==> n * d <= m
  {
    var q := m / d;
    assert q * d <= m < q * d + d;
    if q >= n {
      assert (q - n) * d >= 0;
    } else {
      assert (n - 1 - q) * d >= 0;
    }
  }

  /**
   * The state of a row: used up exactly if the vendor's own limit is reached; reserved exactly if only what routing enforces
   * is; a warning exactly if neither is and the least alert percentage is; and fine otherwise. The figure used is the best
   * comparable reading, and there is none if nothing is comparable.
   */
  lemma RowMeans(b: EffectiveBudget, minAlert: Option<nat>, kind: WindowKind, sources: seq<Reading>)
    ensures var row := RowFor(b, minAlert, kind, sources);
            var limit, eff := Pick(b.limit, kind), Pick(b.effective, kind);
            && row.kind == kind && row.limit == limit && row.cap == Pick(b.cap, kind) && row.effective == eff && row.sources == sources
            && (row.used.Some? <==> AnyComparable(sources))
            && (row.used.Some? ==> exists best :: IsBest(best, sources) && row.used.value == best.used)
            && (row.state == UsedUp <==> Hit(limit, row.used))
            && (row.state == Reserved <==> !Hit(limit, row.used) && Hit(eff, row.used))
            && (row.state == Warning <==> !Hit(limit, row.used) && !Hit(eff, row.used) && Alerted(eff, row.used, minAlert))
  {
    hide Best, UsedPct, AnyComparable, IsBest;
    BestMeans(sources);
    var row := RowFor(b, minAlert, kind, sources);
    var eff := Pick(b.effective, kind);
    if row.used.Some? && eff.Some? && eff.value > 0 && minAlert.Some? {
      PercentMeans(row.used.value, eff.value, minAlert.value);
    }
    NoPercent(row.used, eff);
  }

  lemma NoPercent(used: Option<int>, eff: Option<U64>)
    ensures used.None? || eff.None? ==> UsedPct(used, eff).None?
    ensures used.Some? && eff == Some(0) ==> (UsedPct(used, eff).Some? <==> used.value > 0)
  {
  }

  /** A window of the list has a row, its own, exactly if something is configured for it or some reading is not zero. */
  lemma {:induction false} RowsMean(totals: map<TotalKey, int>, vendor: string, b: EffectiveBudget, unit: Unit, minAlert: Option<nat>,
                                    usage: seq<UsageWindow>, now: int, kinds: seq<WindowKind>, row: WindowRow)
    ensures row in RowsFor(totals, vendor, b, unit, minAlert, usage, now, kinds) <==>
            var sources := Sources(totals, vendor, usage, row.kind, unit, now);
            && row.kind in kinds && row == RowFor(b, minAlert, row.kind, sources)
            && (Pick(b.limit, row.kind).Some? || Pick(b.cap, row.kind).Some? || Pick(b.effective, row.kind).Some?
                || exists i :: 0 <= i < |sources| && sources[i].used != 0)
    decreases |kinds|
  {
    hide Sources, StateFor, Best, UsedPct;
    if kinds != [] {
      var front, last := kinds[..|kinds| - 1], kinds[|kinds| - 1];
      RowsMean(totals, vendor, b, unit, minAlert, usage, now, front, row);
      assert kinds == front + [last];
    }
  }

  /** The readings of a window: our own count for a day or a month, and each report of its kind, comparable in our unit. */
  lemma SourcesMean(totals: map<TotalKey, int>, vendor: string, usage: seq<UsageWindow>, kind: WindowKind, unit: Unit, now: int,
                    reading: Reading)
    ensures reading in Sources(totals, vendor, usage, kind, unit, now) <==>
            || (kind == PerDay && reading == Reading(Estimated, At(totals, (vendor, DayKey(now))), true))
            || (kind == PerMonth && reading == Reading(Estimated, At(totals, (vendor, MonthKey(now))), true))
            || exists w :: w in usage && w.kind == kind && reading == Reading(VendorApi, w.used, w.unit == unit)
  {
    hide DayKey, MonthKey, At;
    ReportedMean(usage, kind, unit, reading);
  }

  lemma {:induction false} ReportedMean(usage: seq<UsageWindow>, kind: WindowKind, unit: Unit, reading: Reading)
    ensures reading in Reported(usage, kind, unit) <==>
            exists w :: w in usage && w.kind == kind && reading == Reading(VendorApi, w.used, w.unit == unit)
    decreases |usage|
  {
    if usage != [] {
      var front, last := usage[..|usage| - 1], usage[|usage| - 1];
      ReportedMean(front, kind, unit, reading);
      assert usage == front + [last];
      assert forall w :: w in usage <==> w in front || w == last;
    }
  }
}
