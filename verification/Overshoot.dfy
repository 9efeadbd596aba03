/**
 * Requests of many callers between the quota guard and the meter. The guard reads a total before the request is charged,
 * so totals can pass the budget; this bounds by how much, in every interleaving of reads, charges and the clock.
 */
module Overshoot {
  import opened Budgets
  import opened Counters
  import opened MapSums
  import opened Runtime
  import opened Windows
  import opened Wrappers

  datatype Kind = Daily | Monthly

  function Key(kind: Kind, t: int): WindowKey {
    match kind
    case Daily => DayKey(t)
    case Monthly => MonthKey(t)
  }

  function LimitOf(b: WindowBudget, kind: Kind): Option<U64> {
    match kind
    case Daily => b.daily
    case Monthly => b.monthly
  }

  /** A charge taken at some instant and not yet added to the total of its window. */
  datatype Charge = Nothing | Due(window: WindowKey, amount: nat)

  /**
   * One request. `today` and `thisMonth` are the windows of the instant at which the guard read the clock; `dayRead` and `monthRead` say which totals it has found below
   * the budget; `left` is what the request may still meter; `day` and `month` are the two halves of a charge under way.
   */
  datatype Flight = Flight(
    today: WindowKey, thisMonth: WindowKey, dayRead: bool, monthRead: bool, left: nat, day: Charge, month: Charge)

  datatype System = System(totals: map<TotalKey, int>, flights: seq<Flight>, clock: int)

  /** What the statement is about: one vendor, its fixed enforced budget, at most `flights` requests of `units` each. */
  datatype Setting = Setting(vendor: string, budget: WindowBudget, flights: nat, units: nat)

  datatype Step =
    | Start
    | ReadDay(i: nat)
    | ReadMonth(i: nat)
    | Meter(i: nat, amount: nat)
    | AddDay(i: nat)
    | AddMonth(i: nat)
    | Finish(i: nat)
    | Tick(now: int)

  function Without(flights: seq<Flight>, i: nat): seq<Flight>
    requires i < |flights|
  {
    flights[..i] + flights[i + 1..]
  }

  function Charging(totals: map<TotalKey, int>, vendor: string, c: Charge): map<TotalKey, int> {
    match c
    case Nothing => totals
    case Due(w, amount) => Add(totals, (vendor, w), amount)
  }

  function StartKey(f: Flight, kind: Kind): WindowKey {
    match kind
    case Daily => f.today
    case Monthly => f.thisMonth
  }

  /** Whether the guard lets the request pass the window it reads now. */
  predicate Passes(c: Setting, s: System, kind: Kind, f: Flight) {
    !Reached(LimitOf(c.budget, kind), At(s.totals, (c.vendor, StartKey(f, kind))))
  }

  /** The step can be taken: the program order of one request, its allowance, and a clock that does not run backwards. */
  predicate Enabled(c: Setting, s: System, step: Step) {
    match step
    case Start => |s.flights| < c.flights
    case ReadDay(i) => i < |s.flights| && !s.flights[i].dayRead
    case ReadMonth(i) => i < |s.flights| && s.flights[i].dayRead && !s.flights[i].monthRead
    case Meter(i, amount) =>
      i < |s.flights| && var f := s.flights[i]; f.monthRead && f.day.Nothing? && f.month.Nothing? && amount <= f.left
    case AddDay(i) => i < |s.flights| && s.flights[i].day.Due?
    case AddMonth(i) => i < |s.flights| && s.flights[i].day.Nothing? && s.flights[i].month.Due?
    case Finish(i) => i < |s.flights| && s.flights[i].day.Nothing? && s.flights[i].month.Nothing?
    case Tick(now) => now >= s.clock && FourDigitYear(now)
  }

  function Stepping(c: Setting, s: System, step: Step): System
    requires Enabled(c, s, step)
  {
    match step
    case Start => s.(flights := s.flights + [Flight.Flight(DayKey(s.clock), MonthKey(s.clock), false, false, c.units, Nothing, Nothing)])
    case ReadDay(i) =>
      var f := s.flights[i];
      s.(flights := if Passes(c, s, Daily, f) then s.flights[i := f.(dayRead := true)] else Without(s.flights, i))
    case ReadMonth(i) =>
      var f := s.flights[i];
      s.(flights := if Passes(c, s, Monthly, f) then s.flights[i := f.(monthRead := true)] else Without(s.flights, i))
    case Meter(i, amount) =>
      var f := s.flights[i];
      s.(flights := s.flights[i := f.(left := f.left - amount, day := Due(DayKey(s.clock), amount),
                                      month := Due(MonthKey(s.clock), amount))])
    case AddDay(i) =>
      var f := s.flights[i];
      s.(totals := Charging(s.totals, c.vendor, f.day), flights := s.flights[i := f.(day := Nothing)])
    case AddMonth(i) =>
      var f := s.flights[i];
      s.(totals := Charging(s.totals, c.vendor, f.month), flights := s.flights[i := f.(month := Nothing)])
    case Finish(i) => s.(flights := Without(s.flights, i))
    case Tick(now) => s.(clock := now)
  }

  /** Every step of the run could be taken; `end` is where it leads. */
  ghost predicate Reaches(c: Setting, s: System, steps: seq<Step>, end: System)
    decreases |steps|
  {
    if steps == [] then s == end
    else Enabled(c, s, steps[0]) && Reaches(c, Stepping(c, s, steps[0]), steps[1..], end)
  }

  // ----- what a window still has to bear

  predicate ReadFor(f: Flight, kind: Kind) {
    match kind
    case Daily => f.dayRead
    case Monthly => f.monthRead
  }

  function Owing(f: Flight, kind: Kind): Charge {
    match kind
    case Daily => f.day
    case Monthly => f.month
  }

  function Owed(f: Flight, kind: Kind, w: WindowKey): nat {
    match Owing(f, kind)
    case Nothing => 0
    case Due(x, amount) => if x == w then amount else 0
  }

  /** Whether the request may still be charged to `w` without reading its total again. */
  predicate Counts(f: Flight, kind: Kind, w: WindowKey) {
    ReadFor(f, kind) || w != StartKey(f, kind)
  }

  function Weight(f: Flight, kind: Kind, w: WindowKey, open: bool): nat {
    Owed(f, kind, w) + if open && Counts(f, kind, w) then f.left else 0
  }

  /** What the requests may still add to `w`; to a window that is not `open` only what is already due. */
  function Load(flights: seq<Flight>, kind: Kind, w: WindowKey, open: bool): nat
    decreases |flights|
  {
    if flights == [] then 0 else Weight(flights[0], kind, w, open) + Load(flights[1..], kind, w, open)
  }

  lemma {:induction false} LoadSplit(a: seq<Flight>, b: seq<Flight>, kind: Kind, w: WindowKey, open: bool)
    ensures Load(a + b, kind, w, open) == Load(a, kind, w, open) + Load(b, kind, w, open)
    decreases |a|
  {
    hide Weight;
    if a == [] {
      assert a + b == b;
    } else {
      LoadSplit(a[1..], b, kind, w, open);
      assert (a + b)[1..] == a[1..] + b;
    }
  }

  lemma LoadOne(f: Flight, kind: Kind, w: WindowKey, open: bool)
    ensures Load([f], kind, w, open) == Weight(f, kind, w, open)
  {
    hide Weight;
    assert Load([f][1..], kind, w, open) == 0;
  }

  /** Replacing one request changes the load by the difference of their weights; dropping it takes its weight away. */
  lemma LoadChanged(flights: seq<Flight>, i: nat, f: Flight, kind: Kind, w: WindowKey, open: bool)
    requires i < |flights|
    ensures Load(flights[i := f], kind, w, open)
            == Load(flights, kind, w, open) - Weight(flights[i], kind, w, open) + Weight(f, kind, w, open)
    ensures Load(Without(flights, i), kind, w, open) == Load(flights, kind, w, open) - Weight(flights[i], kind, w, open)
  {
    hide Weight, Load;
    assert flights == flights[..i] + ([flights[i]] + flights[i + 1..]);
    assert flights[i := f] == flights[..i] + ([f] + flights[i + 1..]);
    LoadSplit(flights[..i], [flights[i]] + flights[i + 1..], kind, w, open);
    LoadSplit([flights[i]], flights[i + 1..], kind, w, open);
    LoadSplit(flights[..i], [f] + flights[i + 1..], kind, w, open);
    LoadSplit([f], flights[i + 1..], kind, w, open);
    LoadSplit(flights[..i], flights[i + 1..], kind, w, open);
    LoadOne(flights[i], kind, w, open);
    LoadOne(f, kind, w, open);
  }

  predicate OfKind(kind: Kind, w: WindowKey) {
    match kind
    case Daily => w.Day?
    case Monthly => w.Month?
  }

  predicate ChargeFits(f: Flight, kind: Kind, units: nat) {
    Owing(f, kind).Due? ==> f.left + Owing(f, kind).amount <= units && OfKind(kind, Owing(f, kind).window)
  }

  /** No request owes more than its allowance, and it reads the day before the month. */
  predicate Fits(f: Flight, units: nat) {
    f.left <= units && ChargeFits(f, Daily, units) && ChargeFits(f, Monthly, units) && (f.monthRead ==> f.dayRead)
  }

  lemma {:induction false} LoadBounded(flights: seq<Flight>, units: nat, kind: Kind, w: WindowKey, open: bool)
    requires forall i :: 0 <= i < |flights| ==> Fits(flights[i], units)
    ensures Load(flights, kind, w, open) <= |flights| * units
    decreases |flights|
  {
    hide Counts;
    if flights != [] {
      LoadBounded(flights[1..], units, kind, w, open);
      assert Fits(flights[0], units);
      assert |flights| * units == units + (|flights| - 1) * units;
    }
  }

  // ----- the invariant

  /** The window has not begun. */
  ghost predicate Ahead(kind: Kind, w: WindowKey, clock: int) {
    w != Key(kind, clock) && exists t :: t > clock && FourDigitYear(t) && Key(kind, t) == w
  }

  function Bound(c: Setting, limit: U64): int {
    limit - 1 + c.flights * c.units
  }

  /** A window's total and what is still to come for it; `current` and `ahead` say where the clock stands. */
  predicate InWindow(c: Setting, total: int, flights: seq<Flight>, kind: Kind, limit: U64, w: WindowKey, current: bool, ahead: bool) {
    && total + Load(flights, kind, w, false) <= Bound(c, limit)
    && (current ==> total + Load(flights, kind, w, true) <= Bound(c, limit))
    && (ahead ==> total < limit && Load(flights, kind, w, false) == 0)
  }

  ghost predicate WindowBounded(c: Setting, s: System, kind: Kind, limit: U64, w: WindowKey) {
    InWindow(c, At(s.totals, (c.vendor, w)), s.flights, kind, limit, w, w == Key(kind, s.clock), Ahead(kind, w, s.clock))
  }

  /** No more requests than there may be, and none over its allowance. */
  predicate Fitting(c: Setting, flights: seq<Flight>) {
    |flights| <= c.flights && forall i :: 0 <= i < |flights| ==> Fits(flights[i], c.units)
  }

  predicate Orderly(c: Setting, s: System) {
    Fitting(c, s.flights) && FourDigitYear(s.clock)
  }

  ghost predicate Bounded(c: Setting, s: System) {
    && Orderly(c, s)
    && forall kind, w :: LimitOf(c.budget, kind).Some? && OfKind(kind, w) ==> WindowBounded(c, s, kind, LimitOf(c.budget, kind).value, w)
  }

  lemma TotalLoadBounded(c: Setting, flights: seq<Flight>, kind: Kind, w: WindowKey, open: bool)
    requires Fitting(c, flights)
    ensures Load(flights, kind, w, open) <= c.flights * c.units
  {
    hide Fits, Load;
    LoadBounded(flights, c.units, kind, w, open);
    Scaled(|flights|, c.flights, c.units);
  }

  lemma Scaled(a: nat, b: nat, n: nat)
    requires a <= b
    ensures a * n <= b * n
  {
  }

  lemma StepOrderly(c: Setting, s: System, step: Step)
    requires Orderly(c, s) && Enabled(c, s, step)
    ensures Orderly(c, Stepping(c, s, step))
  {
    hide FourDigitYear, DayKey, MonthKey, Passes, Charging;
    KeyKinds(s.clock);
    match step
    case Start =>
    case ReadDay(i) => assert Fits(s.flights[i], c.units);
    case ReadMonth(i) => assert Fits(s.flights[i], c.units);
    case Meter(i, _) => assert Fits(s.flights[i], c.units);
    case AddDay(i) => assert Fits(s.flights[i], c.units);
    case AddMonth(i) => assert Fits(s.flights[i], c.units);
    case Finish(_) =>
    case Tick(_) =>
  }

  /** A request that has read nothing yet cannot be charged to the windows it starts in. */
  lemma StartBounded(c: Setting, total: int, flights: seq<Flight>, f: Flight, kind: Kind, limit: U64, w: WindowKey, current: bool, ahead: bool)
    requires InWindow(c, total, flights, kind, limit, w, current, ahead)
    requires !f.dayRead && !f.monthRead && f.day.Nothing? && f.month.Nothing? && (current ==> StartKey(f, kind) == w)
    ensures InWindow(c, total, flights + [f], kind, limit, w, current, ahead)
  {
    hide Load, Bound;
    LoadSplit(flights, [f], kind, w, false);
    LoadSplit(flights, [f], kind, w, true);
    LoadOne(f, kind, w, false);
    LoadOne(f, kind, w, true);
  }

  /** A read that passes makes the request count; the total it has just seen leaves room for everyone. */
  lemma ReadBounded(c: Setting, total: int, flights: seq<Flight>, i: nat, read: Kind, kind: Kind, limit: U64, w: WindowKey,
                    current: bool, ahead: bool)
    requires Fitting(c, flights) && i < |flights| && InWindow(c, total, flights, kind, limit, w, current, ahead)
    requires read == kind && StartKey(flights[i], kind) == w ==> total < limit
    requires read.Monthly? ==> flights[i].dayRead
    ensures InWindow(c, total, flights[i := HavingRead(flights[i], read)], kind, limit, w, current, ahead)
  {
    hide Load, Fits;
    var f := HavingRead(flights[i], read);
    assert Fitting(c, flights[i := f]) by { SameFits(flights[i], f, c.units); }
    TotalLoadBounded(c, flights[i := f], kind, w, true);
    LoadChanged(flights, i, f, kind, w, false);
    LoadChanged(flights, i, f, kind, w, true);
  }

  function HavingRead(f: Flight, read: Kind): Flight {
    match read
    case Daily => f.(dayRead := true)
    case Monthly => f.(monthRead := true)
  }

  lemma SameFits(f: Flight, g: Flight, units: nat)
    requires Fits(f, units) && g.left == f.left && g.day == f.day && g.month == f.month
    requires g.monthRead ==> g.dayRead
    ensures Fits(g, units)
  {
  }

  /** Leaving never adds load. */
  lemma LeaveBounded(c: Setting, total: int, flights: seq<Flight>, i: nat, kind: Kind, limit: U64, w: WindowKey, current: bool, ahead: bool)
    requires i < |flights| && InWindow(c, total, flights, kind, limit, w, current, ahead)
    ensures InWindow(c, total, Without(flights, i), kind, limit, w, current, ahead)
  {
    hide Load, Bound, Weight;
    LoadChanged(flights, i, flights[i], kind, w, false);
    LoadChanged(flights, i, flights[i], kind, w, true);
  }

  /** Metering turns allowance into a charge that is due in the current window, which a request that has read counts against. */
  lemma MeterBounded(c: Setting, total: int, flights: seq<Flight>, i: nat, g: Flight, amount: nat, kind: Kind, limit: U64, w: WindowKey,
                     current: bool, ahead: bool)
    requires i < |flights| && InWindow(c, total, flights, kind, limit, w, current, ahead) && !(current && ahead)
    requires flights[i].dayRead && flights[i].monthRead && Owing(flights[i], kind).Nothing? && amount <= flights[i].left
    requires g.dayRead && g.monthRead && g.left == flights[i].left - amount
    requires Owing(g, kind).Due? && Owing(g, kind).amount == amount && (Owing(g, kind).window == w <==> current)
    ensures InWindow(c, total, flights[i := g], kind, limit, w, current, ahead)
  {
    hide Load, Bound;
    LoadChanged(flights, i, g, kind, w, false);
    LoadChanged(flights, i, g, kind, w, true);
    assert Load(flights, kind, w, true) >= Load(flights, kind, w, false) + flights[i].left by {
      LoadOpen(flights, i, kind, w);
    }
  }

  /** An open window bears at least what is due in it and what one counting request has left. */
  lemma {:induction false} LoadOpen(flights: seq<Flight>, i: nat, kind: Kind, w: WindowKey)
    requires i < |flights| && Counts(flights[i], kind, w)
    ensures Load(flights, kind, w, true) >= Load(flights, kind, w, false) + flights[i].left
    decreases |flights|
  {
    hide Counts;
    if i == 0 {
      LoadMore(flights[1..], kind, w);
    } else {
      LoadOpen(flights[1..], i - 1, kind, w);
    }
  }

  lemma {:induction false} LoadMore(flights: seq<Flight>, kind: Kind, w: WindowKey)
    ensures Load(flights, kind, w, true) >= Load(flights, kind, w, false)
    decreases |flights|
  {
    hide Counts;
    if flights != [] {
      LoadMore(flights[1..], kind, w);
    }
  }

  lemma Charged(totals: map<TotalKey, int>, vendor: string, charge: Charge, w: WindowKey)
    ensures At(Charging(totals, vendor, charge), (vendor, w))
            == At(totals, (vendor, w)) + if charge.Due? && charge.window == w then charge.amount else 0
  {
  }

  /** Adding a due charge moves it from the load into the total. */
  lemma AddBounded(c: Setting, total: int, flights: seq<Flight>, i: nat, g: Flight, kind: Kind, limit: U64, w: WindowKey,
                   current: bool, ahead: bool)
    requires i < |flights| && InWindow(c, total, flights, kind, limit, w, current, ahead)
    requires g.left == flights[i].left && (forall k :: ReadFor(g, k) == ReadFor(flights[i], k) && StartKey(g, k) == StartKey(flights[i], k))
    requires Owing(g, kind) == Owing(flights[i], kind) || Owing(g, kind).Nothing?
    ensures InWindow(c, total + Owed(flights[i], kind, w) - Owed(g, kind, w), flights[i := g], kind, limit, w, current, ahead)
  {
    hide Load, Bound;
    LoadChanged(flights, i, g, kind, w, false);
    LoadChanged(flights, i, g, kind, w, true);
    LoadHolds(flights, i, kind, w);
  }

  lemma {:induction false} LoadHolds(flights: seq<Flight>, i: nat, kind: Kind, w: WindowKey)
    requires i < |flights|
    ensures Load(flights, kind, w, false) >= Owed(flights[i], kind, w)
    decreases |flights|
  {
    if i > 0 {
      LoadHolds(flights[1..], i - 1, kind, w);
    }
  }

  /** A window that is ahead or has begun was ahead or had begun before. */
  lemma WindowsGoBy(kind: Kind, w: WindowKey, clock: int, now: int)
    requires clock <= now && FourDigitYear(clock) && FourDigitYear(now)
    ensures Ahead(kind, w, now) ==> Ahead(kind, w, clock) || w == Key(kind, clock)
    ensures Ahead(kind, w, now) ==> w != Key(kind, clock)
    ensures w == Key(kind, now) ==> w == Key(kind, clock) || Ahead(kind, w, clock)
  {
    hide FourDigitYear, DayKey, MonthKey;
    if Ahead(kind, w, now) {
      var t :| t > now && FourDigitYear(t) && Key(kind, t) == w;
      WindowsAreIntervals(clock, now, t);
    } else if w == Key(kind, now) && now > clock {
      assert w == Key(kind, clock) || Ahead(kind, w, clock);
    }
  }

  /** A window that begins has room for everything in flight. */
  lemma TickBounded(c: Setting, total: int, flights: seq<Flight>, kind: Kind, limit: U64, w: WindowKey, current: bool, ahead: bool,
                    current': bool, ahead': bool)
    requires Fitting(c, flights) && InWindow(c, total, flights, kind, limit, w, current, ahead)
    requires (current' ==> current || ahead) && (ahead' ==> ahead)
    ensures InWindow(c, total, flights, kind, limit, w, current', ahead')
  {
    hide Load;
    TotalLoadBounded(c, flights, kind, w, true);
  }

  lemma StepWindowBounded(c: Setting, s: System, step: Step, kind: Kind, limit: U64, w: WindowKey)
    requires Orderly(c, s) && Enabled(c, s, step) && OfKind(kind, w) && WindowBounded(c, s, kind, limit, w)
    requires LimitOf(c.budget, kind) == Some(limit) && limit >= 1
    ensures WindowBounded(c, Stepping(c, s, step), kind, limit, w)
  {
    hide InWindow, DayKey, MonthKey, FourDigitYear, Charging, Ahead;
    var total, flights := At(s.totals, (c.vendor, w)), s.flights;
    var current, ahead := w == Key(kind, s.clock), Ahead(kind, w, s.clock);
    NotBoth(kind, w, s.clock);
    match step
    case Start => StartBounded(c, total, flights, Fresh(c, s), kind, limit, w, current, ahead);
    case ReadDay(i) =>
      if Passes(c, s, Daily, flights[i]) {
        ReadBounded(c, total, flights, i, Daily, kind, limit, w, current, ahead);
      } else {
        LeaveBounded(c, total, flights, i, kind, limit, w, current, ahead);
      }
    case ReadMonth(i) =>
      if Passes(c, s, Monthly, flights[i]) {
        ReadBounded(c, total, flights, i, Monthly, kind, limit, w, current, ahead);
      } else {
        LeaveBounded(c, total, flights, i, kind, limit, w, current, ahead);
      }
    case Meter(i, amount) =>
      assert Fits(flights[i], c.units);
      MeterBounded(c, total, flights, i, Stepping(c, s, step).flights[i], amount, kind, limit, w, current, ahead);
    case AddDay(i) => AddStep(c, s, step, kind, limit, w);
    case AddMonth(i) => AddStep(c, s, step, kind, limit, w);
    case Finish(i) => LeaveBounded(c, total, flights, i, kind, limit, w, current, ahead);
    case Tick(now) =>
      WindowsGoBy(kind, w, s.clock, now);
      TickBounded(c, total, flights, kind, limit, w, current, ahead, w == Key(kind, now), Ahead(kind, w, now));
  }

  lemma NotBoth(kind: Kind, w: WindowKey, clock: int)
    ensures !(w == Key(kind, clock) && Ahead(kind, w, clock))
  {
    hide DayKey, MonthKey, FourDigitYear;
  }

  lemma AddStep(c: Setting, s: System, step: Step, kind: Kind, limit: U64, w: WindowKey)
    requires step.AddDay? || step.AddMonth?
    requires Fitting(c, s.flights) && Enabled(c, s, step) && OfKind(kind, w) && WindowBounded(c, s, kind, limit, w)
    ensures WindowBounded(c, Stepping(c, s, step), kind, limit, w)
  {
    hide InWindow, DayKey, MonthKey, FourDigitYear, Charging, Ahead;
    var i, f := step.i, s.flights[step.i];
    var s' := Stepping(c, s, step);
    assert Fits(f, c.units);
    Charged(s.totals, c.vendor, f.day, w);
    Charged(s.totals, c.vendor, f.month, w);
    AddBounded(c, At(s.totals, (c.vendor, w)), s.flights, i, s'.flights[i], kind, limit, w, w == Key(kind, s.clock), Ahead(kind, w, s.clock));
  }

  /** Every limit that is set is positive. */
  predicate Positive(b: WindowBudget) {
    forall kind :: LimitOf(b, kind).Some? ==> LimitOf(b, kind).value >= 1
  }

  lemma StepBounded(c: Setting, s: System, step: Step)
    requires Positive(c.budget) && Bounded(c, s) && Enabled(c, s, step)
    ensures Bounded(c, Stepping(c, s, step))
  {
    hide Orderly, WindowBounded, Stepping, Enabled;
    StepOrderly(c, s, step);
    forall kind, w | LimitOf(c.budget, kind).Some? && OfKind(kind, w)
      ensures WindowBounded(c, Stepping(c, s, step), kind, LimitOf(c.budget, kind).value, w)
    {
      StepWindowBounded(c, s, step, kind, LimitOf(c.budget, kind).value, w);
    }
  }

  lemma {:induction false} RunBounded(c: Setting, s: System, steps: seq<Step>, end: System)
    requires Positive(c.budget) && Bounded(c, s) && Reaches(c, s, steps, end)
    ensures Bounded(c, end)
    decreases |steps|
  {
    hide Bounded, Stepping, Enabled;
    if steps != [] {
      StepBounded(c, s, steps[0]);
      RunBounded(c, Stepping(c, s, steps[0]), steps[1..], end);
    }
  }

  /** Nothing in flight, and every total below its limit. */
  ghost predicate Idle(c: Setting, s: System) {
    && s.flights == []
    && FourDigitYear(s.clock)
    && forall kind, w :: LimitOf(c.budget, kind).Some? && OfKind(kind, w) ==>
         At(s.totals, (c.vendor, w)) < LimitOf(c.budget, kind).value
  }

  /**
   * Bounded overshoot. If at most K requests are between the guard and their end and each meters at most S units, then in
   * every interleaving no daily or monthly total of the vendor ever exceeds its enforced budget minus 1 plus K * S.
   */
  lemma OvershootBounded(c: Setting, s: System, steps: seq<Step>, end: System, kind: Kind, w: WindowKey)
    requires Positive(c.budget) && Idle(c, s) && Reaches(c, s, steps, end)
    requires LimitOf(c.budget, kind).Some? && OfKind(kind, w)
    ensures At(end.totals, (c.vendor, w)) <= LimitOf(c.budget, kind).value - 1 + c.flights * c.units
  {
    hide Reaches, DayKey, MonthKey, Ahead;
    assert c.flights * c.units >= 0;
    RunBounded(c, s, steps, end);
    assert WindowBounded(c, end, kind, LimitOf(c.budget, kind).value, w);
  }

  /** Without interruption, the two reads let a request pass exactly when the guard's budget check does not block. */
  lemma UninterruptedGuard(c: Setting, s: System, b: EffectiveBudget)
    requires c.budget == b.effective && |s.flights| < c.flights
    ensures var n := |s.flights|;
            var started := Stepping(c, s, Start);
            var read := Stepping(c, started, ReadDay(n));
            if OverBudget(s.totals, c.vendor, b, s.clock) then
              read.flights == s.flights || Stepping(c, read, ReadMonth(n)).flights == s.flights
            else
              Stepping(c, read, ReadMonth(n)) == s.(flights := s.flights + [Flight.Flight(DayKey(s.clock), MonthKey(s.clock), true, true, c.units, Nothing, Nothing)])
  {
    hide DayKey, MonthKey, At;
    var n := |s.flights|;
    var started := Stepping(c, s, Start);
    assert Without(started.flights, n) == s.flights;
    var read := Stepping(c, started, ReadDay(n));
    if Passes(c, started, Daily, started.flights[n]) {
      assert Without(read.flights, n) == s.flights;
    }
  }

  // ----- the bound is attained

  lemma {:induction false} ReachesSplit(c: Setting, s: System, first: seq<Step>, mid: System, rest: seq<Step>, end: System)
    requires Reaches(c, s, first, mid) && Reaches(c, mid, rest, end)
    ensures Reaches(c, s, first + rest, end)
    decreases |first|
  {
    hide Stepping, Enabled;
    if first == [] {
      assert first + rest == rest;
    } else {
      ReachesSplit(c, Stepping(c, s, first[0]), first[1..], mid, rest, end);
      assert (first + rest)[1..] == first[1..] + rest;
    }
  }

  lemma ReachesOne(c: Setting, s: System, step: Step)
    requires Enabled(c, s, step)
    ensures Reaches(c, s, [step], Stepping(c, s, step))
  {
    hide Stepping, Enabled;
    assert [step][1..] == [];
  }

  /** `n` requests that passed the guard at `t`, of which the first `m` have charged all they may to their day. */
  function Crowd(t: int, units: nat, n: nat, m: nat): seq<Flight> {
    seq(n, i requires 0 <= i < n =>
      if i < m then Flight.Flight(DayKey(t), MonthKey(t), true, true, 0, Nothing, Due(MonthKey(t), units))
      else Flight.Flight(DayKey(t), MonthKey(t), true, true, units, Nothing, Nothing))
  }

  lemma {:induction false} AdmitMany(c: Setting, s: System, n: nat) returns (steps: seq<Step>)
    requires s.flights == [] && n <= c.flights
    requires Passes(c, s, Daily, Fresh(c, s)) && Passes(c, s, Monthly, Fresh(c, s))
    ensures Reaches(c, s, steps, s.(flights := Crowd(s.clock, c.units, n, 0)))
  {
    hide DayKey, MonthKey, Reaches, At;
    if n == 0 {
      steps := [];
      assert Crowd(s.clock, c.units, 0, 0) == [];
      ReachesNone(c, s);
      assert s.(flights := []) == s;
    } else {
      var before := AdmitMany(c, s, n - 1);
      var s0 := s.(flights := Crowd(s.clock, c.units, n - 1, 0));
      var s1 := Stepping(c, s0, Start);
      var s2 := Stepping(c, s1, ReadDay(n - 1));
      var s3 := Stepping(c, s2, ReadMonth(n - 1));
      ReachesOne(c, s0, Start);
      ReachesOne(c, s1, ReadDay(n - 1));
      ReachesOne(c, s2, ReadMonth(n - 1));
      ReachesSplit(c, s, before, s0, [Start], s1);
      ReachesSplit(c, s, before + [Start], s1, [ReadDay(n - 1)], s2);
      ReachesSplit(c, s, before + [Start] + [ReadDay(n - 1)], s2, [ReadMonth(n - 1)], s3);
      assert s3.flights == Crowd(s.clock, c.units, n, 0);
      steps := before + [Start] + [ReadDay(n - 1)] + [ReadMonth(n - 1)];
    }
  }

  function Fresh(c: Setting, s: System): Flight {
    Flight.Flight(DayKey(s.clock), MonthKey(s.clock), false, false, c.units, Nothing, Nothing)
  }

  lemma ReachesNone(c: Setting, s: System)
    ensures Reaches(c, s, [], s)
  {
  }

  lemma {:induction false} ChargeMany(c: Setting, s: System, n: nat, m: nat) returns (steps: seq<Step>, end: System)
    requires s.flights == Crowd(s.clock, c.units, n, 0) && m <= n
    ensures Reaches(c, s, steps, end)
    ensures end.flights == Crowd(s.clock, c.units, n, m) && end.clock == s.clock
    ensures At(end.totals, (c.vendor, DayKey(s.clock))) == At(s.totals, (c.vendor, DayKey(s.clock))) + m * c.units
  {
    hide DayKey, MonthKey, Reaches;
    if m == 0 {
      steps, end := [], s;
      ReachesNone(c, s);
    } else {
      var before, s0 := ChargeMany(c, s, n, m - 1);
      var s1 := Stepping(c, s0, Step.Meter(m - 1, c.units));
      ReachesOne(c, s0, Step.Meter(m - 1, c.units));
      ReachesSplit(c, s, before, s0, [Step.Meter(m - 1, c.units)], s1);
      end := Stepping(c, s1, AddDay(m - 1));
      ReachesOne(c, s1, AddDay(m - 1));
      ReachesSplit(c, s, before + [Step.Meter(m - 1, c.units)], s1, [AddDay(m - 1)], end);
      steps := before + [Step.Meter(m - 1, c.units)] + [AddDay(m - 1)];
      assert end.flights == Crowd(s.clock, c.units, n, m);
      assert m * c.units == (m - 1) * c.units + c.units;
    }
  }

  /** The bound cannot be improved: from a day one unit below its limit, K requests of S units each take it there. */
  lemma OvershootAttained(c: Setting, s: System) returns (steps: seq<Step>, end: System)
    requires s.flights == []
    requires c.budget.daily.Some? && At(s.totals, (c.vendor, DayKey(s.clock))) == c.budget.daily.value - 1
    requires !Reached(c.budget.monthly, At(s.totals, (c.vendor, MonthKey(s.clock))))
    ensures Reaches(c, s, steps, end)
    ensures At(end.totals, (c.vendor, DayKey(s.clock))) == c.budget.daily.value - 1 + c.flights * c.units
  {
    hide Reaches, DayKey, MonthKey, At;
    var admitting := AdmitMany(c, s, c.flights);
    var mid := s.(flights := Crowd(s.clock, c.units, c.flights, 0));
    var charging, last := ChargeMany(c, mid, c.flights, c.flights);
    ReachesSplit(c, s, admitting, mid, charging, last);
    steps, end := admitting + charging, last;
  }
}
