/** US equity market sessions: Eastern time, the exchange calendar and the end of the last open period. */
module MarketHours {
  import opened Calendar
  import opened Wrappers

  datatype Session = PreMarket | Regular | PostMarket | Overnight | Closed {
    predicate IsOpen() {
      this != Closed
    }
  }

  const HOLIDAYS: seq<Date> := [
    Date(2026, 1, 1), Date(2026, 1, 19), Date(2026, 2, 16), Date(2026, 4, 3), Date(2026, 5, 25),
    Date(2026, 6, 19), Date(2026, 7, 3), Date(2026, 9, 7), Date(2026, 11, 26), Date(2026, 12, 25),
    Date(2027, 1, 1), Date(2027, 1, 18), Date(2027, 2, 15), Date(2027, 3, 26), Date(2027, 5, 31),
    Date(2027, 6, 18), Date(2027, 7, 5), Date(2027, 9, 6), Date(2027, 11, 25), Date(2027, 12, 24)
  ]

  const EARLY_CLOSES: seq<Date> := [Date(2026, 11, 27), Date(2026, 12, 24), Date(2027, 11, 26)]

  const SUNDAY := 0
  const TUESDAY := 2
  const SATURDAY := 6

  predicate IsHoliday(day: int) {
    DateOf(day) in HOLIDAYS
  }

  predicate IsTradingDay(day: int) {
    Weekday(day) != SATURDAY && Weekday(day) != SUNDAY && !IsHoliday(day)
  }

  function RegularClose(day: int): int {
    if DateOf(day) in EARLY_CLOSES then Hours(13) else Hours(16)
  }

  function PostEnd(day: int): (r: int)
    ensures Hours(17) <= r <= Hours(20)
  {
    if DateOf(day) in EARLY_CLOSES then Hours(17) else Hours(20)
  }

  /** Day number of the `n`-th Sunday of a month. */
  function NthSunday(year: int, month: int, n: int): int
    requires 1 <= month <= 12
  {
    var first := DayNumber(Date(year, month, 1));
    first + (7 - Weekday(first)) % 7 + 7 * (n - 1)
  }

  /** 02:00 EST on the second Sunday of March. */
  function DstStart(year: int): int {
    Days(NthSunday(year, 3, 2)) + Hours(7)
  }

  /** 02:00 EDT on the first Sunday of November. */
  function DstEnd(year: int): int {
    Days(NthSunday(year, 11, 1)) + Hours(6)
  }

  predicate IsDst(t: int) {
    var y := YearOf(DayOf(t));
    DstStart(y) <= t < DstEnd(y)
  }

  /** UTC to New York local time. */
  function ToEastern(t: int): int {
    t - Hours(if IsDst(t) then 4 else 5)
  }

  /** New York local time to UTC. */
  function FromEastern(local: int): int {
    var edt := local + Hours(4);
    if IsDst(edt) then edt else local + Hours(5)
  }

  function SessionAt(t: int): Session {
    var local := ToEastern(t);
    var day, time := DayOf(local), TimeOf(local);
    if time >= Hours(20) then
      if IsTradingDay(day + 1) then Overnight else Closed
    else if !IsTradingDay(day) then
      Closed
    else if time < Hours(4) then
      Overnight
    else if time < Hours(9) + Minutes(30) then
      PreMarket
    else if time < RegularClose(day) then
      Regular
    else if time < PostEnd(day) then
      PostMarket
    else
      Closed
  }

  /** UTC end of the trading day `day`. */
  function EndOf(day: int): int {
    FromEastern(Days(day) + PostEnd(day))
  }

  /** The first trading day among `today - i`, `today - i - 1`, .. within the window that ended by `t`. */
  function Search(t: int, today: int, i: nat): Option<int>
    requires i <= 14
    decreases 14 - i
  {
    if i == 14 then None
    else if IsTradingDay(today - i) && EndOf(today - i) <= t then Some(EndOf(today - i))
    else Search(t, today, i + 1)
  }

  function LastOpenAtOrBefore(t: int): Option<int> {
    if SessionAt(t).IsOpen() then Some(t) else Search(t, DayOf(ToEastern(t)), 0)
  }

  predicate IsStale(updatedAt: int, now: int, maxOpenAge: int) {
    match LastOpenAtOrBefore(now)
    case Some(reference) => reference - updatedAt > maxOpenAge
    case None => now - updatedAt > maxOpenAge
  }

  // ----- daylight saving time

  /** A Sunday in the right week of the month. */
  lemma NthSundayIsSunday(year: int, month: int, n: int)
    requires 1 <= month <= 12
    ensures Weekday(NthSunday(year, month, n)) == SUNDAY
    ensures var first := DayNumber(Date(year, month, 1));
            first + 7 * (n - 1) <= NthSunday(year, month, n) < first + 7 * n
  {
    SundayAfter(DayNumber(Date(year, month, 1)), n - 1);
  }

  lemma SundayAfter(first: int, weeks: int)
    ensures Weekday(first + (7 - Weekday(first)) % 7 + 7 * weeks) == SUNDAY
  {
    var q, w := (first + 4) / 7, Weekday(first);
    var next := first + (7 - w) % 7;
    assert next + 4 == 7 * q + if w == 0 then 0 else 7;
    assert (next + 7 * weeks + 4) % 7 == 0;
  }

  /** Both transitions lie well inside their UTC year. */
  lemma DstWithinYear(y: int)
    ensures Days(YearStart(y)) + Days(60) <= DstStart(y)
    ensures DstStart(y) + Days(200) <= DstEnd(y)
    ensures DstEnd(y) + Days(50) <= Days(YearStart(y + 1))
  {
    NthSundayIsSunday(y, 3, 2);
    NthSundayIsSunday(y, 11, 1);
    YearLength(y);
  }

  /** An instant at the turn of two years is in neither season. */
  lemma OutOfSeason(t: int, turn: int, start: int, end: int)
    requires Days(turn - 2) <= t < Days(turn + 2)
    requires end + Days(50) <= Days(turn) || Days(turn) + Days(60) <= start
    ensures !(start <= t < end)
  {
  }

  /** An instant within two days of the turn from `y` to `y + 1` is in the season of neither. */
  lemma TurnOfYear(t: int, y: int)
    requires Days(YearStart(y + 1) - 2) <= t < Days(YearStart(y + 1) + 2)
    ensures !(DstStart(y) <= t < DstEnd(y)) && !(DstStart(y + 1) <= t < DstEnd(y + 1))
  {
    DstWithinYear(y);
    DstWithinYear(y + 1);
    OutOfSeason(t, YearStart(y + 1), DstStart(y), DstEnd(y));
    OutOfSeason(t, YearStart(y + 1), DstStart(y + 1), DstEnd(y + 1));
  }

  /** The rule of year `y` also decides the days around that year. */
  lemma DstIff(t: int, y: int)
    requires Days(YearStart(y) - 2) <= t < Days(YearStart(y + 1) + 2)
    ensures IsDst(t) <==> DstStart(y) <= t < DstEnd(y)
  {
    hide DstStart, DstEnd, YearOf, YearStart;
    var z := YearOf(DayOf(t));
    var first, last := YearStart(z), YearStart(z + 1);
    assert Days(first) <= t < Days(last);
    if z < y {
      YearsOrdered(z, y);
      OneYearApart(z, y, YearStart(y) - 2);
      TurnOfYear(t, z);
    } else if y < z {
      YearsOrdered(y, z);
      OneYearApart(y, z, first - 2);
      TurnOfYear(t, y);
    }
  }

  lemma OneYearApart(y: int, z: int, day: int)
    requires y < z && day < YearStart(y + 1) + 2 && day >= YearStart(z) - 2
    ensures z == y + 1
  {
    if y + 1 < z {
      YearsOrdered(y + 1, z);
      YearLength(y + 1);
    }
  }

  /** The UTC hour whose local time repeats an hour already seen. */
  predicate InRepeatedHour(t: int) {
    var y := YearOf(DayOf(t));
    DstEnd(y) <= t < DstEnd(y) + Hours(1)
  }

  /** The local hour that the spring transition skips. */
  predicate InSkippedHour(local: int) {
    var y := YearOf(DayOf(local));
    DstStart(y) - Hours(5) <= local < DstStart(y) - Hours(4)
  }

  /** Converting to local time and back is exact but for the repeated hour, where it is one hour off. */
  lemma UtcRoundTrip(t: int)
    ensures FromEastern(ToEastern(t)) == if InRepeatedHour(t) then t - Hours(1) else t
  {
    hide YearOf, YearStart, DstStart, DstEnd;
    var y := YearOf(DayOf(t));
    DstWithinYear(y);
    DstIff(t, y);
    DstIff(t - Hours(1), y);
  }

  lemma RoundTripInSeason(local: int, start: int, end: int)
    requires start + Days(1) <= end
    ensures var utc := local + Hours(if start <= local + Hours(4) < end then 4 else 5);
            utc - Hours(if start <= utc < end then 4 else 5)
            == if start - Hours(5) <= local < start - Hours(4) then local + Hours(1) else local
  {
  }

  /** Converting from local time and back is exact but for the skipped hour, which becomes the next one. */
  lemma LocalRoundTrip(local: int)
    ensures ToEastern(FromEastern(local)) == if InSkippedHour(local) then local + Hours(1) else local
  {
    hide YearOf, YearStart, DstStart, DstEnd;
    var y := YearOf(DayOf(local));
    DstWithinYear(y);
    DstIff(local + Hours(4), y);
    DstIff(local + Hours(5), y);
    RoundTripInSeason(local, DstStart(y), DstEnd(y));
  }

  /** From 03:00 on, comparing local times is comparing instants: transitions only disturb 01:00 to 03:00. */
  lemma Boundary(local: int, t: int)
    requires TimeOf(local) >= Hours(3)
    ensures ToEastern(t) >= local <==> t >= FromEastern(local)
  {
    hide YearOf, YearStart, DstStart, DstEnd, NthSunday;
    var y := YearOf(DayOf(t));
    var start, end, edt := DstStart(y), DstEnd(y), local + Hours(4);
    if t - Hours(6) <= local <= t - Hours(3) {
      DstIff(t, y);
      DstIff(edt, y);
      ClearOfTransitions(local, y);
      DstWithinYear(y);
      SameSeason(local, t, start, end);
    }
  }

  lemma ClearOfTransition(local: int, day: int)
    requires TimeOf(local) >= Hours(3)
    ensures local < Days(day) || local >= Days(day) + Hours(3)
  {
  }

  lemma ClearOfTransitions(local: int, y: int)
    requires TimeOf(local) >= Hours(3)
    ensures local < DstStart(y) - Hours(7) || local >= DstStart(y) - Hours(4)
    ensures local < DstEnd(y) - Hours(6) || local >= DstEnd(y) - Hours(3)
  {
    hide NthSunday, YearOf;
    ClearOfTransition(local, NthSunday(y, 3, 2));
    ClearOfTransition(local, NthSunday(y, 11, 1));
  }

  /** From 03:00 on, every local time exists once. */
  lemma LocalExact(local: int)
    requires TimeOf(local) >= Hours(3)
    ensures ToEastern(FromEastern(local)) == local
  {
    hide YearOf, DstStart, DstEnd;
    LocalRoundTrip(local);
    ClearOfTransitions(local, YearOf(DayOf(local)));
  }

  /** Away from the transitions the offset at `t` and the offset at `local` decide the comparison alike. */
  lemma SameSeason(local: int, t: int, start: int, end: int)
    requires local < start - Hours(7) || local >= start - Hours(4)
    requires local < end - Hours(6) || local >= end - Hours(3)
    requires start + Days(1) <= end
    ensures t - Hours(if start <= t < end then 4 else 5) >= local
            <==> t >= local + Hours(if start <= local + Hours(4) < end then 4 else 5)
  {
  }

  // ----- the exchange calendar

  lemma TableYears()
    ensures YearStart(2026) == 20454 && YearStart(2027) == 20819
    ensures !IsLeap(2026) && !IsLeap(2027)
  {
    var y := 1970;
    while y < 2027
      invariant 1970 <= y <= 2027
      invariant YearStart(y) == 365 * (y - 1970) + (y - 1969) / 4
      invariant y == 2027 ==> YearStart(2026) == 20454
    {
      YearLength(y);
      y := y + 1;
    }
  }

  /** No holiday of the table falls on a Tuesday. */
  lemma HolidayNotOnTuesday(i: nat)
    requires i < |HOLIDAYS|
    ensures 1 <= HOLIDAYS[i].month <= 12 && Weekday(DayNumber(HOLIDAYS[i])) != TUESDAY
  {
    hide YearStart, IsLeap, DateOf, YearOf;
    TableYears();
  }

  lemma TuesdayTrades(day: int)
    requires Weekday(day) == TUESDAY
    ensures IsTradingDay(day)
  {
    hide DayNumber, DateOf;
    if IsHoliday(day) {
      var i :| 0 <= i < |HOLIDAYS| && HOLIDAYS[i] == DateOf(day);
      HolidayNotOnTuesday(i);
    }
  }

  /** Within any seven consecutive days there is a trading day. */
  lemma TradingDayWithinAWeek(today: int) returns (i: nat)
    ensures 1 <= i <= 7 && IsTradingDay(today - i)
  {
    i := if Weekday(today) > TUESDAY then Weekday(today) - TUESDAY else Weekday(today) + 7 - TUESDAY;
    WeekdayBack(today, i);
    TuesdayTrades(today - i);
  }

  lemma WeekdayBack(day: int, i: nat)
    requires i == Weekday(day) - TUESDAY || i == Weekday(day) + 7 - TUESDAY
    ensures Weekday(day - i) == TUESDAY
  {
  }

  // ----- open periods as intervals

  predicate IsOpen(t: int) {
    SessionAt(t).IsOpen()
  }

  /** UTC start of trading day `day`: 20:00 local on the evening before. */
  function BeginOf(day: int): int {
    FromEastern(Days(day - 1) + Hours(20))
  }

  /** The trading date an instant counts towards: after 20:00 the next one. */
  function TradeDate(t: int): int {
    var local := ToEastern(t);
    if TimeOf(local) >= Hours(20) then DayOf(local) + 1 else DayOf(local)
  }

  /** The evening boundary of a date separates the instants that count towards later dates. */
  lemma TradeDateAfter(t: int, day: int)
    ensures TradeDate(t) >= day <==> t >= BeginOf(day)
  {
    hide IsDst, YearOf;
    var boundary := Days(day - 1) + Hours(20);
    DayOfUnique(boundary, day - 1);
    Boundary(boundary, t);
    LocalOrder(ToEastern(t), day);
  }

  lemma LocalOrder(local: int, day: int)
    ensures local >= Days(day - 1) + Hours(20)
            <==> (if TimeOf(local) >= Hours(20) then DayOf(local) + 1 else DayOf(local)) >= day
  {
  }

  /** The end of a trading day lies after its start and not after the start of the next date. */
  lemma EndOrder(day: int)
    ensures BeginOf(day) < EndOf(day) <= BeginOf(day + 1)
  {
    hide IsDst, YearOf, FromEastern, ToEastern, PostEnd, DayOf, TimeOf;
    var begin, close, next := Days(day - 1) + Hours(20), Days(day) + PostEnd(day), Days(day) + Hours(20);
    DayOfUnique(begin, day - 1);
    DayOfUnique(close, day);
    DayOfUnique(next, day);
    LocalExact(begin);
    LocalExact(next);
    assert ToEastern(BeginOf(day)) == begin;
    Boundary(close, BeginOf(day));
    assert ToEastern(BeginOf(day + 1)) == next;
    Boundary(close, BeginOf(day + 1));
  }

  lemma OpenByLocalTime(t: int)
    ensures var local := ToEastern(t);
            IsOpen(t) <==> if TimeOf(local) >= Hours(20) then IsTradingDay(DayOf(local) + 1)
                           else IsTradingDay(DayOf(local)) && TimeOf(local) < PostEnd(DayOf(local))
  {
    hide IsDst, IsTradingDay, ToEastern, DateOf;
  }

  /** A session is open exactly within the interval of the trading date the instant counts towards. */
  lemma OpenWithinTradeDate(t: int)
    ensures IsOpen(t) <==> IsTradingDay(TradeDate(t)) && t < EndOf(TradeDate(t))
  {
    hide IsDst, YearOf, FromEastern, ToEastern, IsTradingDay, SessionAt, PostEnd;
    OpenByLocalTime(t);
    var day := TradeDate(t);
    var close := Days(day) + PostEnd(day);
    DayOfUnique(close, day);
    Boundary(close, t);
    PastClose(ToEastern(t), day, PostEnd(day));
  }

  lemma PastClose(local: int, day: int, close: int)
    requires Hours(17) <= close <= Hours(20)
    requires day == if TimeOf(local) >= Hours(20) then DayOf(local) + 1 else DayOf(local)
    ensures local < Days(day) + close <==> TimeOf(local) >= Hours(20) || TimeOf(local) < close
  {
  }

  /**
   * The open instants are the disjoint union, over the trading days, of the intervals from the evening before to the end
   * of post-market trading.
   */
  lemma OpenIntervals(t: int)
    ensures IsOpen(t) <==> exists day :: IsTradingDay(day) && BeginOf(day) <= t < EndOf(day)
    ensures forall day, next :: BeginOf(day) <= t < EndOf(day) && BeginOf(next) <= t < EndOf(next) ==> day == next
  {
    hide IsDst, YearOf, FromEastern, ToEastern, IsTradingDay, EndOf, BeginOf, TradeDate, SessionAt;
    OpenWithinTradeDate(t);
    var date := TradeDate(t);
    TradeDateAfter(t, date);
    TradeDateAfter(t, date + 1);
    forall day | BeginOf(day) <= t < EndOf(day)
      ensures day == date
    {
      EndOrder(day);
      TradeDateAfter(t, day);
      TradeDateAfter(t, day + 1);
    }
  }

  /** The UTC instant of a local time of day on date `day`. */
  function At(day: int, time: int): int {
    FromEastern(Days(day) + time)
  }

  lemma BeforeLocal(t: int, day: int, time: int)
    requires TradeDate(t) == day && Hours(3) <= time <= Hours(20)
    ensures t < At(day, time) <==> DayOf(ToEastern(t)) < day || TimeOf(ToEastern(t)) < time
  {
    hide IsDst, YearOf, FromEastern, ToEastern;
    EarlierInTradeDate(ToEastern(t), day, time);
    Boundary(Days(day) + time, t);
  }

  lemma EarlierInTradeDate(local: int, day: int, time: int)
    requires day == if TimeOf(local) >= Hours(20) then DayOf(local) + 1 else DayOf(local)
    requires Hours(3) <= time <= Hours(20)
    ensures TimeOf(Days(day) + time) >= Hours(3)
    ensures local < Days(day) + time <==> DayOf(local) < day || TimeOf(local) < time
  {
    DayOfUnique(Days(day) + time, day);
  }

  /** Within a trading date the sessions follow one another in UTC: overnight, pre-market, regular, post-market. */
  lemma SessionsInOrder(t: int, day: int)
    requires TradeDate(t) == day && IsTradingDay(day)
    ensures SessionAt(t) == Overnight <==> t < At(day, Hours(4))
    ensures SessionAt(t) == PreMarket <==> At(day, Hours(4)) <= t < At(day, Hours(9) + Minutes(30))
    ensures SessionAt(t) == Regular <==> At(day, Hours(9) + Minutes(30)) <= t < At(day, RegularClose(day))
    ensures SessionAt(t) == PostMarket <==> At(day, RegularClose(day)) <= t < EndOf(day)
    ensures SessionAt(t) == Closed <==> EndOf(day) <= t
  {
    hide IsDst, YearOf, FromEastern, ToEastern, IsTradingDay, DateOf;
    BeforeLocal(t, day, Hours(4));
    BeforeLocal(t, day, Hours(9) + Minutes(30));
    BeforeLocal(t, day, RegularClose(day));
    BeforeLocal(t, day, PostEnd(day));
  }

  // ----- the search for the last open moment

  /** The latest trading day that has ended by `t`. */
  ghost predicate LastEnded(day: int, t: int) {
    && IsTradingDay(day)
    && EndOf(day) <= t
    && forall later :: later > day && IsTradingDay(later) ==> t < EndOf(later)
  }

  lemma SearchFinds(t: int, today: int, i: nat, last: int)
    requires i <= today - last < 14 && LastEnded(last, t)
    ensures Search(t, today, i) == Some(EndOf(last))
    decreases today - last - i
  {
    hide IsDst, YearOf, FromEastern, EndOf, IsTradingDay;
    if i < today - last {
      SearchFinds(t, today, i + 1, last);
    }
  }

  /** Local dates up to yesterday have ended, local dates from tomorrow on have not. */
  lemma EndedByDate(t: int, day: int)
    ensures day < DayOf(ToEastern(t)) ==> EndOf(day) <= t
    ensures day > DayOf(ToEastern(t)) ==> t < EndOf(day)
  {
    hide IsDst, YearOf, FromEastern, ToEastern, PostEnd;
    var close := Days(day) + PostEnd(day);
    DayOfUnique(close, day);
    Boundary(close, t);
  }

  /** The first trading day found going back from `day`; one is at most `budget` days away. */
  lemma LatestTradingDay(t: int, day: int, known: int) returns (last: int)
    requires known <= day && IsTradingDay(known) && EndOf(known) <= t
    requires forall later :: later > day && IsTradingDay(later) ==> t < EndOf(later)
    ensures known <= last <= day && LastEnded(last, t)
    decreases day - known
  {
    hide IsTradingDay, EndOf;
    if IsTradingDay(day) && EndOf(day) <= t {
      last := day;
    } else {
      last := LatestTradingDay(t, day - 1, known);
    }
  }

  /** A trading day has always ended within the fortnight that is searched. */
  lemma SomethingEnded(t: int) returns (last: int)
    ensures LastEnded(last, t)
    ensures 0 <= DayOf(ToEastern(t)) - last < 14
    ensures Search(t, DayOf(ToEastern(t)), 0) == Some(EndOf(last))
  {
    hide IsDst, YearOf, FromEastern, ToEastern, EndOf, IsTradingDay;
    var today := DayOf(ToEastern(t));
    var back := TradingDayWithinAWeek(today);
    EndedByDate(t, today - back);
    forall later | later > today
      ensures t < EndOf(later)
    {
      EndedByDate(t, later);
    }
    last := LatestTradingDay(t, today, today - back);
    SearchFinds(t, today, 0, last);
  }

  /** While closed, nothing has opened since the latest trading day ended. */
  lemma ClosedSince(t: int, last: int, u: int)
    requires !IsOpen(t) && LastEnded(last, t) && EndOf(last) <= u <= t
    ensures !IsOpen(u)
  {
    hide IsDst, YearOf, FromEastern, ToEastern, EndOf, BeginOf, IsTradingDay, SessionAt;
    OpenIntervals(u);
    if IsOpen(u) {
      var day :| IsTradingDay(day) && BeginOf(day) <= u < EndOf(day);
      OpenIntervals(t);
      assert EndOf(day) <= t;
      assert day <= last;
      EndsOrdered(day, last);
    }
  }

  lemma EndsOrdered(day: int, later: int)
    requires day <= later
    ensures EndOf(day) <= EndOf(later) && (day < later ==> EndOf(day) <= BeginOf(later))
    decreases later - day
  {
    hide IsDst, YearOf, FromEastern, EndOf, BeginOf;
    if day < later {
      EndsOrdered(day, later - 1);
      EndOrder(later - 1);
      EndOrder(later);
    }
  }

  /** For seventeen hours up to its end, a trading day is open. */
  lemma OpenBeforeEnd(day: int, u: int)
    requires IsTradingDay(day) && EndOf(day) - Hours(17) <= u < EndOf(day)
    ensures IsOpen(u)
  {
    hide YearOf, IsTradingDay, PostEnd, SessionAt, DstStart, DstEnd;
    var begin, close := Days(day - 1) + Hours(20), Days(day) + PostEnd(day);
    DayOfUnique(begin, day - 1);
    assert BeginOf(day) <= begin + Hours(5) && EndOf(day) >= close + Hours(4);
    OpenIntervals(u);
  }

  /**
   * The result always exists and is the supremum of the open instants up to `t`: it is `t` itself while open, and
   * otherwise no instant from it to `t` is open while every instant of the seventeen hours before it is.
   */
  lemma LastOpenIsSupremum(t: int)
    ensures LastOpenAtOrBefore(t).Some? && LastOpenAtOrBefore(t).value <= t
    ensures forall u :: u <= t && IsOpen(u) ==> u <= LastOpenAtOrBefore(t).value
    ensures IsOpen(t) ==> LastOpenAtOrBefore(t).value == t
    ensures !IsOpen(t) ==> forall u :: LastOpenAtOrBefore(t).value <= u <= t ==> !IsOpen(u)
    ensures !IsOpen(t) ==> forall u :: LastOpenAtOrBefore(t).value - Hours(17) <= u < LastOpenAtOrBefore(t).value ==> IsOpen(u)
  {
    hide IsDst, YearOf, FromEastern, ToEastern, EndOf, BeginOf, IsTradingDay, SessionAt, Search;
    if !IsOpen(t) {
      var last := SomethingEnded(t);
      forall u | EndOf(last) <= u <= t
        ensures !IsOpen(u)
      {
        ClosedSince(t, last, u);
      }
      forall u | EndOf(last) - Hours(17) <= u < EndOf(last)
        ensures IsOpen(u)
      {
        OpenBeforeEnd(last, u);
      }
    }
  }

  /** The last open moment never moves back. */
  lemma LastOpenMonotone(t: int, later: int)
    requires t <= later
    ensures LastOpenAtOrBefore(t).Some? && LastOpenAtOrBefore(later).Some?
    ensures LastOpenAtOrBefore(t).value <= LastOpenAtOrBefore(later).value
  {
    hide IsDst, YearOf, FromEastern, ToEastern, EndOf, BeginOf, IsTradingDay, SessionAt, LastOpenAtOrBefore;
    LastOpenIsSupremum(t);
    LastOpenIsSupremum(later);
    var r, r' := LastOpenAtOrBefore(t).value, LastOpenAtOrBefore(later).value;
    if !IsOpen(later) && !IsOpen(t) {
      assert IsOpen(r - 1);
    }
  }

  /** Once stale, a reading stays stale until it is updated. */
  lemma StaleMonotone(updatedAt: int, now: int, later: int, maxOpenAge: int)
    requires now <= later
    ensures IsStale(updatedAt, now, maxOpenAge) ==> IsStale(updatedAt, later, maxOpenAge)
  {
    hide LastOpenAtOrBefore;
    LastOpenMonotone(now, later);
  }

  /** While the market stays closed, time passing changes no verdict. */
  lemma StaleConstantWhileClosed(updatedAt: int, now: int, later: int, maxOpenAge: int)
    requires now <= later && forall t :: now <= t <= later ==> !IsOpen(t)
    ensures IsStale(updatedAt, now, maxOpenAge) <==> IsStale(updatedAt, later, maxOpenAge)
  {
    hide LastOpenAtOrBefore, SessionAt;
    LastOpenMonotone(now, later);
    LastOpenIsSupremum(now);
    LastOpenIsSupremum(later);
    var r, r' := LastOpenAtOrBefore(now).value, LastOpenAtOrBefore(later).value;
    assert IsOpen(r' - 1);
    assert !(now <= r' - 1 <= later);
    assert !(r <= r' - 1 <= now);
  }

  /** Both changes of the clock, with half a day on either side, fall in closed time. */
  lemma TransitionsClosed(y: int, u: int)
    requires DstStart(y) - Hours(12) <= u <= DstStart(y) + Hours(12) || DstEnd(y) - Hours(12) <= u <= DstEnd(y) + Hours(12)
    ensures !IsOpen(u)
  {
    hide NthSunday, YearOf, IsDst, IsHoliday;
    NthSundayIsSunday(y, 3, 2);
    NthSundayIsSunday(y, 11, 1);
    var sunday := if DstStart(y) - Hours(12) <= u <= DstStart(y) + Hours(12) then NthSunday(y, 3, 2) else NthSunday(y, 11, 1);
    WeekendLocal(ToEastern(u), sunday);
  }

  lemma WeekendLocal(local: int, sunday: int)
    requires Weekday(sunday) == SUNDAY
    requires Days(sunday) - Hours(12) <= local < Days(sunday) + Hours(20)
    ensures (DayOf(local) == sunday && TimeOf(local) < Hours(20)) || DayOf(local) == sunday - 1
    ensures Weekday(sunday - 1) == SATURDAY
  {
  }

  /**
   * What "stale" means, without the search: while the market is open, that the reading is older than allowed; while it is
   * closed, that at some open moment before it had already reached that age.
   */
  lemma StaleMeans(updatedAt: int, now: int, maxOpenAge: int)
    ensures IsOpen(now) ==> (IsStale(updatedAt, now, maxOpenAge) <==> now - updatedAt > maxOpenAge)
    ensures !IsOpen(now) ==>
              (IsStale(updatedAt, now, maxOpenAge) <==> exists v :: v <= now && IsOpen(v) && v - updatedAt >= maxOpenAge)
  {
    hide LastOpenAtOrBefore, SessionAt;
    LastOpenIsSupremum(now);
    var r := LastOpenAtOrBefore(now).value;
    if !IsOpen(now) {
      assert IsOpen(r - 1);
      forall v | v <= now && IsOpen(v)
        ensures v <= r - 1
      {
        assert !IsOpen(r);
      }
    }
  }

  /** The clock in New York jumps from 02:00 to 03:00 on the second Sunday of March. */
  lemma SpringForward(y: int)
    ensures var sunday := NthSunday(y, 3, 2);
            && ToEastern(DstStart(y) - 1) == Days(sunday) + Hours(2) - 1
            && ToEastern(DstStart(y)) == Days(sunday) + Hours(3)
  {
    hide YearOf, YearStart, NthSunday;
    DstWithinYear(y);
    DstIff(DstStart(y), y);
    DstIff(DstStart(y) - 1, y);
  }

  /** And back from 02:00 to 01:00 on the first Sunday of November. */
  lemma FallBack(y: int)
    ensures var sunday := NthSunday(y, 11, 1);
            && ToEastern(DstEnd(y) - 1) == Days(sunday) + Hours(2) - 1
            && ToEastern(DstEnd(y)) == Days(sunday) + Hours(1)
  {
    hide YearOf, YearStart, NthSunday;
    DstWithinYear(y);
    DstIff(DstEnd(y), y);
    DstIff(DstEnd(y) - 1, y);
  }

  /** The day numbers of the early closes; none is a weekend, and each has a holiday beside it. */
  lemma EarlyDays(d: Date) returns (eve: Date)
    requires d == Date(2026, 11, 27) || d == Date(2026, 12, 24) || d == Date(2027, 11, 26)
    ensures ValidDate(d) && 1 <= Weekday(DayNumber(d)) <= 5
    ensures ValidDate(eve) && eve in HOLIDAYS
    ensures DayNumber(eve) == DayNumber(d) - 1 || DayNumber(eve) == DayNumber(d) + 1
  {
    hide YearStart, IsLeap;
    TableYears();
    eve := Date(d.year, d.month, d.day + if d.month == 11 then -1 else 1);
    assert HOLIDAYS[8] == Date(2026, 11, 26) && HOLIDAYS[9] == Date(2026, 12, 25) && HOLIDAYS[18] == Date(2027, 11, 25);
  }

  /**
   * Early closes are no holidays in disguise: each is a trading day next to a holiday, on which regular trading ends at 13:00
   * and everything at 17:00.
   */
  lemma EarlyCloses(d: Date)
    requires d in EARLY_CLOSES
    ensures ValidDate(d)
    ensures var day := DayNumber(d);
            && IsTradingDay(day) && (IsHoliday(day - 1) || IsHoliday(day + 1))
            && RegularClose(day) == Hours(13) && PostEnd(day) == Hours(17)
  {
    hide YearStart, IsLeap, DateOf, DayNumber;
    var eve := EarlyDays(d);
    DateOfDayNumber(d);
    DateOfDayNumber(eve);
  }

  /** On all other days regular trading ends at 16:00 and everything at 20:00. */
  lemma NormalCloses(day: int)
    requires DateOf(day) !in {Date(2026, 11, 27), Date(2026, 12, 24), Date(2027, 11, 26)}
    ensures RegularClose(day) == Hours(16) && PostEnd(day) == Hours(20)
  {
    hide DateOf;
  }

  /** The `n`-th such weekday of the month. */
  predicate IsNth(d: Date, year: int, month: int, weekday: int, n: int) {
    && d.year == year && d.month == month && 7 * (n - 1) < d.day <= 7 * n
    && 1 <= d.month <= 12 && Weekday(DayNumber(d)) == weekday
  }

  /** A fixed date, or the Friday before if it is a Saturday and the Monday after if it is a Sunday. */
  predicate IsObserved(d: Date, year: int, month: int, day: int)
    requires 1 <= month <= 12
  {
    var weekday := Weekday(DayNumber(Date(year, month, day)));
    d == Date(year, month, if weekday == SATURDAY then day - 1 else if weekday == SUNDAY then day + 1 else day)
  }

  /**
   * The built-in holidays of either year are those of the exchange's rules: four fixed dates as observed, the third Mondays
   * of January and February, the last Monday of May, the first of September, the fourth Thursday of November, and one Friday
   * around Easter.
   */
  lemma HolidayRules(y: int)
    requires y == 2026 || y == 2027
    ensures var h := if y == 2026 then HOLIDAYS[..10] else HOLIDAYS[10..];
            && |h| == 10
            && IsObserved(h[0], y, 1, 1)
            && IsNth(h[1], y, 1, 1, 3)
            && IsNth(h[2], y, 2, 1, 3)
            && (IsNth(h[3], y, 3, 5, 4) || IsNth(h[3], y, 4, 5, 1))
            && (IsNth(h[4], y, 5, 1, 4) || IsNth(h[4], y, 5, 1, 5)) && h[4].day + 7 > 31
            && IsObserved(h[5], y, 6, 19)
            && IsObserved(h[6], y, 7, 4)
            && IsNth(h[7], y, 9, 1, 1)
            && IsNth(h[8], y, 11, 4, 4)
            && IsObserved(h[9], y, 12, 25)
  {
    hide DayNumber, DateOf, IsNth, IsObserved;
    var h := if y == 2026 then HOLIDAYS[..10] else HOLIDAYS[10..];
    Moving(y);
    Fixed(y);
  }

  lemma WeekdayIn(y: int, month: int, day: int)
    requires (y == 2026 || y == 2027) && 1 <= month <= 12
    ensures Weekday(DayNumber(Date(y, month, day)))
            == ((if y == 2026 then 4 else 5) + MonthStart(false, month) + day - 1) % 7
  {
    hide YearStart, IsLeap, DateOf;
    TableYears();
  }

  lemma Moving(y: int)
    requires y == 2026 || y == 2027
    ensures var h := if y == 2026 then HOLIDAYS[..10] else HOLIDAYS[10..];
            && IsNth(h[1], y, 1, 1, 3) && IsNth(h[2], y, 2, 1, 3)
            && (IsNth(h[3], y, 3, 5, 4) || IsNth(h[3], y, 4, 5, 1))
            && (IsNth(h[4], y, 5, 1, 4) || IsNth(h[4], y, 5, 1, 5)) && h[4].day + 7 > 31
            && IsNth(h[7], y, 9, 1, 1) && IsNth(h[8], y, 11, 4, 4)
  {
    hide DayNumber, DateOf, Weekday;
    var h := if y == 2026 then HOLIDAYS[..10] else HOLIDAYS[10..];
    WeekdayIn(y, 1, h[1].day);
    WeekdayIn(y, 2, h[2].day);
    WeekdayIn(y, h[3].month, h[3].day);
    WeekdayIn(y, 5, h[4].day);
    WeekdayIn(y, 9, h[7].day);
    WeekdayIn(y, 11, h[8].day);
  }

  lemma Fixed(y: int)
    requires y == 2026 || y == 2027
    ensures var h := if y == 2026 then HOLIDAYS[..10] else HOLIDAYS[10..];
            IsObserved(h[0], y, 1, 1) && IsObserved(h[5], y, 6, 19) && IsObserved(h[6], y, 7, 4) && IsObserved(h[9], y, 12, 25)
  {
    hide DayNumber, DateOf, Weekday;
    WeekdayIn(y, 1, 1);
    WeekdayIn(y, 6, 19);
    WeekdayIn(y, 7, 4);
    WeekdayIn(y, 12, 25);
  }
}
