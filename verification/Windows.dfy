/** Calendar windows that usage counters belong to, and their text form in the database. */
module Windows {
  import opened Calendar
  import opened Decimal
  import opened Text
  import opened Wrappers

  datatype WindowKey = Day(date: string) | Month(month: string)

  function TwoDigits(n: nat): string {
    PadLeft(Digits(n), 2)
  }

  /** `%Y`: four digits, with a sign outside 0 to 9999. */
  function SignedYear(y: int): string {
    if y > 9999 then "+" + Digits(y)
    else if y >= 0 then PadLeft(Digits(y), 4)
    else "-" + PadLeft(Digits(-y), 4)
  }

  /** `{:04}`: at least four characters, a minus sign included. */
  function PaddedYear(y: int): string {
    if y >= 0 then PadLeft(Digits(y), 4) else "-" + PadLeft(Digits(-y), 3)
  }

  function DayText(d: Date): string
    requires ValidDate(d)
  {
    SignedYear(d.year) + "-" + TwoDigits(d.month) + "-" + TwoDigits(d.day)
  }

  function MonthText(d: Date): string
    requires ValidDate(d)
  {
    PaddedYear(d.year) + "-" + TwoDigits(d.month)
  }

  /** The UTC date of an instant. */
  function Today(now: int): (d: Date)
    ensures ValidDate(d)
  {
    DateOf(DayOf(now))
  }

  function DayKey(now: int): WindowKey {
    Day(DayText(Today(now)))
  }

  function MonthKey(now: int): WindowKey {
    Month(MonthText(Today(now)))
  }

  /** The month a day's text belongs to: everything before `-DD`. */
  function MonthOf(day: string): string {
    if |day| >= 3 then day[..|day| - 3] else day
  }

  function WKey(w: WindowKey): string {
    match w
    case Day(d) => "D:" + d
    case Month(m) => "M:" + m
  }

  function ParseWKey(s: string): Option<WindowKey> {
    match SplitOnce(s, ':')
    case None => None
    case Some((kind, rest)) =>
      if kind == "D" then Some(Day(rest)) else if kind == "M" then Some(Month(rest)) else None
  }

  /** Text form and parser are inverse to each other, whatever the window's own text contains. */
  lemma WKeyRoundTrip(w: WindowKey, s: string)
    ensures ParseWKey(WKey(w)) == Some(w)
    ensures ParseWKey(s) == Some(w) <==> s == WKey(w)
  {
    SplitOnceJoined("D", ':', if w.Day? then w.date else "");
    SplitOnceJoined("M", ':', if w.Month? then w.month else "");
    assert WKey(w) == (if w.Day? then "D" else "M") + [':'] + if w.Day? then w.date else w.month;
    if ParseWKey(s) == Some(w) {
      var (kind, rest) := SplitOnce(s, ':').value;
      assert s == kind + [':'] + rest;
    }
  }

  predicate FourDigitYear(now: int) {
    0 <= Today(now).year <= 9999
  }

  lemma PadInjective(a: nat, b: nat, width: nat)
    requires a < Shift(1, width) && b < Shift(1, width) && width > 0
    ensures |PadLeft(Digits(a), width)| == |PadLeft(Digits(b), width)| == width
    ensures PadLeft(Digits(a), width) == PadLeft(Digits(b), width) ==> a == b
  {
    PadWidth(a, width);
    PadWidth(b, width);
    PadValue(a, width);
    PadValue(b, width);
  }

  /** The text of a day starts with the text of its month. */
  lemma DayWithinMonth(now: int)
    requires FourDigitYear(now)
    ensures MonthOf(DayKey(now).date) == MonthKey(now).month
  {
    hide DateOf, Digits, PadLeft;
    var d := Today(now);
    ShortNumbers();
    PadWidth(d.day, 2);
    var head := SignedYear(d.year) + "-" + TwoDigits(d.month);
    assert DayText(d) == head + "-" + TwoDigits(d.day);
  }

  lemma ShortNumbers()
    ensures Shift(1, 2) == 100 && Shift(1, 4) == 10000
  {
    assert Shift(1, 1) == 10;
    assert Shift(1, 3) == 1000;
  }

  /** Two instants share a day window exactly if they fall on one UTC date, a month window if in one calendar month. */
  lemma WindowsAreCalendar(t: int, u: int)
    requires FourDigitYear(t) && FourDigitYear(u)
    ensures DayKey(t) == DayKey(u) <==> DayOf(t) == DayOf(u)
    ensures MonthKey(t) == MonthKey(u) <==> Today(t).year == Today(u).year && Today(t).month == Today(u).month
  {
    hide DateOf, DayNumber, Digits, PadLeft;
    var d, e := Today(t), Today(u);
    assert DayOf(t) == DayNumber(d) && DayOf(u) == DayNumber(e);
    ShortNumbers();
    PadInjective(d.year, e.year, 4);
    PadInjective(d.month, e.month, 2);
    PadInjective(d.day, e.day, 2);
    SameParts(SignedYear(d.year), TwoDigits(d.month), TwoDigits(d.day), SignedYear(e.year), TwoDigits(e.month), TwoDigits(e.day));
  }

  /** Texts of parts of fixed length are the same only if the parts are. */
  lemma SameParts(y: string, m: string, d: string, y': string, m': string, d': string)
    requires |y| == |y'| && |m| == |m'|
    ensures y + "-" + m == y' + "-" + m' ==> y == y' && m == m'
    ensures y + "-" + m + "-" + d == y' + "-" + m' + "-" + d' ==> y == y' && m == m' && d == d'
  {
    if y + "-" + m == y' + "-" + m' {
      assert y == (y + "-" + m)[..|y|] && m == (y + "-" + m)[|y| + 1..];
      assert y' == (y' + "-" + m')[..|y|] && m' == (y' + "-" + m')[|y| + 1..];
    }
    if y + "-" + m + "-" + d == y' + "-" + m' + "-" + d' {
      var a, b := y + "-" + m, y' + "-" + m';
      assert a == (a + "-" + d)[..|a|] && d == (a + "-" + d)[|a| + 1..];
      assert b == (b + "-" + d')[..|a|] && d' == (b + "-" + d')[|a| + 1..];
      assert y == a[..|y|] && m == a[|y| + 1..];
      assert y' == b[..|y|] && m' == b[|y| + 1..];
    }
  }

  lemma MonthsInOrder(m: int, n: int)
    requires m <= n
    ensures DateOf(m).year <= DateOf(n).year
    ensures DateOf(m).year == DateOf(n).year ==> DateOf(m).month <= DateOf(n).month
  {
    hide DateOf, YearStart, IsLeap;
    var d, e := DateOf(m), DateOf(n);
    YearHolds(d);
    YearHolds(e);
    if d.year > e.year {
      YearsOrdered(e.year, d.year);
    } else if d.year == e.year && d.month > e.month {
      MonthsOrdered(IsLeap(d.year), e.month + 1, d.month);
    }
  }

  /** The instants of a window form an interval: time that has left a day or a month does not return to it. */
  lemma WindowsAreIntervals(a: int, b: int, c: int)
    requires a <= b <= c && FourDigitYear(a) && FourDigitYear(b) && FourDigitYear(c)
    ensures DayKey(a) == DayKey(c) ==> DayKey(b) == DayKey(a)
    ensures MonthKey(a) == MonthKey(c) ==> MonthKey(b) == MonthKey(a)
  {
    hide DateOf, DayKey, MonthKey;
    WindowsAreCalendar(a, c);
    WindowsAreCalendar(a, b);
    MonthsInOrder(DayOf(a), DayOf(b));
    MonthsInOrder(DayOf(b), DayOf(c));
  }

  /** The first day of the epoch and its month, as texts. */
  lemma EpochTexts()
    ensures var d := Date(1970, 1, 1);
            WKey(Day(DayText(d))) == "D:1970-01-01" && WKey(Month(MonthText(d))) == "M:1970-01"
  {
    hide Digits;
    EpochDigits();
    var d := Date(1970, 1, 1);
    assert DayText(d) == "1970" + "-" + "01" + "-" + "01" && MonthText(d) == "1970" + "-" + "01";
  }

  lemma EpochDigits()
    ensures PadLeft(Digits(1), 2) == "01" && PadLeft(Digits(1970), 4) == "1970"
  {
    assert Digits(1) == "1";
    assert Digits(19) == "19";
    assert Digits(197) == "197";
    assert Digits(1970) == "1970";
  }
}
