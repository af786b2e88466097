/**
 * Bikram Sambat (Nepali) calendar converter.
 *
 * A Gregorian calendar day is an integer: the number of days since
 * 1970-01-01, which is what the source obtains by normalising both dates to
 * UTC midnight and dividing their difference by the length of a day. The
 * converter walks month by month from the fixed anchor BS 2081/01/01 =
 * 13 April 2024 through a table of month lengths for BS 2070 to 2090.
 */
module NepaliCalendar {
  import opened Optional
  import opened Text

  // ---------------------------------------------------------------------
  // Calendar table and reference correspondence
  // ---------------------------------------------------------------------

  /** The number of days of each of the 12 months of every tabulated BS year. */
  const MonthDays: map<int, seq<int>> := map[
    2070 := [31, 31, 32, 31, 31, 31, 30, 29, 30, 29, 30, 30],
    2071 := [31, 31, 32, 31, 31, 31, 30, 29, 30, 29, 30, 30],
    2072 := [31, 32, 31, 32, 31, 30, 30, 29, 30, 29, 30, 30],
    2073 := [31, 32, 31, 32, 31, 30, 30, 30, 29, 29, 30, 31],
    2074 := [31, 31, 31, 32, 31, 31, 30, 29, 30, 29, 30, 30],
    2075 := [31, 31, 32, 31, 31, 31, 30, 29, 30, 29, 30, 30],
    2076 := [31, 32, 31, 32, 31, 30, 30, 30, 29, 29, 30, 30],
    2077 := [31, 32, 31, 32, 31, 30, 30, 30, 29, 30, 29, 31],
    2078 := [31, 31, 31, 32, 31, 31, 30, 29, 30, 29, 30, 30],
    2079 := [31, 31, 32, 31, 31, 31, 30, 29, 30, 29, 30, 30],
    2080 := [31, 32, 31, 32, 31, 30, 30, 30, 29, 29, 30, 30],
    2081 := [31, 32, 31, 32, 31, 30, 30, 30, 29, 30, 29, 31],
    2082 := [31, 31, 32, 31, 31, 31, 30, 29, 30, 29, 30, 30],
    2083 := [31, 31, 32, 31, 32, 30, 30, 29, 30, 29, 30, 30],
    2084 := [31, 32, 31, 32, 31, 30, 30, 30, 29, 29, 30, 31],
    2085 := [30, 32, 31, 32, 31, 30, 30, 30, 29, 30, 29, 31],
    2086 := [31, 31, 32, 31, 31, 31, 30, 29, 30, 29, 30, 30],
    2087 := [31, 31, 32, 32, 31, 30, 30, 29, 30, 29, 30, 30],
    2088 := [31, 32, 31, 32, 31, 30, 30, 30, 29, 29, 30, 31],
    2089 := [30, 32, 31, 32, 31, 31, 29, 30, 30, 29, 29, 31],
    2090 := [31, 31, 32, 31, 31, 31, 30, 29, 30, 29, 30, 30]
  ]

  const MinYear := 2070
  const MaxYear := 2090

  const ReferenceNepaliYear := 2081
  const ReferenceNepaliMonth := 1
  const ReferenceNepaliDay := 1
  /** 13 April 2024, as days since 1970-01-01. */
  const ReferenceEnglishDay := 19826

  datatype NepaliDate = NepaliDate(year: int, month: int, day: int)

  predicate ValidRow(row: seq<int>) {
    |row| == 12 && forall i :: 0 <= i < 12 ==> 29 <= row[i] <= 32
  }

  /**
   * A month table: a row for exactly the years MinYear..MaxYear, each row 12
   * month lengths of 29 to 32 days. The walk and its proofs are stated for
   * any such table and used with MonthDays.
   */
  ghost predicate IsMonthTable(t: map<int, seq<int>>) {
    && (forall y :: y in t <==> MinYear <= y <= MaxYear)
    && (forall y :: y in t ==> ValidRow(t[y]))
  }

  /** The table covers exactly BS 2070..2090, 12 months each of 29 to 32 days. */
  lemma TableShape()
    ensures IsMonthTable(MonthDays)
  {
    TableKeys();
    TableRowsFirst();
    TableRowsSecond();
    TableRowsThird();
    TableRowsFourth();
  }

  lemma TableKeys()
    ensures forall y :: y in MonthDays <==> MinYear <= y <= MaxYear
  {
  }

  /** The rows of BS 2070 to 2075. */
  lemma TableRowsFirst()
    ensures forall y :: MinYear <= y <= 2075 ==> y in MonthDays && ValidRow(MonthDays[y])
  {
  }

  /** The rows of BS 2076 to 2080. */
  lemma TableRowsSecond()
    ensures forall y :: 2075 < y <= 2080 ==> y in MonthDays && ValidRow(MonthDays[y])
  {
  }

  /** The rows of BS 2081 to 2085. */
  lemma TableRowsThird()
    ensures forall y :: 2080 < y <= 2085 ==> y in MonthDays && ValidRow(MonthDays[y])
  {
  }

  /** The rows of BS 2086 to 2090. */
  lemma TableRowsFourth()
    ensures forall y :: 2085 < y <= MaxYear ==> y in MonthDays && ValidRow(MonthDays[y])
  {
  }

  function DaysInMonth(t: map<int, seq<int>>, year: int, month: int): (d: int)
    requires IsMonthTable(t) && year in t && 1 <= month <= 12
    ensures 29 <= d <= 32
  {
    t[year][month - 1]
  }

  predicate ValidDate(t: map<int, seq<int>>, d: NepaliDate)
    requires IsMonthTable(t)
  {
    d.year in t && 1 <= d.month <= 12 && 1 <= d.day <= DaysInMonth(t, d.year, d.month)
  }

  // ---------------------------------------------------------------------
  // Days, year totals
  // ---------------------------------------------------------------------

  /** Whole days from `date2` to `date1`; both are calendar days, so this is exact. */
  function DaysDifference(date1: int, date2: int): (diff: int)
    ensures diff == 0 <==> date1 == date2
    ensures diff > 0 <==> date1 > date2
    ensures date2 + diff == date1
  {
    date1 - date2
  }

  /** Left-to-right sum, as `reduce((a, b) => a + b, 0)`. */
  function Sum(s: seq<int>): int
    decreases |s|
  {
    if s == [] then 0 else Sum(s[..|s| - 1]) + s[|s| - 1]
  }

  /** `getTotalDaysInYear`: the days of a BS year; 365 for a year outside the table. */
  function TotalDaysInYear(year: int): int {
    if year in MonthDays then Sum(MonthDays[year]) else 365
  }

  // ---------------------------------------------------------------------
  // The walk, as functions
  // ---------------------------------------------------------------------

  /** The forward loop: roll whole months off `day` while the year is tabulated. */
  function WalkForward(t: map<int, seq<int>>, year: int, month: int, day: int): (r: NepaliDate)
    requires IsMonthTable(t) && 1 <= month <= 12 && day >= 1
    ensures 1 <= r.month <= 12 && r.day >= 1 && r.year >= year
    decreases day
  {
    if year !in t then NepaliDate(year, month, day)
    else
      var daysInCurrentMonth := DaysInMonth(t, year, month);
      if day <= daysInCurrentMonth then NepaliDate(year, month, day)
      else if month + 1 > 12 then WalkForward(t, year + 1, 1, day - daysInCurrentMonth)
      else WalkForward(t, year, month + 1, day - daysInCurrentMonth)
  }

  /**
   * The backward loop: count `remaining` days down from `day`, stepping to the
   * previous month's last day when the count reaches past the first; when the
   * previous month's year is not tabulated, `day` keeps its value.
   */
  function WalkBackward(t: map<int, seq<int>>, year: int, month: int, day: int, remaining: nat): (r: NepaliDate)
    requires IsMonthTable(t) && 1 <= month <= 12 && day >= 1
    ensures 1 <= r.month <= 12 && r.day >= 1
    ensures year >= MinYear - 1 ==> r.year >= MinYear - 1
    decreases remaining
  {
    if remaining == 0 || year !in t then NepaliDate(year, month, day)
    else if day > remaining then WalkBackward(t, year, month, day - remaining, 0)
    else
      var y := if month - 1 < 1 then year - 1 else year;
      var m := if month - 1 < 1 then 12 else month - 1;
      var d := if y in t then DaysInMonth(t, y, m) else day;
      WalkBackward(t, y, m, d, remaining - day)
  }

  /** The BS date `daysDiff` days after the anchor, as the two loops compute it. */
  function Convert(t: map<int, seq<int>>, daysDiff: int): (r: NepaliDate)
    requires IsMonthTable(t)
    ensures 1 <= r.month <= 12 && r.day >= 1 && r.year >= MinYear - 1
  {
    if daysDiff >= 0 then WalkForward(t, ReferenceNepaliYear, ReferenceNepaliMonth, ReferenceNepaliDay + daysDiff)
    else WalkBackward(t, ReferenceNepaliYear, ReferenceNepaliMonth, ReferenceNepaliDay, -daysDiff)
  }

  // ---------------------------------------------------------------------
  // The walk, as a loop
  // ---------------------------------------------------------------------

  /** `convertToNepaliDate`: the BS date of a Gregorian calendar day. */
  method ConvertToNepaliDate(englishDay: int) returns (r: NepaliDate)
    ensures IsMonthTable(MonthDays) && r == Convert(MonthDays, englishDay - ReferenceEnglishDay)
    ensures var diff := englishDay - ReferenceEnglishDay;
      && (TableStart(MonthDays) <= diff < TableEnd(MonthDays) ==> ValidDate(MonthDays, r) && DayOffset(MonthDays, r) == diff)
      && (diff >= TableEnd(MonthDays) ==> r == NepaliDate(MaxYear + 1, 1, diff - TableEnd(MonthDays) + 1))
      && (diff < TableStart(MonthDays) ==> r == NepaliDate(MinYear - 1, 12, DaysInMonth(MonthDays, MinYear, 1)))
  {
    TableShape();
    var daysDiff := DaysDifference(englishDay, ReferenceEnglishDay);
    ghost var diff := daysDiff;
    var nepaliYear := ReferenceNepaliYear;
    var nepaliMonth := ReferenceNepaliMonth;
    var nepaliDay := ReferenceNepaliDay;

    if daysDiff >= 0 {
      nepaliDay := nepaliDay + daysDiff;
      while nepaliYear in MonthDays
        invariant 1 <= nepaliMonth <= 12 && nepaliDay >= 1
        invariant WalkForward(MonthDays, nepaliYear, nepaliMonth, nepaliDay) == Convert(MonthDays, diff)
        decreases nepaliDay
      {
        var daysInCurrentMonth := DaysInMonth(MonthDays, nepaliYear, nepaliMonth);
        if nepaliDay <= daysInCurrentMonth {
          break;
        }
        nepaliDay := nepaliDay - daysInCurrentMonth;
        nepaliMonth := nepaliMonth + 1;
        if nepaliMonth > 12 {
          nepaliMonth := 1;
          nepaliYear := nepaliYear + 1;
        }
      }
    } else {
      daysDiff := -daysDiff;
      while daysDiff > 0 && nepaliYear in MonthDays
        invariant 1 <= nepaliMonth <= 12 && nepaliDay >= 1 && daysDiff >= 0
        invariant WalkBackward(MonthDays, nepaliYear, nepaliMonth, nepaliDay, daysDiff) == Convert(MonthDays, diff)
        decreases daysDiff
      {
        if nepaliDay > daysDiff {
          nepaliDay := nepaliDay - daysDiff;
          daysDiff := 0;
        } else {
          daysDiff := daysDiff - nepaliDay;
          nepaliMonth := nepaliMonth - 1;
          if nepaliMonth < 1 {
            nepaliMonth := 12;
            nepaliYear := nepaliYear - 1;
          }
          if nepaliYear in MonthDays {
            nepaliDay := DaysInMonth(MonthDays, nepaliYear, nepaliMonth);
          }
        }
      }
    }
    r := NepaliDate(nepaliYear, nepaliMonth, nepaliDay);
    ConvertCorrect(MonthDays, diff);
  }

  // ---------------------------------------------------------------------
  // What the walk means: day offsets from the anchor
  // ---------------------------------------------------------------------

  /** Months counted from BS 2081/01 (negative before it). */
  function MonthIndex(year: int, month: int): int {
    (year - ReferenceNepaliYear) * 12 + (month - 1)
  }

  /** The tabulated months and the month just after them, BS 2091/01. */
  predicate InSpan(year: int, month: int) {
    (MinYear <= year <= MaxYear && 1 <= month <= 12) || (year == MaxYear + 1 && month == 1)
  }

  /** Signed number of days from the anchor to the first day of a month. */
  function MonthStart(t: map<int, seq<int>>, year: int, month: int): int
    requires IsMonthTable(t) && InSpan(year, month)
    decreases if MonthIndex(year, month) >= 0 then MonthIndex(year, month) else -MonthIndex(year, month)
  {
    var i := MonthIndex(year, month);
    if i == 0 then 0
    else if i > 0 then
      var py := if month == 1 then year - 1 else year;
      var pm := if month == 1 then 12 else month - 1;
      MonthStart(t, py, pm) + DaysInMonth(t, py, pm)
    else
      var ny := if month == 12 then year + 1 else year;
      var nm := if month == 12 then 1 else month + 1;
      MonthStart(t, ny, nm) - DaysInMonth(t, year, month)
  }

  /** The offset of BS 2070/01/01, the first tabulated day. */
  function TableStart(t: map<int, seq<int>>): int
    requires IsMonthTable(t)
  {
    MonthStart(t, MinYear, 1)
  }

  /** The offset of BS 2091/01/01, the first day past the table. */
  function TableEnd(t: map<int, seq<int>>): int
    requires IsMonthTable(t)
  {
    MonthStart(t, MaxYear + 1, 1)
  }

  /** Signed number of days from the anchor to `d`. */
  function DayOffset(t: map<int, seq<int>>, d: NepaliDate): int
    requires IsMonthTable(t) && InSpan(d.year, d.month)
  {
    MonthStart(t, d.year, d.month) + d.day - 1
  }

  /** The next month starts one month length after this one. */
  lemma MonthStartStep(t: map<int, seq<int>>, year: int, month: int)
    requires IsMonthTable(t) && year in t && 1 <= month <= 12
    ensures var ny := if month == 12 then year + 1 else year;
      var nm := if month == 12 then 1 else month + 1;
      InSpan(ny, nm) && MonthStart(t, ny, nm) == MonthStart(t, year, month) + DaysInMonth(t, year, month)
  {
  }

  /** Month starts are at least 29 days apart per month. */
  lemma {:induction false} MonthStartGrows(t: map<int, seq<int>>, y1: int, m1: int, y2: int, m2: int)
    requires IsMonthTable(t) && InSpan(y1, m1) && InSpan(y2, m2)
    requires MonthIndex(y1, m1) <= MonthIndex(y2, m2)
    ensures MonthStart(t, y1, m1) + 29 * (MonthIndex(y2, m2) - MonthIndex(y1, m1)) <= MonthStart(t, y2, m2)
    decreases MonthIndex(y2, m2) - MonthIndex(y1, m1)
  {
    if MonthIndex(y1, m1) < MonthIndex(y2, m2) {
      var py := if m2 == 1 then y2 - 1 else y2;
      var pm := if m2 == 1 then 12 else m2 - 1;
      assert MonthIndex(py, pm) == MonthIndex(y2, m2) - 1;
      MonthStartGrows(t, y1, m1, py, pm);
      MonthStartStep(t, py, pm);
      assert MonthStart(t, y2, m2) == MonthStart(t, py, pm) + DaysInMonth(t, py, pm);
    } else {
      assert y1 == y2 && m1 == m2;
    }
  }

  /** A valid date lies within its month: before the next month's first day. */
  lemma OffsetWithinMonth(t: map<int, seq<int>>, d: NepaliDate)
    requires IsMonthTable(t) && ValidDate(t, d)
    ensures InSpan(d.year, d.month)
    ensures var ny := if d.month == 12 then d.year + 1 else d.year;
      var nm := if d.month == 12 then 1 else d.month + 1;
      InSpan(ny, nm) && MonthStart(t, d.year, d.month) <= DayOffset(t, d) < MonthStart(t, ny, nm)
  {
    MonthStartStep(t, d.year, d.month);
  }

  lemma {:induction false} WalkForwardCorrect(t: map<int, seq<int>>, year: int, month: int, day: int)
    requires IsMonthTable(t) && year in t && 1 <= month <= 12 && day >= 1
    ensures InSpan(year, month)
    ensures var r := WalkForward(t, year, month, day);
      var target := MonthStart(t, year, month) + day - 1;
      && InSpan(r.year, r.month) && DayOffset(t, r) == target
      && (r.year in t <==> target < TableEnd(t))
      && (r.year in t ==> ValidDate(t, r))
      && (r.year !in t ==> r.year == MaxYear + 1 && r.month == 1)
    decreases day
  {
    var ny := if month == 12 then year + 1 else year;
    var nm := if month == 12 then 1 else month + 1;
    MonthStartStep(t, year, month);
    MonthStartGrows(t, ny, nm, MaxYear + 1, 1);
    var len := DaysInMonth(t, year, month);
    if day > len {
      if ny in t {
        WalkForwardCorrect(t, ny, nm, day - len);
      }
    }
  }

  lemma {:induction false} WalkBackwardCorrect(t: map<int, seq<int>>, year: int, month: int, day: int, remaining: nat)
    requires IsMonthTable(t) && ValidDate(t, NepaliDate(year, month, day))
    requires remaining > 0 && year == MinYear && month == 1 ==> day == DaysInMonth(t, year, month)
    ensures InSpan(year, month)
    ensures var r := WalkBackward(t, year, month, day, remaining);
      var target := DayOffset(t, NepaliDate(year, month, day)) - remaining;
      && (r.year in t <==> target >= TableStart(t))
      && (r.year in t ==> ValidDate(t, r) && DayOffset(t, r) == target)
      && (r.year !in t ==> r == NepaliDate(MinYear - 1, 12, DaysInMonth(t, MinYear, 1)))
    decreases remaining
  {
    OffsetWithinMonth(t, NepaliDate(year, month, day));
    MonthStartGrows(t, MinYear, 1, year, month);
    if remaining == 0 {
    } else if day > remaining {
      BackwardWithinMonth(t, year, month, day, remaining);
    } else {
      var py := if month - 1 < 1 then year - 1 else year;
      var pm := if month - 1 < 1 then 12 else month - 1;
      if py in t {
        BackwardStep(t, year, month, day, remaining);
        WalkBackwardCorrect(t, py, pm, DaysInMonth(t, py, pm), remaining - day);
      } else {
        BackwardLeavesTable(t, year, month, day, remaining);
      }
    }
  }

  /** Going back at least the day of the month: the walk moves to the last day of the previous month. */
  lemma BackwardStep(t: map<int, seq<int>>, year: int, month: int, day: int, remaining: nat)
    requires IsMonthTable(t) && ValidDate(t, NepaliDate(year, month, day))
    requires 0 < day <= remaining
    requires (if month - 1 < 1 then year - 1 else year) in t
    ensures var py := if month - 1 < 1 then year - 1 else year;
      var pm := if month - 1 < 1 then 12 else month - 1;
      var len := DaysInMonth(t, py, pm);
      && InSpan(year, month) && ValidDate(t, NepaliDate(py, pm, len))
      && WalkBackward(t, year, month, day, remaining) == WalkBackward(t, py, pm, len, remaining - day)
      && DayOffset(t, NepaliDate(py, pm, len)) - (remaining - day) == DayOffset(t, NepaliDate(year, month, day)) - remaining
  {
    var py := if month - 1 < 1 then year - 1 else year;
    var pm := if month - 1 < 1 then 12 else month - 1;
    MonthStartStep(t, py, pm);
  }

  /** Fewer days to go back than the day of the month: the walk stays in the month. */
  lemma BackwardWithinMonth(t: map<int, seq<int>>, year: int, month: int, day: int, remaining: nat)
    requires IsMonthTable(t) && ValidDate(t, NepaliDate(year, month, day))
    requires 0 < remaining < day
    ensures InSpan(year, month)
    ensures var r := WalkBackward(t, year, month, day, remaining);
      && r == NepaliDate(year, month, day - remaining) && r.year in t && ValidDate(t, r)
      && DayOffset(t, r) == DayOffset(t, NepaliDate(year, month, day)) - remaining
      && DayOffset(t, r) >= TableStart(t)
  {
    MonthStartGrows(t, MinYear, 1, year, month);
    assert WalkBackward(t, year, month, day, remaining) == WalkBackward(t, year, month, day - remaining, 0);
  }

  /** Going back past BS 2070/01/01 leaves the table with the day the walk held. */
  lemma BackwardLeavesTable(t: map<int, seq<int>>, year: int, month: int, day: int, remaining: nat)
    requires IsMonthTable(t) && ValidDate(t, NepaliDate(year, month, day))
    requires 0 < day <= remaining
    requires (if month - 1 < 1 then year - 1 else year) !in t
    requires year == MinYear && month == 1 ==> day == DaysInMonth(t, year, month)
    ensures InSpan(year, month)
    ensures var r := WalkBackward(t, year, month, day, remaining);
      && r == NepaliDate(MinYear - 1, 12, DaysInMonth(t, MinYear, 1)) && r.year !in t
      && DayOffset(t, NepaliDate(year, month, day)) - remaining < TableStart(t)
  {
    assert year == MinYear && month == 1;
    assert WalkBackward(t, year, month, day, remaining) == WalkBackward(t, year - 1, 12, day, remaining - day);
  }

  /**
   * The converter's result, for every day difference: inside the table it is
   * the valid date exactly `daysDiff` days from the anchor; past the table's
   * end it is BS 2091/01 with the leftover days; before its start it is
   * BS 2069/12 with the day the walk last held, the length of BS 2070/01.
   */
  lemma ConvertCorrect(t: map<int, seq<int>>, daysDiff: int)
    requires IsMonthTable(t)
    ensures var r := Convert(t, daysDiff);
      && (TableStart(t) <= daysDiff < TableEnd(t) ==> ValidDate(t, r) && DayOffset(t, r) == daysDiff)
      && (daysDiff >= TableEnd(t) ==> r == NepaliDate(MaxYear + 1, 1, daysDiff - TableEnd(t) + 1))
      && (daysDiff < TableStart(t) ==> r == NepaliDate(MinYear - 1, 12, DaysInMonth(t, MinYear, 1)))
  {
    MonthStartGrows(t, MinYear, 1, ReferenceNepaliYear, ReferenceNepaliMonth);
    MonthStartGrows(t, ReferenceNepaliYear, ReferenceNepaliMonth, MaxYear + 1, 1);
    if daysDiff >= 0 {
      WalkForwardCorrect(t, ReferenceNepaliYear, ReferenceNepaliMonth, ReferenceNepaliDay + daysDiff);
    } else {
      WalkBackwardCorrect(t, ReferenceNepaliYear, ReferenceNepaliMonth, ReferenceNepaliDay, -daysDiff);
    }
  }

  /** Lexicographic order on (year, month, day). */
  predicate EarlierThan(a: NepaliDate, b: NepaliDate) {
    a.year < b.year || (a.year == b.year && (a.month < b.month || (a.month == b.month && a.day < b.day)))
  }

  /** Day offsets grow strictly along the calendar. */
  lemma OffsetOrder(t: map<int, seq<int>>, a: NepaliDate, b: NepaliDate)
    requires IsMonthTable(t) && ValidDate(t, a) && ValidDate(t, b) && EarlierThan(a, b)
    ensures InSpan(a.year, a.month) && InSpan(b.year, b.month)
    ensures DayOffset(t, a) < DayOffset(t, b)
  {
    OffsetWithinMonth(t, a);
    OffsetWithinMonth(t, b);
    if a.year != b.year || a.month != b.month {
      var ny := if a.month == 12 then a.year + 1 else a.year;
      var nm := if a.month == 12 then 1 else a.month + 1;
      MonthStartGrows(t, ny, nm, b.year, b.month);
    }
  }

  /** A day offset names at most one valid date. */
  lemma OffsetInjective(t: map<int, seq<int>>, a: NepaliDate, b: NepaliDate)
    requires IsMonthTable(t) && ValidDate(t, a) && ValidDate(t, b)
    requires InSpan(a.year, a.month) && InSpan(b.year, b.month) && DayOffset(t, a) == DayOffset(t, b)
    ensures a == b
  {
    if EarlierThan(a, b) {
      OffsetOrder(t, a, b);
    } else if EarlierThan(b, a) {
      OffsetOrder(t, b, a);
    }
  }

  /** A later Gregorian day inside the table gives a later BS date. */
  lemma ConvertMonotone(t: map<int, seq<int>>, d1: int, d2: int)
    requires IsMonthTable(t) && TableStart(t) <= d1 < d2 < TableEnd(t)
    ensures EarlierThan(Convert(t, d1), Convert(t, d2))
  {
    ConvertCorrect(t, d1);
    ConvertCorrect(t, d2);
    var a, b := Convert(t, d1), Convert(t, d2);
    if !EarlierThan(a, b) && a != b {
      assert EarlierThan(b, a);
      OffsetOrder(t, b, a);
    }
  }

  /**
   * Month-length boundary: `N` days after the first day of a month of `N`
   * days is the first day of the next month.
   */
  lemma RollOver(t: map<int, seq<int>>, year: int, month: int)
    requires IsMonthTable(t) && year in t && 1 <= month <= 12
    requires month == 12 ==> year + 1 in t
    ensures InSpan(year, month)
    ensures var next := if month == 12 then NepaliDate(year + 1, 1, 1) else NepaliDate(year, month + 1, 1);
      Convert(t, DayOffset(t, NepaliDate(year, month, 1)) + DaysInMonth(t, year, month)) == next
  {
    var next := if month == 12 then NepaliDate(year + 1, 1, 1) else NepaliDate(year, month + 1, 1);
    MonthStartStep(t, year, month);
    var target := DayOffset(t, NepaliDate(year, month, 1)) + DaysInMonth(t, year, month);
    assert DayOffset(t, next) == target;
    MonthStartGrows(t, MinYear, 1, next.year, next.month);
    OffsetWithinMonth(t, next);
    var nny := if next.month == 12 then next.year + 1 else next.year;
    var nnm := if next.month == 12 then 1 else next.month + 1;
    MonthStartGrows(t, nny, nnm, MaxYear + 1, 1);
    ConvertCorrect(t, target);
    OffsetInjective(t, Convert(t, target), next);
  }

  /** The anchor day and its two neighbours. */
  lemma AnchorNeighbours()
    ensures IsMonthTable(MonthDays)
    ensures Convert(MonthDays, 0) == NepaliDate(2081, 1, 1)
    ensures Convert(MonthDays, 1) == NepaliDate(2081, 1, 2)
    ensures Convert(MonthDays, -1) == NepaliDate(2080, 12, DaysInMonth(MonthDays, 2080, 12)) == NepaliDate(2080, 12, 30)
  {
    TableShape();
    assert WalkBackward(MonthDays, 2081, 1, 1, 1) == WalkBackward(MonthDays, 2080, 12, 30, 0);
  }

  /** A row's sum is the distance from its year's first day to the next year's. */
  lemma {:induction false} MonthStartsSumRow(t: map<int, seq<int>>, year: int, k: nat)
    requires IsMonthTable(t) && year in t && 1 <= k <= 12
    ensures InSpan(year, k) && |t[year]| == 12
    ensures MonthStart(t, year, k) - MonthStart(t, year, 1) == Sum(t[year][..k - 1])
  {
    if k > 1 {
      MonthStartsSumRow(t, year, k - 1);
      MonthStartStep(t, year, k - 1);
      assert t[year][..k - 1][..k - 2] == t[year][..k - 2];
    }
  }

  /** A tabulated year is as long as the distance between its first day and the next year's. */
  lemma YearSpan(t: map<int, seq<int>>, year: int)
    requires IsMonthTable(t) && year in t
    ensures InSpan(year, 1) && InSpan(year + 1, 1)
    ensures MonthStart(t, year + 1, 1) - MonthStart(t, year, 1) == Sum(t[year])
  {
    MonthStartsSumRow(t, year, 12);
    MonthStartStep(t, year, 12);
    var s := t[year];
    assert s == s[..11] + [s[11]];
  }

  /**
   * `getTotalDaysInYear`: a tabulated year is as long as the distance between
   * its first day and the next year's; any other year counts 365 days.
   */
  lemma YearLength(year: int)
    ensures IsMonthTable(MonthDays)
    ensures year !in MonthDays ==> TotalDaysInYear(year) == 365
    ensures year in MonthDays ==> (InSpan(year, 1) && InSpan(year + 1, 1) &&
      TotalDaysInYear(year) == MonthStart(MonthDays, year + 1, 1) - MonthStart(MonthDays, year, 1))
  {
    TableShape();
    if year in MonthDays {
      YearSpan(MonthDays, year);
    }
  }

  // ---------------------------------------------------------------------
  // Formatting
  // ---------------------------------------------------------------------

  const Suffix := " B.S."

  /** `String(n).padStart(2, '0')`. */
  function Pad2(n: nat): (s: string)
    ensures AllDigits(s) && DecimalValue(s) == n
    ensures n < 100 ==> |s| == 2
    ensures n >= 100 ==> s == NatToString(n)
  {
    var t := NatToString(n);
    DecimalOfNatToString(n);
    if |t| >= 2 then t
    else
      DecimalLeadingZero(t);
      "0" + t
  }

  /** `YYYY/MM/DD B.S.`: unpadded year, two-digit month and day. */
  function Render(d: NepaliDate): (s: string)
    requires d.year >= 0 && d.month >= 0 && d.day >= 0
    ensures |s| > |Suffix| && s[|s| - |Suffix|..] == Suffix
  {
    NatToString(d.year) + "/" + Pad2(d.month) + "/" + Pad2(d.day) + Suffix
  }

  /** `formatNepaliDate` of a Gregorian calendar day. */
  function FormatNepaliDate(englishDay: int): (s: string)
    ensures IsMonthTable(MonthDays)
    ensures ParseRendered(s) == Some(Convert(MonthDays, englishDay - ReferenceEnglishDay))
  {
    TableShape();
    var d := Convert(MonthDays, DaysDifference(englishDay, ReferenceEnglishDay));
    RenderRoundTrip(d);
    Render(d)
  }

  /** Reads `Y/M/D B.S.` back; the inverse of Render. */
  function ParseRendered(s: string): (r: Option<NepaliDate>)
    ensures r.Some? ==> |s| >= |Suffix| && s[|s| - |Suffix|..] == Suffix
    ensures r.Some? ==> r.value.year >= 0 && r.value.month >= 0 && r.value.day >= 0
  {
    if |s| < |Suffix| || s[|s| - |Suffix|..] != Suffix then None
    else
      var parts := SplitOn(s[..|s| - |Suffix|], '/');
      if |parts| != 3 || !AllDigits(parts[0]) || !AllDigits(parts[1]) || !AllDigits(parts[2]) then None
      else Some(NepaliDate(DecimalValue(parts[0]), DecimalValue(parts[1]), DecimalValue(parts[2])))
  }

  lemma DigitsHaveNoSlash(s: string)
    requires AllDigits(s)
    ensures '/' !in s
  {
  }

  /** The rendered text determines the date: parsing it gives the date back. */
  lemma RenderRoundTrip(d: NepaliDate)
    requires d.year >= 0 && d.month >= 0 && d.day >= 0
    ensures ParseRendered(Render(d)) == Some(d)
  {
    var a, b, c := NatToString(d.year), Pad2(d.month), Pad2(d.day);
    var s := Render(d);
    var body := a + "/" + b + "/" + c;
    assert s == body + Suffix;
    assert s[|s| - |Suffix|..] == Suffix;
    assert s[..|s| - |Suffix|] == body;
    DigitsHaveNoSlash(a);
    DigitsHaveNoSlash(b);
    DigitsHaveNoSlash(c);
    assert body == a + ['/'] + (b + ['/'] + c);
    SplitAfterPart(a, '/', b + ['/'] + c);
    SplitAfterPart(b, '/', c);
    SplitNoSeparator(c, '/');
    DecimalOfNatToString(d.year);
  }

  /** The worked example: BS 2081/01/05 renders as "2081/01/05 B.S.". */
  lemma RenderExample()
    ensures Render(NepaliDate(2081, 1, 5)) == "2081/01/05 B.S."
  {
    assert NatToString(2081) == "2081" by {
      assert NatToString(2) == "2";
      assert NatToString(20) == "20";
      assert NatToString(208) == "208";
    }
  }
}
