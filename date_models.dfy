/** The date facts model: conversion between a (month, day) pair and the
    1-indexed day of a fixed 366-day leap year, and the per-fact like counter. */
module DateModels {
  import opened Wrappers
  import opened PyBuiltins

  /** A Python argument as the isinstance(x, int) checks see it. */
  datatype PyValue = PyInt(i: int) | PyOther

  /** The exceptions the conversions raise, with their message texts. */
  datatype DateError =
    | TypeError(msg: string)
    | ValueError(msg: string)
    | UnexpectedError(msg: string)

  /** Days in each month of the reference leap year. */
  const ValidDaysForMonths: map<int, int> :=
    map[1 := 31, 2 := 29, 3 := 31, 4 := 30, 5 := 31, 6 := 30,
        7 := 31, 8 := 31, 9 := 30, 10 := 31, 11 := 30, 12 := 31]

  /** Day of the year of the first of each month. */
  const MonthToFirstDayOfYear: map<int, int> :=
    map[1 := 1, 2 := 32, 3 := 61, 4 := 92, 5 := 122, 6 := 153,
        7 := 183, 8 := 214, 9 := 245, 10 := 275, 11 := 306, 12 := 336]

  /** The inverse table, used when converting back. */
  const DayOfYearToMonth: map<int, int> :=
    map[1 := 1, 32 := 2, 61 := 3, 92 := 4, 122 := 5, 153 := 6,
        183 := 7, 214 := 8, 245 := 9, 275 := 10, 306 := 11, 336 := 12]

  /** The keys of DayOfYearToMonth in insertion order, as list(d.keys()) gives them. */
  const FirstOfEachMonth: seq<int> := [1, 32, 61, 92, 122, 153, 183, 214, 245, 275, 306, 336]

  const DaysInYear: int := 366

  predicate IsMonth(m: int) {
    1 <= m <= 12
  }

  /** Length of month m, read from ValidDaysForMonths. */
  function MonthLength(m: int): int
    requires IsMonth(m)
  {
    MonthTableKeys(m);
    ValidDaysForMonths[m]
  }

  /** First day of year of month m, read from MonthToFirstDayOfYear. */
  function MonthStart(m: int): int
    requires IsMonth(m)
  {
    MonthTableKeys(m);
    MonthToFirstDayOfYear[m]
  }

  /** A (month, day) pair that exists in the reference leap year. */
  predicate IsValidDate(month: int, day: int) {
    IsMonth(month) && 1 <= day <= MonthLength(month)
  }

  function OutOfRangeMessage(dayOfYear: int): string {
    IntToString(dayOfYear) + " is out of range, does not exists\n" + "                in current calendar"
  }

  /** Number of days in the months before month m. */
  function DaysBefore(m: int): int
    requires 1 <= m <= 13
  {
    if m == 1 then 0 else DaysBefore(m - 1) + MonthLength(m - 1)
  }

  /** The month keys of both month tables are exactly 1..12. */
  lemma MonthTableKeys(m: int)
    ensures m in ValidDaysForMonths <==> IsMonth(m)
    ensures m in MonthToFirstDayOfYear <==> IsMonth(m)
  {
  }

  /** The facts about one month that the conversions rely on: the next month
      starts right after its last day, and the inverse table maps its start
      back to it. */
  lemma MonthEntry(m: int)
    requires IsMonth(m)
    ensures 1 <= MonthStart(m) && MonthStart(m) + MonthLength(m) <= DaysInYear + 1
    ensures m < 12 ==> MonthStart(m + 1) == MonthStart(m) + MonthLength(m)
    ensures m == 12 ==> MonthStart(m) + MonthLength(m) == DaysInYear + 1
    ensures FirstOfEachMonth[m - 1] == MonthStart(m)
    ensures FirstOfEachMonth[m - 1] in DayOfYearToMonth && DayOfYearToMonth[FirstOfEachMonth[m - 1]] == m
  {
  }

  /** Each month starts one day after all the days of the earlier months. */
  lemma {:induction false} MonthStartIsCumulative(m: int)
    requires IsMonth(m)
    ensures MonthStart(m) == 1 + DaysBefore(m)
  {
    if m > 1 {
      MonthEntry(m - 1);
      MonthStartIsCumulative(m - 1);
    } else {
      MonthEntry(1);
    }
  }

  /** The months add up to a 366-day year. */
  lemma YearLength()
    ensures DaysBefore(13) == DaysInYear
  {
    MonthEntry(12);
    MonthStartIsCumulative(12);
  }

  /** Month starts strictly increase. */
  lemma {:induction false} MonthStartsIncrease(a: int, b: int)
    requires 1 <= a < b <= 12
    ensures MonthStart(a) < MonthStart(b)
  {
    MonthEntry(b - 1);
    if a < b - 1 {
      MonthStartsIncrease(a, b - 1);
    }
  }

  /** Date.date_to_day_of_year: the type check comes first, then the month, then the day. */
  function DateToDayOfYear(month: PyValue, day: PyValue): (r: Result<int, DateError>)
    ensures r == Failure(TypeError("Invalid data types")) <==> !(month.PyInt? && day.PyInt?)
    ensures month.PyInt? && day.PyInt? && !IsMonth(month.i) ==>
              r == Failure(ValueError(IntToString(month.i) + " is an invalid month"))
    ensures month.PyInt? && day.PyInt? && IsMonth(month.i) && !IsValidDate(month.i, day.i) ==>
              r == Failure(ValueError(IntToString(day.i) + " is an invalid day"))
    ensures r.Success? <==> month.PyInt? && day.PyInt? && IsValidDate(month.i, day.i)
    ensures r.Success? ==> 1 <= r.value <= DaysInYear
  {
    if !(month.PyInt? && day.PyInt?) then
      Failure(TypeError("Invalid data types"))
    else if month.i !in ValidDaysForMonths then
      MonthTableKeys(month.i);
      Failure(ValueError(IntToString(month.i) + " is an invalid month"))
    else if day.i > ValidDaysForMonths[month.i] || day.i < 1 then
      MonthTableKeys(month.i);
      Failure(ValueError(IntToString(day.i) + " is an invalid day"))
    else
      MonthTableKeys(month.i);
      MonthEntry(month.i);
      Success(MonthToFirstDayOfYear[month.i] + day.i - 1)
  }

  /** The last month, at or below m, that starts on or before day o. */
  function LastMonthStartingBy(o: int, m: int): (r: int)
    requires 1 <= o && IsMonth(m)
    ensures 1 <= r <= m
    ensures MonthStart(r) <= o
    ensures forall k | r < k <= m :: o < MonthStart(k)
  {
    if m == 1 || MonthStart(m) <= o then m else LastMonthStartingBy(o, m - 1)
  }

  /** The month of day o is the one month whose span holds it. */
  lemma MonthOfDay(o: int, m: int)
    requires IsMonth(m) && 1 <= o && MonthStart(m) <= o
    requires m < 12 ==> o < MonthStart(m + 1)
    ensures LastMonthStartingBy(o, 12) == m
  {
    var r := LastMonthStartingBy(o, 12);
    if r > m + 1 {
      MonthStartsIncrease(m + 1, r);
    }
  }

  /** The date whose month is the last one starting on or before the day:
      Date.date_from_day_of_year as the rule it implements. */
  function DayOfYearToDate(dayOfYear: PyValue): (r: Result<(int, int), DateError>)
    ensures r == Failure(TypeError("Invalid data type")) <==> !dayOfYear.PyInt?
    ensures dayOfYear.PyInt? && !(1 <= dayOfYear.i <= DaysInYear) ==>
              r == Failure(ValueError(OutOfRangeMessage(dayOfYear.i)))
    ensures r.Success? <==> dayOfYear.PyInt? && 1 <= dayOfYear.i <= DaysInYear
    ensures r.Success? ==> IsValidDate(r.value.0, r.value.1)
  {
    if !dayOfYear.PyInt? then
      Failure(TypeError("Invalid data type"))
    else if dayOfYear.i < 1 || dayOfYear.i > DaysInYear then
      Failure(ValueError(OutOfRangeMessage(dayOfYear.i)))
    else
      var month := LastMonthStartingBy(dayOfYear.i, 12);
      MonthEntry(month);
      Success((month, dayOfYear.i + 1 - MonthStart(month)))
  }

  /** Date.date_from_day_of_year: scans the month starts in order and returns
      at the first one whose span holds the day. */
  method DateFromDayOfYear(dayOfYear: PyValue) returns (r: Result<(int, int), DateError>)
    ensures r == DayOfYearToDate(dayOfYear)
  {
    if !dayOfYear.PyInt? {
      return Failure(TypeError("Invalid data type"));
    }
    var o := dayOfYear.i;
    if o < 1 || o > DaysInYear {
      return Failure(ValueError(OutOfRangeMessage(o)));
    }
    var firstOfEachMonth := FirstOfEachMonth;
    var index := 0;
    while index < |firstOfEachMonth|
      invariant 0 <= index <= 11
      invariant firstOfEachMonth[index] <= o
    {
      MonthEntry(index + 1);
      var first := firstOfEachMonth[index];
      var month := DayOfYearToMonth[first];
      var day := o + 1 - firstOfEachMonth[index];
      if o == first {
        MonthOfDay(o, index + 1);
        return Success((month, 1));
      }
      if index == |firstOfEachMonth| - 1 {
        MonthOfDay(o, index + 1);
        return Success((month, day));
      }
      MonthEntry(index + 2);
      if o > first && o < firstOfEachMonth[index + 1] {
        MonthOfDay(o, index + 1);
        return Success((month, day));
      }
      index := index + 1;
    }
    assert false;
    r := Failure(UnexpectedError("Should not get here - encountered unexpected error."));
  }

  /** Every day of the year converts to a date that converts back to it. */
  lemma DayOfYearRoundTrip(o: int)
    requires 1 <= o <= DaysInYear
    ensures var date := DayOfYearToDate(PyInt(o));
            date.Success? && DateToDayOfYear(PyInt(date.value.0), PyInt(date.value.1)) == Success(o)
  {
    var month := LastMonthStartingBy(o, 12);
    MonthTableKeys(month);
  }

  /** Every valid date converts to a day of the year that converts back to it. */
  lemma DateRoundTrip(month: int, day: int)
    requires IsValidDate(month, day)
    ensures var o := DateToDayOfYear(PyInt(month), PyInt(day));
            o.Success? && DayOfYearToDate(PyInt(o.value)) == Success((month, day))
  {
    MonthTableKeys(month);
    MonthEntry(month);
    MonthOfDay(MonthStart(month) + day - 1, month);
  }

  /** No two valid dates share a day of the year. */
  lemma DateToDayOfYearInjective(m1: int, d1: int, m2: int, d2: int)
    requires IsValidDate(m1, d1) && IsValidDate(m2, d2)
    requires DateToDayOfYear(PyInt(m1), PyInt(d1)) == DateToDayOfYear(PyInt(m2), PyInt(d2))
    ensures m1 == m2 && d1 == d2
  {
    DateRoundTrip(m1, d1);
    DateRoundTrip(m2, d2);
  }

  /** The conversions the source's tests check. */
  lemma DateToDayOfYearExamples()
    ensures DateToDayOfYear(PyInt(1), PyInt(1)) == Success(1)
    ensures DateToDayOfYear(PyInt(2), PyInt(28)) == Success(59)
    ensures DateToDayOfYear(PyInt(2), PyInt(29)) == Success(60)
    ensures DateToDayOfYear(PyInt(3), PyInt(1)) == Success(61)
    ensures DateToDayOfYear(PyInt(12), PyInt(31)) == Success(366)
  {
    MonthEntry(1);
    MonthEntry(2);
    MonthEntry(3);
    MonthEntry(12);
  }

  /** The rejections the source's tests check, with their messages. */
  lemma DateToDayOfYearErrorExamples()
    ensures DateToDayOfYear(PyOther, PyInt(1)) == Failure(TypeError("Invalid data types"))
    ensures DateToDayOfYear(PyInt(1), PyOther) == Failure(TypeError("Invalid data types"))
    ensures DateToDayOfYear(PyInt(13), PyInt(1)) == Failure(ValueError("13 is an invalid month"))
    ensures DateToDayOfYear(PyInt(-1), PyInt(1)) == Failure(ValueError("-1 is an invalid month"))
  {
    MonthTableKeys(13);
    MonthTableKeys(-1);
    assert IntToString(13) == "13" && IntToString(-1) == "-1";
    assert IntToString(13) + " is an invalid month" == "13 is an invalid month";
    assert IntToString(-1) + " is an invalid month" == "-1 is an invalid month";
  }

  /** Days outside the month are reported with the day. */
  lemma DateToDayOfYearDayErrorExamples()
    ensures DateToDayOfYear(PyInt(1), PyInt(0)) == Failure(ValueError("0 is an invalid day"))
    ensures DateToDayOfYear(PyInt(1), PyInt(40)) == Failure(ValueError("40 is an invalid day"))
  {
    MonthTableKeys(1);
    assert IntToString(0) == "0" && IntToString(40) == "40";
    assert IntToString(0) + " is an invalid day" == "0 is an invalid day";
    assert IntToString(40) + " is an invalid day" == "40 is an invalid day";
  }

  /** The conversions back the source's tests check. */
  lemma DayOfYearToDateExamples()
    ensures DayOfYearToDate(PyInt(10)) == Success((1, 10))
    ensures DayOfYearToDate(PyInt(4)) == Success((1, 4))
    ensures DayOfYearToDate(PyInt(60)) == Success((2, 29))
    ensures DayOfYearToDate(PyInt(61)) == Success((3, 1))
    ensures DayOfYearToDate(PyInt(366)) == Success((12, 31))
  {
    MonthEntry(1);
    MonthEntry(2);
    MonthEntry(3);
    MonthEntry(12);
    MonthOfDay(10, 1);
    MonthOfDay(4, 1);
    MonthOfDay(60, 2);
    MonthOfDay(61, 3);
    MonthOfDay(366, 12);
  }

  /** The out-of-range message for 0, written out with its line break. */
  lemma OutOfRangeMessageOfZero()
    ensures OutOfRangeMessage(0) == "0 is out of range, does not exists\n" + "                in current calendar"
  {
    var rest := " is out of range, does not exists\n";
    var head := "0 is out of range, does not exists\n";
    assert IntToString(0) == "0";
    assert |"0" + rest| == |head|;
    assert head[0] == '0' && head[1..] == rest;
    assert "0" + rest == head;
  }

  /** str(367), digit by digit. */
  lemma PastEndText()
    ensures IntToString(367) == "367"
  {
    assert NatToString(3) == "3";
    assert NatToString(36) == "36";
  }

  /** The out-of-range message for 367, written out with its line break. */
  lemma OutOfRangeMessageOfPastEnd()
    ensures OutOfRangeMessage(367) == "367 is out of range, does not exists\n" + "                in current calendar"
  {
    var rest := " is out of range, does not exists\n";
    var head := "367 is out of range, does not exists\n";
    PastEndText();
    assert |"367" + rest| == |head|;
    assert head[0] == '3' && head[1] == '6' && head[2] == '7' && head[3..] == rest;
    assert "367" + rest == head;
  }

  /** The rejections of the conversion back the source's tests check. */
  lemma DayOfYearToDateErrorExamples()
    ensures DayOfYearToDate(PyOther) == Failure(TypeError("Invalid data type"))
    ensures DayOfYearToDate(PyInt(0))
         == Failure(ValueError("0 is out of range, does not exists\n" + "                in current calendar"))
  {
    OutOfRangeMessageOfZero();
  }

  /** A day of the year past the end is reported with the same message. */
  lemma DayOfYearToDatePastEndExample()
    ensures DayOfYearToDate(PyInt(367))
         == Failure(ValueError("367 is out of range, does not exists\n" + "                in current calendar"))
  {
    OutOfRangeMessageOfPastEnd();
  }

  // The source compares the day of the year with Python's `is` (models.py
  // line 144; the `is` at line 146 compares two small ints and acts as `==`).
  // The functions below model that comparison as CPython evaluates it when
  // the day of the year was computed at run time (by int() of a string key,
  // or read from the database): such an int is the same object as a code
  // constant only inside the small-int cache, -5 through 256.

  /** `a is b` for a run-time int a and a constant b under CPython. */
  function IsSmallIntIdentical(a: int, b: int): bool {
    a == b && -5 <= a <= 256
  }

  /** The loop of date_from_day_of_year from the given index, with `is` as written. */
  function ScanAsWritten(o: int, index: int): (r: Result<(int, int), DateError>)
    requires 0 <= index < 12
    ensures r.Success? && IsMonth(r.value.0) && r.value.1 == o + 1 - MonthStart(r.value.0)
    decreases 12 - index
  {
    MonthEntry(index + 1);
    var first := FirstOfEachMonth[index];
    var month := DayOfYearToMonth[first];
    var day := o + 1 - FirstOfEachMonth[index];
    if IsSmallIntIdentical(o, first) then Success((month, 1))
    else if index == 11 then Success((month, day))
    else if o > first && o < FirstOfEachMonth[index + 1] then Success((month, day))
    else ScanAsWritten(o, index + 1)
  }

  /** date_from_day_of_year as written, for a day of the year computed at run time. */
  function FromDayOfYearAsWritten(dayOfYear: PyValue): (r: Result<(int, int), DateError>)
    ensures r == Failure(TypeError("Invalid data type")) <==> !dayOfYear.PyInt?
    ensures dayOfYear.PyInt? && !(1 <= dayOfYear.i <= DaysInYear) ==>
              r == Failure(ValueError(OutOfRangeMessage(dayOfYear.i)))
    ensures r.Success? <==> dayOfYear.PyInt? && 1 <= dayOfYear.i <= DaysInYear
    ensures r.Success? ==> IsMonth(r.value.0) && r.value.1 == dayOfYear.i + 1 - MonthStart(r.value.0)
  {
    if !dayOfYear.PyInt? then
      Failure(TypeError("Invalid data type"))
    else if dayOfYear.i < 1 || dayOfYear.i > DaysInYear then
      Failure(ValueError(OutOfRangeMessage(dayOfYear.i)))
    else
      ScanAsWritten(dayOfYear.i, 0)
  }

  /** October 1st and November 1st come out as negative days of December. */
  lemma AsWrittenMisplacesFirstOfOctoberAndNovember()
    ensures FromDayOfYearAsWritten(PyInt(275)) == Success((12, -60))
    ensures FromDayOfYearAsWritten(PyInt(306)) == Success((12, -29))
    ensures DayOfYearToDate(PyInt(275)) == Success((10, 1))
    ensures DayOfYearToDate(PyInt(306)) == Success((11, 1))
  {
    MonthOfDay(275, 10);
    MonthOfDay(306, 11);
  }

  lemma {:induction false} ScanAsWrittenFinds(o: int, index: int)
    requires 0 <= index < 12 && 1 <= o <= DaysInYear && o != 275 && o != 306
    requires FirstOfEachMonth[index] <= o
    ensures ScanAsWritten(o, index) == DayOfYearToDate(PyInt(o))
    decreases 12 - index
  {
    MonthEntry(index + 1);
    if index < 11 { MonthEntry(index + 2); }
    var first := FirstOfEachMonth[index];
    if IsSmallIntIdentical(o, first) || index == 11 || o < FirstOfEachMonth[index + 1] {
      MonthOfDay(o, index + 1);
      assert ScanAsWritten(o, index) == Success((index + 1, o + 1 - MonthStart(index + 1)));
    } else {
      assert ScanAsWritten(o, index) == ScanAsWritten(o, index + 1);
      ScanAsWrittenFinds(o, index + 1);
    }
  }

  /** Every other day of the year converts the same with `is` as with `==`. */
  lemma AsWrittenAgreesElsewhere(dayOfYear: PyValue)
    requires !(dayOfYear == PyInt(275) || dayOfYear == PyInt(306))
    ensures FromDayOfYearAsWritten(dayOfYear) == DayOfYearToDate(dayOfYear)
  {
    if dayOfYear.PyInt? && 1 <= dayOfYear.i <= DaysInYear {
      ScanAsWrittenFinds(dayOfYear.i, 0);
    }
  }

  /** DateLikeCounter: the number of likes of one date fact. */
  class DateLikeCounter {
    const dateId: int
    var numLikes: int

    /** A new counter has no likes (the column default is 0). */
    constructor (dateId: int)
      ensures this.dateId == dateId && numLikes == 0
    {
      this.dateId := dateId;
      numLikes := 0;
    }

    /** increment_likes: one more like, nothing else changes. */
    method IncrementLikes()
      modifies this
      ensures numLikes == old(numLikes) + 1
    {
      numLikes := numLikes + 1;
    }
  }

  /** The like scenario of the source's tests: 0, then 1, then 2. */
  method LikeTwice(dateId: int) returns (afterFirst: int, afterSecond: int)
    ensures afterFirst == 1 && afterSecond == 2
  {
    var counter := new DateLikeCounter(dateId);
    counter.IncrementLikes();
    afterFirst := counter.numLikes;
    counter.IncrementLikes();
    afterSecond := counter.numLikes;
  }
}
