# nums_api in Dafny

nums_api serves short facts about numbers, days of the year, years and
trivia. Two parts of it carry logic worth proving, and this project models them:

- **The calendar codec** (`nums_api/dates/models.py`). It converts between a
  (month, day) pair and a day of the year in 1..366. The reference year is a
  fixed leap year, so February always has 29 days. It also includes the
  per-date like counter.
- **The fact import normalisation** (`nums_api/facts_dump/scripts.py`). It:
  - drops facts marked "self" and keys left without facts;
  - turns each remaining fact into the fields of a fact row;
  - builds the statement prefix for each category: "24 is", "1999 is the
    year that", "March 1st is the day in 1900 that";
  - turns a day into its ordinal, as in "21st".

Files:

- `wrappers.dfy`: `Option` and `Result`.
- `py_builtins.dfy`: the parts of Python's builtins the core relies on.
  - `str` of an int, written in decimal with a minus sign for negatives.
  - `int` of a string, accepting an optional sign followed by ASCII digits.
  - ASCII lower-casing.
- `date_models.dfy` (module `DateModels`): the month tables and the two
  conversions.
  - `date_from_day_of_year` loops over the month starts, so it is a method
    with a loop. It is proved equal to the specification function
    `DayOfYearToDate`, which picks the greatest month start not after the day.
  - `DateLikeCounter` is a class with a mutable like count.
- `facts_dump.dfy` (module `FactsDump`): the import normalisation.
  - The caller's dict is an `array<Entry>` in insertion order.
  - `filter_data` and `normalize_data` rewrite that array's lists in place,
    as the source rewrites the caller's dict.
  - Every exception the source lets through is an `ImportError` value.

Inputs the source takes from its environment are parameters:

- the global `direc` is a `Category`;
- `datetime.date.today().year` is `currentYear`.

A Python argument that may or may not be an `int` is a `PyValue`: either
`PyInt(i)` or `PyOther`.

Two details of the source the model keeps:

- **Out-of-range message.** The message for a day of the year out of range
  contains a newline and sixteen spaces, because the source writes it as a
  triple-quoted string at models.py:134-136 (`DateModels.OutOfRangeMessage`). Its wording, "does
  not exists", is kept as the source writes it.
- **Identity comparisons.** The `is` comparison at models.py:144 does not act
  as `==` for every day of the year (see Findings); the one at :146 compares
  two small ints and does. The main model uses `==`, as the code evidently intends; the
  loop as CPython runs it is modelled beside it.

## Model

| member | source | states |
|---|---|---|
| DateModels.MonthEntry | nums_api/dates/models.py:62-91 | each month's start table entry and length fit inside 1..366, each month starts the day after the previous one ends, December ends on day 366, and the inverse table maps each start back to its month |
| DateModels.MonthStartIsCumulative | nums_api/dates/models.py:77-91 | the start of each month is 1 plus the lengths of all months before it |
| DateModels.YearLength | nums_api/dates/models.py:62-75 | the month lengths add up to the 366 days of the reference leap year |
| DateModels.MonthStartsIncrease | nums_api/dates/models.py:77-91 | a later month starts strictly later |
| DateModels.DateToDayOfYear | nums_api/dates/models.py:54-105 | the type error happens exactly when an argument is not an int, and it is checked first; otherwise "{month} is an invalid month" exactly when the month is outside 1..12; otherwise "{day} is an invalid day" exactly when the day is outside the month; success exactly for a valid date, with a value in 1..366 |
| DateModels.LastMonthStartingBy | nums_api/dates/models.py:141-149 | the month it picks starts on or before the day, and every later month starts after the day |
| DateModels.MonthOfDay | nums_api/dates/models.py:141-149 | a day that falls between one month's start and the next month's start belongs to that month |
| DateModels.DayOfYearToDate | nums_api/dates/models.py:107-151 | "Invalid data type" exactly for a non-int; the out-of-range message exactly for an int outside 1..366; otherwise a valid (month, day) |
| DateModels.DateFromDayOfYear | nums_api/dates/models.py:107-151 | the month-by-month loop returns what `DayOfYearToDate` specifies for every input, errors included; its final "should not get here" line is unreachable |
| DateModels.DayOfYearRoundTrip | nums_api/dates/models.py:54-151 | for every day of the year in 1..366, converting to (month, day) and back gives the same day |
| DateModels.DateRoundTrip | nums_api/dates/models.py:54-151 | for every valid (month, day), converting to the day of the year and back gives the same pair |
| DateModels.DateToDayOfYearInjective | nums_api/dates/models.py:54-105 | two valid dates with the same day of the year are the same date, so no day has two dates |
| DateModels.DateToDayOfYearExamples | nums_api/dates/tests/test_models.py:59-77 | 1/1 is day 1, 2/28 is day 59, 2/29 is day 60, 3/1 is day 61, 12/31 is day 366 |
| DateModels.DateToDayOfYearErrorExamples | nums_api/dates/tests/test_models.py:79-110 | a non-int argument gives "Invalid data types"; months 13 and -1 give their invalid-month messages |
| DateModels.DateToDayOfYearDayErrorExamples | nums_api/dates/tests/test_models.py:112-122 | days 0 and 40 of January give their invalid-day messages |
| DateModels.DayOfYearToDateExamples | nums_api/dates/tests/test_models.py:124-146 | days 10, 4, 60, 61 and 366 give (1,10), (1,4), (2,29), (3,1) and (12,31) |
| DateModels.DayOfYearToDateErrorExamples | nums_api/dates/tests/test_models.py:148-175 | a non-int gives "Invalid data type"; 0 gives the literal out-of-range message, with its newline and sixteen spaces |
| DateModels.DayOfYearToDatePastEndExample | nums_api/dates/tests/test_models.py:177-182 | 367 gives the literal out-of-range message, with its newline and sixteen spaces |
| DateModels.ScanAsWritten | nums_api/dates/models.py:138-151 | the loop with `is` as CPython evaluates it for a run-time int always returns a month in 1..12, with the day counted from that month's start; only the choice of month can go wrong |
| DateModels.FromDayOfYearAsWritten | nums_api/dates/models.py:107-151 | as written, the type error and the out-of-range error are raised exactly as by the corrected conversion, and every day in 1..366 gives some month with the day counted from its start |
| DateModels.AsWrittenMisplacesFirstOfOctoberAndNovember | nums_api/dates/models.py:144-149 | as written, days 275 and 306 give (12, -60) and (12, -29); the corrected conversion gives (10, 1) and (11, 1) |
| DateModels.ScanAsWrittenFinds | nums_api/dates/models.py:141-149 | for every day in 1..366 other than 275 and 306, the as-written scan from any month starting on or before the day returns the correct pair |
| DateModels.AsWrittenAgreesElsewhere | nums_api/dates/models.py:107-151 | apart from 275 and 306, the as-written conversion agrees with the corrected one on every input |
| DateModels.DateLikeCounter.constructor | nums_api/dates/models.py:154-180 | a new counter has its date id and no likes |
| DateModels.DateLikeCounter.IncrementLikes | nums_api/dates/models.py:183-184 | the like count goes up by exactly one and nothing else changes |
| DateModels.LikeTwice | nums_api/dates/tests/test_models.py:184-205 | a fresh counter reads 1 after one like and 2 after a second |
| PyBuiltins.NatToString | nums_api/facts_dump/scripts.py:215 | the decimal text of a natural number is a non-empty string of digits, with a leading zero only for 0 |
| PyBuiltins.IntToString | nums_api/facts_dump/scripts.py:215 | `str()` of an int is non-empty and starts with a minus sign exactly for a negative value |
| PyBuiltins.ParseInt | nums_api/facts_dump/scripts.py:198 | `int()` of a string succeeds exactly for an optional sign followed by at least one ASCII digit; a negative result needs a leading minus, and without one the result is not negative |
| PyBuiltins.LowerAscii | nums_api/facts_dump/scripts.py:147 | `lower()` of one character maps an ASCII capital to its small letter and leaves every other character unchanged |
| PyBuiltins.ParseDigitsOfNatToString | nums_api/facts_dump/scripts.py:198 | reading the decimal text of a natural number gives the number back |
| PyBuiltins.ParseIntOfIntToString | nums_api/facts_dump/scripts.py:198 | `int(str(n)) == n` for every int, negatives included |
| FactsDump.GetOrdinalSuffix | nums_api/facts_dump/scripts.py:240-268 | the result is the number's decimal text followed by two suffix letters |
| FactsDump.OrdinalSuffixRule | nums_api/facts_dump/scripts.py:258-268 | "st", "nd" and "rd" exactly for last digits 1, 2 and 3 other than 11, 12 and 13; "th" exactly otherwise |
| FactsDump.OrdinalSuffixReadsBack | nums_api/facts_dump/scripts.py:256-268 | the text without its suffix reads back as the number |
| FactsDump.OrdinalSuffixExamples | nums_api/facts_dump/scripts.py:249-251 | 12th, 21st, 22nd |
| FactsDump.MoreOrdinalSuffixExamples | nums_api/facts_dump/scripts.py:252-253 | 23rd, 24th |
| FactsDump.GetPrefix | nums_api/facts_dump/scripts.py:181-237 | fails on a key that is not an int literal, for every category; for dates, fails with the calendar error when the key is not a day of the year, and with the missing-year error when the fact has no year; succeeds exactly in the remaining cases |
| FactsDump.NumberPrefix | nums_api/facts_dump/scripts.py:214-215 | math and trivia prefixes are "{n} is", and n reads back from them |
| FactsDump.YearPrefix | nums_api/facts_dump/scripts.py:229-237 | "{-n} BC is the year that" before year 0; otherwise "{n} will be the year that" after the current year; otherwise "{n} is the year that" |
| FactsDump.DatePrefix | nums_api/facts_dump/scripts.py:216-227 | the prefix names the month and the ordinal day of the key's day of the year, and the fact's year ("BC" for negative years); that date converts back to the key |
| FactsDump.NormalizeFact | nums_api/facts_dump/scripts.py:110-178 | an empty text raises; it returns None exactly when the original last character is not '.', an ASCII letter, a digit, ')', '"' or an apostrophe; it returns a row exactly when the last character is one of those and the prefix succeeds |
| FactsDump.NormalizedFactFields | nums_api/facts_dump/scripts.py:142-178 | the row's number is int(key); its statement is "{prefix} {fragment}."; it is not marked submitted; it has a year exactly for dates; its fragment is the text with only the first character lowered (not for "NP") and one trailing dot removed |
| FactsDump.KeepNonSelf | nums_api/facts_dump/scripts.py:101 | the kept facts are exactly the facts not marked "self" |
| FactsDump.KeepNonSelfAppend | nums_api/facts_dump/scripts.py:101 | filtering distributes over concatenation, so kept facts keep their order |
| FactsDump.DropSelfFacts | nums_api/facts_dump/scripts.py:100-102 | every key stays, in order, with its list filtered |
| FactsDump.DropEmpty | nums_api/facts_dump/scripts.py:105 | the entries kept are exactly those with a non-empty list |
| FactsDump.DropEmptyAppend | nums_api/facts_dump/scripts.py:105 | dropping empty lists distributes over concatenation, so keys keep their order |
| FactsDump.FilteredData | nums_api/facts_dump/scripts.py:81-107 | the result of filter_data holds no fact marked "self" and no empty list |
| FactsDump.FilteredDataProperties | nums_api/facts_dump/scripts.py:81-107 | every kept list is the filtered list of an original key; every key with a fact left is kept |
| FactsDump.FilterData | nums_api/facts_dump/scripts.py:81-107 | the caller's dict ends with every list filtered, and the result is that dict without its empty lists |
| FactsDump.CollectNormalized | nums_api/facts_dump/scripts.py:68-74 | a key's normalised list has at most as many facts as the key had |
| FactsDump.NormalizeEntries | nums_api/facts_dump/scripts.py:67-76 | a successful import has one entry per kept key, with the same keys in the same order |
| FactsDump.CollectEntries | nums_api/facts_dump/scripts.py:67-76 | for any per-key normaliser, a successful run has one entry per key, with the same keys in the same order |
| FactsDump.NormalizedData | nums_api/facts_dump/scripts.py:38-78 | a successful normalize_data has exactly the keys of filter_data, in the same order |
| FactsDump.CollectNormalizedMeaning | nums_api/facts_dump/scripts.py:67-76 | a key's facts normalise exactly when none raises, and then to the in-order results without the rejected ones |
| FactsDump.CollectNormalizedFailurePersists | nums_api/facts_dump/scripts.py:70-74 | the first exception among a key's facts is the one the key raises |
| FactsDump.CollectEntriesMeaning | nums_api/facts_dump/scripts.py:67-78 | the entries succeed exactly when every key does; they then keep the keys in order, each with its own normalised list |
| FactsDump.NormalizeEntriesMeaning | nums_api/facts_dump/scripts.py:67-76 | the entries normalise exactly when no fact of any key raises; every key then maps, in order, to its facts' normalize_fact results with the rejected ones dropped |
| FactsDump.CollectEntriesFailurePersists | nums_api/facts_dump/scripts.py:67-78 | the first key that raises decides the exception of the whole import |
| FactsDump.NormalizedDataMeaning | nums_api/facts_dump/scripts.py:38-78 | normalize_data keeps the keys of filter_data in order; it succeeds exactly when no kept fact raises; each key then maps to its facts' results in order, with the rejected ones dropped |
| FactsDump.NormalizeKeyFacts | nums_api/facts_dump/scripts.py:68-76 | the inner loop returns the key's normalised list, or the first exception, as `NormalizeFacts` specifies |
| FactsDump.NormalizeData | nums_api/facts_dump/scripts.py:38-78 | the caller's dict ends with its "self" facts removed, and the result is what `NormalizedData` specifies, exceptions included |

## Left out

- DateModels.DateFromDayOfYear: models the `is` comparison at models.py:144 as `==`. Day-of-year values above 256 are therefore handled as the code evidently intends, not as CPython runs them (see Findings).
- FactsDump.GetPrefix: uses the corrected conversion for dates, so the keys "275" and "306" give "October 1st …" and "November 1st …", where the source's importer would write "December -60th …" and "December -29st …" (see Findings; `-29 % 10` is 1 under Python's floored remainder, so GetOrdinalSuffix gives "-29st"). The same holds for FactsDump.DatePrefix.
- `bool` is a subclass of `int` in Python, so `True` is accepted as month 1 or day 1. `PyValue` has no booleans.
- `int()` of a key is modelled for an optional sign followed by ASCII digits. Python also accepts surrounding whitespace, underscores between digits and non-ASCII digits; here those keys fail with `InvalidLiteral`.
- `str.lower()` on a fact's first character is modelled for ASCII only. Other characters are left unchanged.
- A fact's "text" is always a string and its "year", when present, always an int. In the source, a non-string text raises at `text[0].lower()` (scripts.py:147). A non-numeric year, such as a string or null, raises at `fact["year"] < 0` (scripts.py:221). A float or boolean year compares without raising and is printed as it is, e.g. "1999.5" or "True" (scripts.py:223-228). The model has int years only, so it has neither those errors nor those texts.
- A fact without a "text" or "self" key raises `KeyError` in the source. Here every `Fact` has both, and only "pos" and "year" may be absent.
- A `direc` other than math, trivia, years or dates makes `get_prefix` return `None`. `Category` has only the four directories the importer is run on.
- `fact["self"] == False` is modelled for boolean values only.
- The SQLAlchemy models behind `Date` and `DateLikeCounter` are columns and relationships with nothing to prove: the id, the foreign key, the database's integer width and the session commit. The like count is an unbounded integer.
- `insert_data`, `dump_data`, `format_text_to_csv`, `format_all_text_to_csv`, `dump_all_data` and the call at import time read files, write CSV files and write to the database. They are I/O and are not part of this model.
- The HTTP routes, the application set-up, the rate limiter and the seed script are not part of this model.
- Concurrent likes on one counter, where an update can be lost, are not modelled.

## Findings

| source | as written | input that shows it | evidently intended | confidence | as-written member | corrected member |
|---|---|---|---|---|---|---|
| nums_api/dates/models.py:144-149 | `day_of_year is first` compares object identity. CPython shares only the ints -5..256, so a day of the year computed at run time, such as `int("275")` in the importer, is never identical to the table keys 275 and 306. The loop then falls through to December. | `date_from_day_of_year(275)` returns (12, -60) and `date_from_day_of_year(306)` returns (12, -29). The importer would then write "December -60th is the day in …" for October 1st. | (10, 1) and (11, 1): the month whose start is the greatest not after the day, with the day counted from that start | not executed | DateModels.AsWrittenMisplacesFirstOfOctoberAndNovember | DateModels.DateFromDayOfYear |
