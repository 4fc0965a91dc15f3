/** The import pipeline's fact normalisation: drop unwanted raw facts, turn
    each remaining one into the fields a fact row stores, and build the
    per-category prefix of its statement. The data directory being imported
    and the current year are parameters. */
module FactsDump {
  import opened Wrappers
  import opened PyBuiltins
  import DateModels

  /** The data directory being imported; the source keeps it in a module global. */
  datatype Category = Math | Trivia | Years | Dates

  /** One raw fact of a data file. `pos` and `year` are keys a fact may lack. */
  datatype Fact = Fact(text: string, isSelf: bool, pos: Option<string>, year: Option<int>)

  /** One key of a data file and its facts; a dict is a sequence of entries in
      insertion order, as Python dicts keep it. */
  datatype Entry = Entry(key: string, facts: seq<Fact>)

  /** The fields of one fact row; `year` is present for the dates category only. */
  datatype NormalizedFact = NormalizedFact(
    number: int,
    factFragment: string,
    factStatement: string,
    wasSubmitted: bool,
    year: Option<int>)

  datatype NormalizedEntry = NormalizedEntry(key: string, facts: seq<NormalizedFact>)

  /** The exceptions normalisation lets through. */
  datatype ImportError =
    | EmptyText                                  // IndexError: text[0] or text[-1] of ""
    | InvalidLiteral(literal: string)            // ValueError: int() of a key that is no number
    | MissingYear                                // KeyError: fact["year"] of a date fact without one
    | DateConversion(error: DateModels.DateError) // a key that is no day of the year

  const MonthNames: seq<string> := [
    "January", "February", "March", "April", "May", "June",
    "July", "August", "September", "October", "November", "December"
  ]

  // ----- get_ordinal_suffix -----

  /** A number followed by its English ordinal suffix. Python's % is floored
      and Dafny's Euclidean; for the divisor 10 the two agree. */
  function GetOrdinalSuffix(number: int): (r: string)
    ensures |r| == |IntToString(number)| + 2 && r[..|r| - 2] == IntToString(number)
  {
    if number == 11 || number == 12 || number == 13 then IntToString(number) + "th"
    else if number % 10 == 1 then IntToString(number) + "st"
    else if number % 10 == 2 then IntToString(number) + "nd"
    else if number % 10 == 3 then IntToString(number) + "rd"
    else IntToString(number) + "th"
  }

  /** The two letters GetOrdinalSuffix puts after the number. */
  function Suffix(s: string): string
    requires |s| >= 2
  {
    s[|s| - 2..]
  }

  /** "th" for 11, 12 and 13; otherwise "st", "nd", "rd" by the last digit; otherwise "th". */
  lemma OrdinalSuffixRule(n: int)
    ensures var s := Suffix(GetOrdinalSuffix(n));
            && (s == "st" <==> n % 10 == 1 && n != 11)
            && (s == "nd" <==> n % 10 == 2 && n != 12)
            && (s == "rd" <==> n % 10 == 3 && n != 13)
            && (s == "th" <==> !(n % 10 in {1, 2, 3}) || n == 11 || n == 12 || n == 13)
  {
    var t := IntToString(n);
    var r := GetOrdinalSuffix(n);
    assert Suffix(r) == r[|t|..];
    if n == 11 || n == 12 || n == 13 {
      assert r == t + "th";
    } else if n % 10 == 1 {
      assert r == t + "st";
    } else if n % 10 == 2 {
      assert r == t + "nd";
    } else if n % 10 == 3 {
      assert r == t + "rd";
    } else {
      assert r == t + "th";
    }
  }

  /** The number can be read back from the text in front of the suffix. */
  lemma OrdinalSuffixReadsBack(n: int)
    ensures var r := GetOrdinalSuffix(n); ParseInt(r[..|r| - 2]) == Some(n)
  {
    ParseIntOfIntToString(n);
  }

  /** The examples of the source's documentation. */
  lemma OrdinalSuffixExamples()
    ensures GetOrdinalSuffix(12) == "12th"
    ensures GetOrdinalSuffix(21) == "21st"
    ensures GetOrdinalSuffix(22) == "22nd"
  {
    assert IntToString(12) == "12" && IntToString(21) == "21" && IntToString(22) == "22";
  }

  lemma MoreOrdinalSuffixExamples()
    ensures GetOrdinalSuffix(23) == "23rd"
    ensures GetOrdinalSuffix(24) == "24th"
  {
    assert IntToString(23) == "23" && IntToString(24) == "24";
  }

  // ----- get_prefix -----

  /** The year as a date statement prints it: a negative year as its magnitude
      and " BC" (the two branches of get_prefix for a date). */
  function YearText(year: int): string {
    if year < 0 then IntToString(-year) + " BC" else IntToString(year)
  }

  /** get_prefix: the subject of a fact's statement. The key is read with int()
      first, for every category; a date converts its key back to month and day. */
  function GetPrefix(category: Category, currentYear: int, number: string, fact: Fact): (r: Result<string, ImportError>)
    ensures r == Failure(InvalidLiteral(number)) <==> ParseInt(number).None?
    ensures ParseInt(number).Some? && category == Dates ==>
              var date := DateModels.DayOfYearToDate(DateModels.PyInt(ParseInt(number).value));
              && (date.Failure? ==> r == Failure(DateConversion(date.error)))
              && (date.Success? && fact.year.None? ==> r == Failure(MissingYear))
    ensures r.Success? <==>
              && ParseInt(number).Some?
              && (category == Dates ==> 1 <= ParseInt(number).value <= DateModels.DaysInYear && fact.year.Some?)
  {
    match ParseInt(number)
    case None => Failure(InvalidLiteral(number))
    case Some(n) =>
      match category
      case Math => Success(IntToString(n) + " is")
      case Trivia => Success(IntToString(n) + " is")
      case Dates =>
        var date := DateModels.DayOfYearToDate(DateModels.PyInt(n));
        if date.Failure? then
          Failure(DateConversion(date.error))
        else
          var monthName := MonthNames[date.value.0 - 1];
          var numOrdinalSuff := GetOrdinalSuffix(date.value.1);
          if fact.year.None? then
            Failure(MissingYear)
          else
            Success(monthName + " " + numOrdinalSuff + " is the day in " + YearText(fact.year.value) + " that")
      case Years =>
        if n < 0 then Success(IntToString(-n) + " BC is the year that")
        else if n > currentYear then Success(IntToString(n) + " will be the year that")
        else Success(IntToString(n) + " is the year that")
  }

  /** Math and trivia facts are about the number itself, which reads back from the prefix. */
  lemma NumberPrefix(category: Category, currentYear: int, number: string, fact: Fact, n: int)
    requires category == Math || category == Trivia
    requires ParseInt(number) == Some(n)
    ensures var r := GetPrefix(category, currentYear, number, fact);
            && r == Success(IntToString(n) + " is")
            && ParseInt(r.value[..|r.value| - 3]) == Some(n)
  {
    var p := IntToString(n) + " is";
    assert p[..|p| - 3] == IntToString(n);
    ParseIntOfIntToString(n);
  }

  /** Year facts: BC before year 0, "will be" after the current year, "is" otherwise. */
  lemma YearPrefix(currentYear: int, number: string, fact: Fact, n: int)
    requires ParseInt(number) == Some(n)
    ensures var r := GetPrefix(Years, currentYear, number, fact);
            && r.Success?
            && (n < 0 ==> r.value == IntToString(-n) + " BC is the year that")
            && (0 <= n && currentYear < n ==> r.value == IntToString(n) + " will be the year that")
            && (0 <= n <= currentYear ==> r.value == IntToString(n) + " is the year that")
  {
  }

  /** Date facts name the month and day whose day of the year is the key, and the fact's year. */
  lemma DatePrefix(currentYear: int, number: string, fact: Fact, n: int)
    requires ParseInt(number) == Some(n) && fact.year.Some?
    requires 1 <= n <= DateModels.DaysInYear
    ensures var date := DateModels.DayOfYearToDate(DateModels.PyInt(n));
            var r := GetPrefix(Dates, currentYear, number, fact);
            && date.Success? && r.Success?
            && DateModels.DateToDayOfYear(DateModels.PyInt(date.value.0), DateModels.PyInt(date.value.1)) == Success(n)
            && r.value == MonthNames[date.value.0 - 1] + " " + GetOrdinalSuffix(date.value.1)
                          + " is the day in " + YearText(fact.year.value) + " that"
  {
    DateModels.DayOfYearRoundTrip(n);
  }

  // ----- normalize_fact -----

  /** The last characters a fact may end with; any other marks grammar the import does not support. */
  predicate IsSupportedLastChar(c: char) {
    c == '.' || IsLower(c) || IsUpper(c) || IsDigit(c) || c == ')' || c == '"' || c == '\''
  }

  function Last(s: string): char
    requires |s| > 0
  {
    s[|s| - 1]
  }

  /** normalize_fact: lowercase the first character unless the fact is a proper
      noun phrase, drop one trailing dot, reject an unsupported last character,
      and fill in the row's fields. */
  function NormalizeFact(category: Category, currentYear: int, number: string, fact: Fact)
    : (r: Result<Option<NormalizedFact>, ImportError>)
    ensures r == Failure(EmptyText) <==> fact.text == []
    ensures r == Success(None) <==> fact.text != [] && !IsSupportedLastChar(Last(fact.text))
    ensures r.Success? && r.value.Some? <==>
              && fact.text != []
              && IsSupportedLastChar(Last(fact.text))
              && GetPrefix(category, currentYear, number, fact).Success?
  {
    if |fact.text| == 0 then
      Failure(EmptyText)
    else
      var text := if fact.pos != Some("NP") then [LowerAscii(fact.text[0])] + fact.text[1..] else fact.text;
      var lastChar := text[|text| - 1];
      assert lastChar == Last(fact.text) || lastChar == LowerAscii(Last(fact.text));
      if lastChar != '.' && !(IsLower(lastChar) || IsUpper(lastChar) || IsDigit(lastChar)
                              || lastChar == ')' || lastChar == '"' || lastChar == '\'') then
        Success(None)
      else
        var fragment := if lastChar == '.' then text[..|text| - 1] else text;
        var prefix :- GetPrefix(category, currentYear, number, fact);
        Success(Some(NormalizedFact(
          ParseInt(number).value,
          fragment,
          prefix + " " + fragment + ".",
          false,
          if category == Dates then fact.year else None)))
  }

  /** What a normalised fact holds: the key as its number, the text changed only in
      its first character and one trailing dot, the statement built from the prefix. */
  lemma NormalizedFactFields(category: Category, currentYear: int, number: string, fact: Fact, nf: NormalizedFact)
    requires NormalizeFact(category, currentYear, number, fact) == Success(Some(nf))
    ensures ParseInt(number) == Some(nf.number)
    ensures var prefix := GetPrefix(category, currentYear, number, fact);
            prefix.Success? && nf.factStatement == prefix.value + " " + nf.factFragment + "."
    ensures !nf.wasSubmitted
    ensures category == Dates ==> nf.year == fact.year && nf.year.Some?
    ensures category != Dates ==> nf.year.None?
    ensures var t := fact.text;
            && |nf.factFragment| == (if Last(t) == '.' then |t| - 1 else |t|)
            && (forall i | 0 < i < |nf.factFragment| :: nf.factFragment[i] == t[i])
            && (|nf.factFragment| > 0 ==>
                  nf.factFragment[0] == if fact.pos == Some("NP") then t[0] else LowerAscii(t[0]))
  {
  }

  // ----- filter_data -----

  /** The facts not marked "self", in their order. */
  function KeepNonSelf(facts: seq<Fact>): (kept: seq<Fact>)
    ensures |kept| <= |facts|
    ensures forall f | f in kept :: f in facts && !f.isSelf
    ensures forall f | f in facts && !f.isSelf :: f in kept
  {
    if facts == [] then [] else (if facts[0].isSelf then [] else [facts[0]]) + KeepNonSelf(facts[1..])
  }

  /** Filtering distributes over concatenation, so kept facts stay in their order. */
  lemma {:induction false} KeepNonSelfAppend(a: seq<Fact>, b: seq<Fact>)
    ensures KeepNonSelf(a + b) == KeepNonSelf(a) + KeepNonSelf(b)
  {
    if a != [] {
      assert (a + b)[1..] == a[1..] + b;
      KeepNonSelfAppend(a[1..], b);
    } else {
      assert a + b == b;
    }
  }

  /** Every entry with its facts filtered, as the first loop of filter_data leaves the dict. */
  function DropSelfFacts(data: seq<Entry>): (r: seq<Entry>)
    ensures |r| == |data|
    ensures forall i | 0 <= i < |data| :: r[i].key == data[i].key && r[i].facts == KeepNonSelf(data[i].facts)
  {
    seq(|data|, i requires 0 <= i < |data| => Entry(data[i].key, KeepNonSelf(data[i].facts)))
  }

  /** The entries whose list is not empty, in their order. */
  function DropEmpty(data: seq<Entry>): (r: seq<Entry>)
    ensures |r| <= |data|
    ensures forall e | e in r :: e in data && e.facts != []
    ensures forall e | e in data && e.facts != [] :: e in r
  {
    if data == [] then [] else (if data[0].facts == [] then [] else [data[0]]) + DropEmpty(data[1..])
  }

  /** Dropping empty lists distributes over concatenation, so keys stay in their order. */
  lemma {:induction false} DropEmptyAppend(a: seq<Entry>, b: seq<Entry>)
    ensures DropEmpty(a + b) == DropEmpty(a) + DropEmpty(b)
  {
    if a != [] {
      assert (a + b)[1..] == a[1..] + b;
      DropEmptyAppend(a[1..], b);
    } else {
      assert a + b == b;
    }
  }

  /** What filter_data returns: no fact marked "self" and no empty list is left. */
  function FilteredData(data: seq<Entry>): (r: seq<Entry>)
    ensures |r| <= |data|
    ensures forall i | 0 <= i < |r| :: r[i].facts != [] && forall j | 0 <= j < |r[i].facts| :: !r[i].facts[j].isSelf
  {
    DropEmpty(DropSelfFacts(data))
  }

  /** After filtering no fact is marked "self", no list is empty, every list is the
      in-order filter of its key's original list, and every key with a fact left survives. */
  lemma FilteredDataProperties(data: seq<Entry>)
    ensures forall e, f | e in FilteredData(data) && f in e.facts :: !f.isSelf
    ensures forall e | e in FilteredData(data) :: e.facts != []
    ensures forall e | e in FilteredData(data) ::
              exists i | 0 <= i < |data| :: e.key == data[i].key && e.facts == KeepNonSelf(data[i].facts)
    ensures forall i | 0 <= i < |data| && KeepNonSelf(data[i].facts) != [] ::
              Entry(data[i].key, KeepNonSelf(data[i].facts)) in FilteredData(data)
  {
    var dropped := DropSelfFacts(data);
    forall e | e in FilteredData(data)
      ensures exists i | 0 <= i < |data| :: e.key == data[i].key && e.facts == KeepNonSelf(data[i].facts)
    {
      var i :| 0 <= i < |dropped| && dropped[i] == e;
    }
    forall i | 0 <= i < |data| && KeepNonSelf(data[i].facts) != []
      ensures Entry(data[i].key, KeepNonSelf(data[i].facts)) in FilteredData(data)
    {
      assert dropped[i] == Entry(data[i].key, KeepNonSelf(data[i].facts));
    }
  }

  /** filter_data: rewrites every list of the caller's dict without its "self" facts,
      then returns a new dict without the keys whose list became empty. */
  method FilterData(data: array<Entry>) returns (filtered: seq<Entry>)
    modifies data
    ensures data[..] == DropSelfFacts(old(data[..]))
    ensures filtered == FilteredData(old(data[..]))
  {
    for i := 0 to data.Length
      invariant forall k | 0 <= k < i :: data[k] == Entry(old(data[k]).key, KeepNonSelf(old(data[k]).facts))
      invariant forall k | i <= k < data.Length :: data[k] == old(data[k])
    {
      data[i] := Entry(data[i].key, KeepNonSelf(data[i].facts));
    }
    assert data[..] == DropSelfFacts(old(data[..]));
    filtered := DropEmpty(data[..]);
  }

  // ----- normalize_data -----

  /** The normalised facts of one list under a per-fact normaliser, in order,
      without the rejected ones; the first exception stops the import. */
  function CollectNormalized(normalize: Fact -> Result<Option<NormalizedFact>, ImportError>, facts: seq<Fact>)
    : (r: Result<seq<NormalizedFact>, ImportError>)
    ensures r.Success? ==> |r.value| <= |facts|
  {
    if facts == [] then
      Success([])
    else
      var init :- CollectNormalized(normalize, facts[..|facts| - 1]);
      var result :- normalize(facts[|facts| - 1]);
      Success(if result.Some? then init + [result.value] else init)
  }

  /** The facts of one key as normalize_data normalises them. */
  function NormalizeFacts(category: Category, currentYear: int, key: string, facts: seq<Fact>)
    : Result<seq<NormalizedFact>, ImportError>
  {
    CollectNormalized(fact => NormalizeFact(category, currentYear, key, fact), facts)
  }

  /** Every entry normalised under a per-key normaliser, in order; the first
      exception stops the import. */
  function CollectEntries(normalizeKey: (string, seq<Fact>) -> Result<seq<NormalizedFact>, ImportError>, entries: seq<Entry>)
    : (r: Result<seq<NormalizedEntry>, ImportError>)
    ensures r.Success? ==> |r.value| == |entries| && forall i | 0 <= i < |entries| :: r.value[i].key == entries[i].key
  {
    if entries == [] then
      Success([])
    else
      var init :- CollectEntries(normalizeKey, entries[..|entries| - 1]);
      var last := entries[|entries| - 1];
      var facts :- normalizeKey(last.key, last.facts);
      Success(init + [NormalizedEntry(last.key, facts)])
  }

  /** The entries as normalize_data normalises them. */
  function NormalizeEntries(category: Category, currentYear: int, entries: seq<Entry>)
    : (r: Result<seq<NormalizedEntry>, ImportError>)
    ensures r.Success? ==> |r.value| == |entries| && forall i | 0 <= i < |entries| :: r.value[i].key == entries[i].key
  {
    CollectEntries((key, facts) => NormalizeFacts(category, currentYear, key, facts), entries)
  }

  /** What normalize_data returns. */
  function NormalizedData(category: Category, currentYear: int, data: seq<Entry>)
    : (r: Result<seq<NormalizedEntry>, ImportError>)
    ensures r.Success? ==> |r.value| == |FilteredData(data)|
    ensures r.Success? ==> forall i | 0 <= i < |r.value| :: r.value[i].key == FilteredData(data)[i].key
  {
    NormalizeEntries(category, currentYear, FilteredData(data))
  }

  /** The normalised fact of one raw fact, None for a rejected one or an exception. */
  function Outcome(r: Result<Option<NormalizedFact>, ImportError>): Option<NormalizedFact> {
    if r.Success? then r.value else None
  }

  /** The values of the present options, in order. */
  function Present(results: seq<Option<NormalizedFact>>): seq<NormalizedFact> {
    if results == [] then []
    else (if results[0].Some? then [results[0].value] else []) + Present(results[1..])
  }

  lemma {:induction false} PresentSnoc(results: seq<Option<NormalizedFact>>, x: Option<NormalizedFact>)
    ensures Present(results + [x]) == Present(results) + (if x.Some? then [x.value] else [])
  {
    if results != [] {
      assert (results + [x])[1..] == results[1..] + [x];
      PresentSnoc(results[1..], x);
    } else {
      assert results + [x] == [x];
    }
  }

  /** The outcome of every fact of a list. */
  function Outcomes(normalize: Fact -> Result<Option<NormalizedFact>, ImportError>, facts: seq<Fact>)
    : (r: seq<Option<NormalizedFact>>)
    ensures |r| == |facts|
  {
    seq(|facts|, j requires 0 <= j < |facts| => Outcome(normalize(facts[j])))
  }

  /** A list normalises exactly when each of its facts does, and then to the
      in-order outcomes with the rejected facts left out. */
  lemma {:induction false} CollectNormalizedMeaning(normalize: Fact -> Result<Option<NormalizedFact>, ImportError>, facts: seq<Fact>)
    ensures var r := CollectNormalized(normalize, facts);
            && (r.Success? <==> forall j | 0 <= j < |facts| :: normalize(facts[j]).Success?)
            && (r.Success? ==> r.value == Present(Outcomes(normalize, facts)))
  {
    if facts != [] {
      var init := facts[..|facts| - 1];
      var x := facts[|facts| - 1];
      CollectNormalizedMeaning(normalize, init);
      assert forall j | 0 <= j < |init| :: facts[j] == init[j];
      if CollectNormalized(normalize, init).Success? && normalize(x).Success? {
        assert Outcomes(normalize, facts) == Outcomes(normalize, init) + [Outcome(normalize(x))];
        PresentSnoc(Outcomes(normalize, init), Outcome(normalize(x)));
      }
    }
  }

  /** Once a prefix of a list raises, the whole list raises the same exception. */
  lemma {:induction false} CollectNormalizedFailurePersists(
    normalize: Fact -> Result<Option<NormalizedFact>, ImportError>, facts: seq<Fact>, n: nat)
    requires n <= |facts|
    requires CollectNormalized(normalize, facts[..n]).Failure?
    ensures CollectNormalized(normalize, facts) == CollectNormalized(normalize, facts[..n])
    decreases |facts|
  {
    if n == |facts| {
      assert facts[..n] == facts;
    } else {
      var init := facts[..|facts| - 1];
      assert init[..n] == facts[..n];
      CollectNormalizedFailurePersists(normalize, init, n);
    }
  }

  /** A list of entries normalises exactly when each entry does, and then entry by entry. */
  lemma {:induction false} CollectEntriesMeaning(normalizeKey: (string, seq<Fact>) -> Result<seq<NormalizedFact>, ImportError>, entries: seq<Entry>)
    ensures var r := CollectEntries(normalizeKey, entries);
            && (r.Success? <==> forall i | 0 <= i < |entries| :: normalizeKey(entries[i].key, entries[i].facts).Success?)
            && (r.Success? ==> forall i | 0 <= i < |entries| ::
                                 r.value[i] == NormalizedEntry(entries[i].key, normalizeKey(entries[i].key, entries[i].facts).value))
  {
    if entries != [] {
      var n := |entries| - 1;
      var init := entries[..n];
      CollectEntriesMeaning(normalizeKey, init);
      assert forall i | 0 <= i < n :: entries[i] == init[i];
    }
  }

  /** The entries normalise exactly when every fact of every entry normalises
      without an exception, and then every key, in order, maps to the in-order
      results of normalize_fact with the rejected ones dropped. */
  lemma NormalizeEntriesMeaning(category: Category, currentYear: int, entries: seq<Entry>)
    ensures var r := NormalizeEntries(category, currentYear, entries);
            && (r.Success? <==> forall i, j | 0 <= i < |entries| && 0 <= j < |entries[i].facts| ::
                                   NormalizeFact(category, currentYear, entries[i].key, entries[i].facts[j]).Success?)
            && (r.Success? ==>
                  && |r.value| == |entries|
                  && forall i | 0 <= i < |entries| ::
                       && r.value[i].key == entries[i].key
                       && r.value[i].facts == Present(Outcomes(fact => NormalizeFact(category, currentYear, entries[i].key, fact), entries[i].facts)))
  {
    CollectEntriesMeaning((key, facts) => NormalizeFacts(category, currentYear, key, facts), entries);
    forall i | 0 <= i < |entries| {
      CollectNormalizedMeaning(fact => NormalizeFact(category, currentYear, entries[i].key, fact), entries[i].facts);
    }
  }

  /** normalize_data keeps the keys of filter_data in their order, succeeds exactly
      when every kept fact normalises without an exception, and then maps every
      key to the in-order results of normalize_fact with the rejected ones dropped. */
  lemma NormalizedDataMeaning(category: Category, currentYear: int, data: seq<Entry>)
    ensures var filtered := FilteredData(data);
            var r := NormalizedData(category, currentYear, data);
            && (r.Success? <==> forall i, j | 0 <= i < |filtered| && 0 <= j < |filtered[i].facts| ::
                                   NormalizeFact(category, currentYear, filtered[i].key, filtered[i].facts[j]).Success?)
            && (r.Success? ==>
                  && |r.value| == |filtered|
                  && forall i | 0 <= i < |filtered| ::
                       && r.value[i].key == filtered[i].key
                       && r.value[i].facts == Present(Outcomes(fact => NormalizeFact(category, currentYear, filtered[i].key, fact), filtered[i].facts)))
  {
    NormalizeEntriesMeaning(category, currentYear, FilteredData(data));
  }

  /** Once a prefix of the entries raises, the whole import raises the same exception. */
  lemma {:induction false} CollectEntriesFailurePersists(normalizeKey: (string, seq<Fact>) -> Result<seq<NormalizedFact>, ImportError>, entries: seq<Entry>, n: nat)
    requires n <= |entries|
    requires CollectEntries(normalizeKey, entries[..n]).Failure?
    ensures CollectEntries(normalizeKey, entries) == CollectEntries(normalizeKey, entries[..n])
    decreases |entries|
  {
    if n == |entries| {
      assert entries[..n] == entries;
    } else {
      var init := entries[..|entries| - 1];
      assert init[..n] == entries[..n];
      CollectEntriesFailurePersists(normalizeKey, init, n);
    }
  }

  /** How one more fact extends the normalised prefix of a list. */
  lemma CollectNormalizedStep(normalize: Fact -> Result<Option<NormalizedFact>, ImportError>, facts: seq<Fact>, j: nat)
    requires j < |facts|
    ensures var init := CollectNormalized(normalize, facts[..j]);
            var x := normalize(facts[j]);
            CollectNormalized(normalize, facts[..j + 1]) ==
              if init.Failure? then Failure(init.error)
              else if x.Failure? then Failure(x.error)
              else Success(if x.value.Some? then init.value + [x.value.value] else init.value)
  {
    assert facts[..j + 1][..j] == facts[..j];
  }

  /** How one more entry extends the normalised prefix of the entries. */
  lemma CollectEntriesStep(normalizeKey: (string, seq<Fact>) -> Result<seq<NormalizedFact>, ImportError>, entries: seq<Entry>, i: nat)
    requires i < |entries|
    ensures var init := CollectEntries(normalizeKey, entries[..i]);
            var facts := normalizeKey(entries[i].key, entries[i].facts);
            CollectEntries(normalizeKey, entries[..i + 1]) ==
              if init.Failure? then Failure(init.error)
              else if facts.Failure? then Failure(facts.error)
              else Success(init.value + [NormalizedEntry(entries[i].key, facts.value)])
  {
    assert entries[..i + 1][..i] == entries[..i];
  }

  /** The inner loop of normalize_data: the accepted facts of one key in order,
      or the first exception normalize_fact raises. */
  method NormalizeKeyFacts(category: Category, currentYear: int, key: string, facts: seq<Fact>)
    returns (r: Result<seq<NormalizedFact>, ImportError>)
    ensures r == NormalizeFacts(category, currentYear, key, facts)
  {
    var normalize := fact => NormalizeFact(category, currentYear, key, fact);
    var normalizedFacts: seq<NormalizedFact> := [];
    for j := 0 to |facts|
      invariant CollectNormalized(normalize, facts[..j]) == Success(normalizedFacts)
    {
      var result := NormalizeFact(category, currentYear, key, facts[j]);
      assert normalize(facts[j]) == result;
      CollectNormalizedStep(normalize, facts, j);
      if result.Failure? {
        CollectNormalizedFailurePersists(normalize, facts, j + 1);
        return Failure(result.error);
      }
      if result.value.Some? {
        normalizedFacts := normalizedFacts + [result.value.value];
      }
    }
    assert facts[..|facts|] == facts;
    return Success(normalizedFacts);
  }

  /** normalize_data: filters the caller's dict in place, then normalises every
      kept fact key by key, keeping the accepted ones in a new list per key. */
  method NormalizeData(category: Category, currentYear: int, data: array<Entry>)
    returns (r: Result<seq<NormalizedEntry>, ImportError>)
    modifies data
    ensures data[..] == DropSelfFacts(old(data[..]))
    ensures r == NormalizedData(category, currentYear, old(data[..]))
  {
    var cleanData := FilterData(data);
    var normalizeKey := (key, facts) => NormalizeFacts(category, currentYear, key, facts);
    var normalizedData: seq<NormalizedEntry> := [];
    for i := 0 to |cleanData|
      invariant data[..] == DropSelfFacts(old(data[..]))
      invariant CollectEntries(normalizeKey, cleanData[..i]) == Success(normalizedData)
    {
      var normalizedFacts := NormalizeKeyFacts(category, currentYear, cleanData[i].key, cleanData[i].facts);
      assert normalizeKey(cleanData[i].key, cleanData[i].facts) == normalizedFacts;
      CollectEntriesStep(normalizeKey, cleanData, i);
      if normalizedFacts.Failure? {
        CollectEntriesFailurePersists(normalizeKey, cleanData, i + 1);
        return Failure(normalizedFacts.error);
      }
      normalizedData := normalizedData + [NormalizedEntry(cleanData[i].key, normalizedFacts.value)];
    }
    assert cleanData[..|cleanData|] == cleanData;
    return Success(normalizedData);
  }
}
