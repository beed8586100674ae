/** The CGT brackets seeded by alembic/versions/0006_create_tax_rules.py; dates are proleptic day numbers. */
module TaxTable {
  import opened Wrappers
  import opened Cgt
  import opened CgtLaws

  const JULY_2022 := 738337
  const END_JUNE_2024 := 739067
  const JULY_2024 := 739068

  function Fy24(isFiler: bool, minDays: int, maxDays: Option<int>, rate: real): TaxBracket {
    TaxBracket(JULY_2022, Some(END_JUNE_2024), isFiler, minDays, maxDays, rate)
  }

  function Flat(isFiler: bool, rate: real): TaxBracket {
    TaxBracket(JULY_2024, None, isFiler, 0, None, rate)
  }

  function SeededBrackets(): seq<TaxBracket> {
    [
      Fy24(true, 0, Some(365), 15.0),
      Fy24(true, 366, Some(730), 12.5),
      Fy24(true, 731, Some(1095), 10.0),
      Fy24(true, 1096, Some(1460), 7.5),
      Fy24(true, 1461, None, 0.0),
      Fy24(false, 0, Some(365), 30.0),
      Fy24(false, 366, Some(730), 25.0),
      Fy24(false, 731, Some(1095), 20.0),
      Fy24(false, 1096, Some(1460), 15.0),
      Fy24(false, 1461, None, 0.0),
      Flat(true, 15.0),
      Flat(false, 45.0)
    ]
  }

  /** The row the table is meant to give, counted by hand. */
  function ExpectedRow(sellDate: int, isFiler: bool, holdingDays: int): int {
    var status := if isFiler then 0 else 5;
    if sellDate >= JULY_2024 then (if isFiler then 10 else 11)
    else if holdingDays <= 365 then status
    else if holdingDays <= 730 then status + 1
    else if holdingDays <= 1095 then status + 2
    else if holdingDays <= 1460 then status + 3
    else status + 4
  }

  /**
    From 1 July 2022 on, every status and holding period matches exactly one row; before that, and for a
    negative holding period, none.
  */
  lemma SeedHasExactlyOneMatch(sellDate: int, isFiler: bool, holdingDays: int)
    ensures forall k :: 0 <= k < |SeededBrackets()| ==>
      (BracketMatches(SeededBrackets()[k], sellDate, isFiler, holdingDays)
       <==> sellDate >= JULY_2022 && holdingDays >= 0 && k == ExpectedRow(sellDate, isFiler, holdingDays))
  {
  }

  /** In any table, a row that is the only match is the one found; without a match none is. */
  lemma OnlyMatchIsFound(table: seq<TaxBracket>, sellDate: int, isFiler: bool, holdingDays: int, found: bool, row: int)
    requires found ==> 0 <= row < |table|
    requires forall k :: 0 <= k < |table| ==>
      (BracketMatches(table[k], sellDate, isFiler, holdingDays) <==> found && k == row)
    ensures FindBracket(table, sellDate, isFiler, holdingDays)
         == if found then Success(table[row]) else Failure(NoApplicableTaxRule)
  {
    FindBracketIsMostSpecific(table, sellDate, isFiler, holdingDays);
    if found {
      assert table[row] in table;
    }
  }

  lemma SeedLookup(sellDate: int, isFiler: bool, holdingDays: int)
    ensures var r := FindBracket(SeededBrackets(), sellDate, isFiler, holdingDays);
      if sellDate >= JULY_2022 && holdingDays >= 0
      then r == Success(SeededBrackets()[ExpectedRow(sellDate, isFiler, holdingDays)])
      else r == Failure(NoApplicableTaxRule)
  {
    SeedHasExactlyOneMatch(sellDate, isFiler, holdingDays);
    OnlyMatchIsFound(SeededBrackets(), sellDate, isFiler, holdingDays, sellDate >= JULY_2022 && holdingDays >= 0,
                     ExpectedRow(sellDate, isFiler, holdingDays));
  }

  /** Nothing is seeded for sales before July 2022. */
  lemma NothingBeforeSeed(sellDate: int, isFiler: bool, holdingDays: int)
    requires sellDate < JULY_2022
    ensures FindBracket(SeededBrackets(), sellDate, isFiler, holdingDays).Failure?
  {
    SeedLookup(sellDate, isFiler, holdingDays);
  }

  ghost predicate StartsInJuly2022(brackets: seq<TaxBracket>) {
    forall sellDate, isFiler, days | sellDate < JULY_2022 :: FindBracket(brackets, sellDate, isFiler, days).Failure?
  }

  lemma SeedStartsInJuly2022()
    ensures StartsInJuly2022(SeededBrackets())
  {
    forall sellDate: int, isFiler: bool, days: int | sellDate < JULY_2022
      ensures FindBracket(SeededBrackets(), sellDate, isFiler, days).Failure?
    {
      NothingBeforeSeed(sellDate, isFiler, days);
    }
  }

  // ---- What the comparison of the two statuses needs from a table -------------------------------

  /** A filer has a bracket exactly where a non-filer has one. */
  ghost predicate CoversBothStatuses(brackets: seq<TaxBracket>) {
    forall date, days ::
      FindBracket(brackets, date, true, days).Success? <==> FindBracket(brackets, date, false, days).Success?
  }

  /** Where both have one, the filer's rate is no higher. */
  ghost predicate FavoursFilers(brackets: seq<TaxBracket>) {
    forall date, days ::
      FindBracket(brackets, date, true, days).Success? && FindBracket(brackets, date, false, days).Success? ==>
        FindBracket(brackets, date, true, days).value.ratePct <= FindBracket(brackets, date, false, days).value.ratePct
  }

  lemma SeedPair(date: int, days: int)
    ensures var f := FindBracket(SeededBrackets(), date, true, days);
            var n := FindBracket(SeededBrackets(), date, false, days);
      && (f.Success? <==> n.Success?)
      && (f.Success? && n.Success? ==> f.value.ratePct <= n.value.ratePct)
  {
    SeedLookup(date, true, days);
    SeedLookup(date, false, days);
  }

  lemma SeedIsFair()
    ensures CoversBothStatuses(SeededBrackets())
    ensures FavoursFilers(SeededBrackets())
  {
    forall date: int, days: int
      ensures FindBracket(SeededBrackets(), date, true, days).Success?
        <==> FindBracket(SeededBrackets(), date, false, days).Success?
    {
      SeedPair(date, days);
    }
    forall date: int, days: int
      | FindBracket(SeededBrackets(), date, true, days).Success?
        && FindBracket(SeededBrackets(), date, false, days).Success?
      ensures FindBracket(SeededBrackets(), date, true, days).value.ratePct
           <= FindBracket(SeededBrackets(), date, false, days).value.ratePct
    {
      SeedPair(date, days);
    }
  }

  lemma SeedRatesInRange()
    ensures RatesInRange(SeededBrackets())
  {
  }
}
