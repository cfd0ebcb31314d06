/** The built-in table of retirement/dependencies/tax_bracket.py and its
    one-argument lookup, which scans that table with the same first-match rule
    as the configurable lookup. */
module LatestTaxBrackets {

  import opened Wrappers
  import TaxBrackets

  /** The `'brackets'` list `fetch_latest_tax_brackets` returns: seven bands
      with whole-number edges, each starting one above the previous band's
      top, and an infinite top edge on the last. */
  const LatestBrackets: seq<TaxBrackets.Band> := [
    TaxBrackets.Band(0.0, TaxBrackets.Finite(9950.0), 10.0),
    TaxBrackets.Band(9951.0, TaxBrackets.Finite(40525.0), 12.0),
    TaxBrackets.Band(40526.0, TaxBrackets.Finite(86375.0), 22.0),
    TaxBrackets.Band(86376.0, TaxBrackets.Finite(164925.0), 24.0),
    TaxBrackets.Band(164926.0, TaxBrackets.Finite(209425.0), 32.0),
    TaxBrackets.Band(209426.0, TaxBrackets.Finite(523600.0), 35.0),
    TaxBrackets.Band(523601.0, TaxBrackets.Unbounded, 37.0)
  ]

  /** The income lies strictly between one band's top and the next band's
      bottom, where no band applies. */
  predicate InGap(income: real)
  {
    (9950.0 < income < 9951.0) || (40525.0 < income < 40526.0) || (86375.0 < income < 86376.0) ||
    (164925.0 < income < 164926.0) || (209425.0 < income < 209426.0) || (523600.0 < income < 523601.0)
  }

  /** `get_tax_bracket(income)`: no rate for a negative income or one that
      falls between two bands; otherwise one of the seven rates, the top one
      for every income above 523,600. */
  function GetTaxBracket(income: real): (rate: Option<real>)
    ensures rate.None? <==> income < 0.0 || InGap(income)
    ensures rate.Some? ==> rate.value in {10.0, 12.0, 22.0, 24.0, 32.0, 35.0, 37.0}
    ensures income >= 523601.0 ==> rate == Some(37.0)
  {
    var table := LatestBrackets;
    assert forall i :: 0 <= i < |table| ==> table[i].rate in {10.0, 12.0, 22.0, 24.0, 32.0, 35.0, 37.0};
    assert (forall i :: 0 <= i < |table| ==> !TaxBrackets.Contains(table[i], income))
           <==> income < 0.0 || InGap(income) by {
      assert TaxBrackets.Contains(table[0], income) <==> 0.0 <= income <= 9950.0;
      assert TaxBrackets.Contains(table[1], income) <==> 9951.0 <= income <= 40525.0;
      assert TaxBrackets.Contains(table[2], income) <==> 40526.0 <= income <= 86375.0;
      assert TaxBrackets.Contains(table[3], income) <==> 86376.0 <= income <= 164925.0;
      assert TaxBrackets.Contains(table[4], income) <==> 164926.0 <= income <= 209425.0;
      assert TaxBrackets.Contains(table[5], income) <==> 209426.0 <= income <= 523600.0;
      assert TaxBrackets.Contains(table[6], income) <==> 523601.0 <= income;
    }
    TaxBrackets.GetTaxBracket(income, table)
  }

  /** The incomes the table covers: not negative and not in a gap. */
  predicate Covered(income: real)
  {
    income >= 0.0 && !InGap(income)
  }

  /** The rate of a covered income read off the band edges alone. */
  function BandRate(income: real): (rate: real)
    ensures 10.0 <= rate <= 37.0
  {
    if income <= 9950.0 then 10.0
    else if income <= 40525.0 then 12.0
    else if income <= 86375.0 then 22.0
    else if income <= 164925.0 then 24.0
    else if income <= 209425.0 then 32.0
    else if income <= 523600.0 then 35.0
    else 37.0
  }

  /** The table scan agrees with the band edges: a covered income gets the
      rate of the band its value falls in, any other income gets none. */
  lemma RateByEdges(income: real)
    ensures GetTaxBracket(income) == if Covered(income) then Some(BandRate(income)) else None
  {
    var rate := GetTaxBracket(income);
    if rate.Some? {
      var i :| TaxBrackets.FirstMatch(LatestBrackets, income, i) && rate.value == LatestBrackets[i].rate;
    }
  }

  /** Three sample incomes: a middle one, zero, and one far above the last
      finite edge. */
  lemma SampleRates()
    ensures GetTaxBracket(50000.0) == Some(22.0)
    ensures GetTaxBracket(0.0) == Some(10.0)
    ensures GetTaxBracket(10_000_000.0) == Some(37.0)
    ensures GetTaxBracket(-1.0) == None
    ensures GetTaxBracket(9950.5) == None && GetTaxBracket(40525.5) == None
  {
    TaxBrackets.FirstMatchWins(50000.0, LatestBrackets, 2);
    TaxBrackets.FirstMatchWins(0.0, LatestBrackets, 0);
  }

  /** Every whole-number income of at least zero gets a rate. */
  lemma WholeIncomeCovered(income: nat)
    ensures GetTaxBracket(income as real).Some?
  {
  }

  /** The table is sorted, its bands disjoint and its rates rising. */
  lemma LatestBracketsAscending()
    ensures TaxBrackets.Ascending(LatestBrackets)
  {
  }

  /** A higher income never gets a lower rate. */
  lemma LatestRateMonotone(a: real, b: real)
    requires a <= b && GetTaxBracket(a).Some? && GetTaxBracket(b).Some?
    ensures GetTaxBracket(a).value <= GetTaxBracket(b).value
  {
    LatestBracketsAscending();
    TaxBrackets.RateMonotone(a, b, LatestBrackets);
  }

  /** No income lies in two bands of the table. */
  lemma LatestBandUnique(income: real, i: int, j: int)
    requires 0 <= i < |LatestBrackets| && 0 <= j < |LatestBrackets|
    requires TaxBrackets.Contains(LatestBrackets[i], income) && TaxBrackets.Contains(LatestBrackets[j], income)
    ensures i == j
  {
    LatestBracketsAscending();
    TaxBrackets.UniqueBand(income, LatestBrackets, i, j);
  }
}
