/** The bracket lookup of tax_bracket.py: a first-match scan over a table of
    `[min, max] -> rate` bands, as loaded from the configuration file. */
module TaxBrackets {

  import opened Wrappers

  /** A band's upper edge: a number, or `float('inf')`. */
  datatype Edge = Finite(value: real) | Unbounded

  /** One `{'min': .., 'max': .., 'rate': ..}` entry of the table. */
  datatype Band = Band(min: real, max: Edge, rate: real)

  /** `bracket['min'] <= income <= bracket['max']`. */
  predicate Contains(band: Band, income: real)
  {
    band.min <= income && (band.max.Unbounded? || income <= band.max.value)
  }

  /** Band i is the first band of the table holding `income`. */
  predicate FirstMatch(brackets: seq<Band>, income: real, i: int)
  {
    0 <= i < |brackets| && Contains(brackets[i], income) &&
    forall j :: 0 <= j < i ==> !Contains(brackets[j], income)
  }

  /** `get_tax_bracket(income, tax_brackets)`: the rate of the first band, in
      table order, that holds the income; `None` when no band does. */
  function GetTaxBracket(income: real, brackets: seq<Band>): (rate: Option<real>)
    ensures rate.None? <==> forall i :: 0 <= i < |brackets| ==> !Contains(brackets[i], income)
    ensures rate.Some? ==> exists i :: FirstMatch(brackets, income, i) && rate.value == brackets[i].rate
  {
    if |brackets| == 0 then None
    else if Contains(brackets[0], income) then
      assert FirstMatch(brackets, income, 0);
      Some(brackets[0].rate)
    else
      var rest := GetTaxBracket(income, brackets[1..]);
      if rest.Some? then
        var i :| FirstMatch(brackets[1..], income, i) && rest.value == brackets[1..][i].rate;
        assert FirstMatch(brackets, income, i + 1);
        rest
      else
        assert forall i :: 1 <= i < |brackets| ==> brackets[i] == brackets[1..][i - 1];
        rest
  }

  /** The first band holding the income decides the result, whatever the
      later bands say, overlapping ones included. */
  lemma {:induction false} FirstMatchWins(income: real, brackets: seq<Band>, i: int)
    requires FirstMatch(brackets, income, i)
    ensures GetTaxBracket(income, brackets) == Some(brackets[i].rate)
  {
    if i > 0 {
      assert !Contains(brackets[0], income);
      assert FirstMatch(brackets[1..], income, i - 1);
      FirstMatchWins(income, brackets[1..], i - 1);
    }
  }

  /** Appending bands to the end of the table never changes a rate found
      without them. */
  lemma AppendKeepsRate(income: real, brackets: seq<Band>, more: seq<Band>)
    requires GetTaxBracket(income, brackets).Some?
    ensures GetTaxBracket(income, brackets + more) == GetTaxBracket(income, brackets)
  {
    var i :| FirstMatch(brackets, income, i) && GetTaxBracket(income, brackets).value == brackets[i].rate;
    assert FirstMatch(brackets + more, income, i) by {
      assert forall j :: 0 <= j <= i ==> (brackets + more)[j] == brackets[j];
    }
    FirstMatchWins(income, brackets + more, i);
  }

  /** Bands after the first match can be replaced by anything. */
  lemma LaterBandsIgnored(income: real, brackets: seq<Band>, i: int, other: seq<Band>)
    requires FirstMatch(brackets, income, i)
    ensures GetTaxBracket(income, brackets[..i + 1] + other) == GetTaxBracket(income, brackets)
  {
    var table := brackets[..i + 1] + other;
    assert FirstMatch(table, income, i) by {
      assert forall j :: 0 <= j <= i ==> table[j] == brackets[j];
    }
    FirstMatchWins(income, table, i);
    FirstMatchWins(income, brackets, i);
  }

  /** A table whose bands are each non-empty, sorted, separated and whose
      rates rise from band to band. */
  predicate Ascending(brackets: seq<Band>)
  {
    (forall i :: 0 <= i < |brackets| && brackets[i].max.Finite? ==> brackets[i].min <= brackets[i].max.value) &&
    forall i, j :: 0 <= i < j < |brackets| ==>
      brackets[i].max.Finite? && brackets[i].max.value < brackets[j].min && brackets[i].rate <= brackets[j].rate
  }

  /** In an ascending table no income lies in two bands. */
  lemma UniqueBand(income: real, brackets: seq<Band>, i: int, j: int)
    requires Ascending(brackets)
    requires 0 <= i < |brackets| && 0 <= j < |brackets|
    requires Contains(brackets[i], income) && Contains(brackets[j], income)
    ensures i == j
  {
  }

  /** In an ascending table a higher income never gets a lower rate. */
  lemma RateMonotone(a: real, b: real, brackets: seq<Band>)
    requires Ascending(brackets) && a <= b
    requires GetTaxBracket(a, brackets).Some? && GetTaxBracket(b, brackets).Some?
    ensures GetTaxBracket(a, brackets).value <= GetTaxBracket(b, brackets).value
  {
    var i :| FirstMatch(brackets, a, i) && GetTaxBracket(a, brackets).value == brackets[i].rate;
    var j :| FirstMatch(brackets, b, j) && GetTaxBracket(b, brackets).value == brackets[j].rate;
  }
}
