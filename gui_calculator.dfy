/** The calculator class of the GUI package
    (retirement/retirement_calculator_gui.py). Its `project_savings` is the
    top-level accumulation loop plus one tax computation per year on the
    raised income; the tax is never used, but a failed bracket lookup makes
    `None / 100` raise, which ends the projection with no result. Its
    withdrawal, recommendations, plot axis and history rule are the same
    text as in the other calculators and are modelled there. */
module GuiCalculator {

  import opened Wrappers
  import opened Projection
  import LatestTaxBrackets
  import Calculator

  /** `calculate_taxes`: the income times its bracket's rate, or no result
      (the `TypeError` of dividing `None`) when no bracket applies. The tax
      is between 10% and 37% of the income. */
  method CalculateTaxes(income: real) returns (taxes: Option<real>)
    ensures taxes.None? <==> !LatestTaxBrackets.Covered(income)
    ensures taxes.Some? ==> taxes.value == income * (LatestTaxBrackets.BandRate(income) / 100.0)
    ensures taxes.Some? ==> 0.10 * income <= taxes.value <= 0.37 * income
  {
    var taxBracket := LatestTaxBrackets.GetTaxBracket(income);
    LatestTaxBrackets.RateByEdges(income);
    if taxBracket.None? {
      return None;
    }
    var taxRate := taxBracket.value / 100.0;
    taxes := Some(income * taxRate);
    assert income * taxRate - 0.10 * income == income * (taxRate - 0.10);
    assert 0.37 * income - income * taxRate == income * (0.37 - taxRate);
  }

  /** Some year's raised income, the one the tax is computed on, has no
      bracket: the projection raises an error before it finishes. */
  predicate TaxLookupFails(data: Profile)
  {
    exists k :: 1 <= k <= YearsToRetirement(data) && !LatestTaxBrackets.Covered(IncomeAt(data, k))
  }

  /** `RetirementCalculator.project_savings`: the top-level loop, with
      `after_tax_income` computed on the raised income at the end of every
      year. It fails exactly when one of those incomes has no bracket;
      otherwise its balance and list are those of the top-level calculator. */
  method ProjectSavings(data: Profile) returns (result: Option<(real, seq<real>)>)
    ensures result.None? <==> TaxLookupFails(data)
    ensures result.Some? ==> result.value.1 == AccumulationCurve(data, YearsToRetirement(data))
    ensures result.Some? ==> result.value.0 == SavingsAfter(data, YearsToRetirement(data))
  {
    var currentIncome := data.currentIncome;
    var salaryIncreasePct := data.salaryIncreasePct / 100.0;
    var currentSavings := data.currentSavings;
    var annualContribPct := data.annualContribPct / 100.0;
    var employerMatchPct := data.employerMatchPct / 100.0;
    var employerMatchLimit := data.employerMatchLimit;
    var expectedReturn := data.expectedReturn / 100.0;

    var yearsToRetirement := data.retirementAge - data.currentAge;
    var savingsOverTime := [];
    var n := if yearsToRetirement > 0 then yearsToRetirement else 0;
    for year := 0 to n
      invariant currentIncome == IncomeAt(data, year)
      invariant currentSavings == SavingsAfter(data, year)
      invariant savingsOverTime == AccumulationCurve(data, year)
      invariant forall k :: 1 <= k <= year ==> LatestTaxBrackets.Covered(IncomeAt(data, k))
    {
      var totalContribution := Calculator.YearContribution(data, currentIncome, annualContribPct, employerMatchPct, employerMatchLimit);
      currentSavings := Calculator.GrowSavings(data, year, currentSavings, totalContribution, expectedReturn);
      currentIncome := Calculator.RaiseIncome(data, year, currentIncome, salaryIncreasePct);
      var taxes := CalculateTaxes(currentIncome);
      if taxes.None? {
        assert 1 <= year + 1 <= YearsToRetirement(data) && !LatestTaxBrackets.Covered(IncomeAt(data, year + 1));
        return None;
      }
      var afterTaxIncome := currentIncome - taxes.value;
      savingsOverTime := savingsOverTime + [currentSavings];
    }
    assert n == YearsToRetirement(data);
    result := Some((currentSavings, savingsOverTime));
  }

  /** Without a raise the income never changes. */
  lemma {:induction false} FlatIncome(data: Profile, k: nat)
    requires data.salaryIncreasePct == 0.0
    ensures IncomeAt(data, k) == data.currentIncome
  {
    if k > 0 {
      FlatIncome(data, k - 1);
    }
  }

  /** A starting income between two brackets that is never raised makes the
      projection fail in its first year (9,950.50 is one such income). */
  lemma GapIncomeFails(data: Profile)
    requires data.salaryIncreasePct == 0.0 && LatestTaxBrackets.InGap(data.currentIncome)
    requires YearsToRetirement(data) >= 1
    ensures TaxLookupFails(data)
  {
    FlatIncome(data, 1);
  }

  /** A negative income fails too, whenever a raise keeps it negative. */
  lemma NegativeIncomeFails(data: Profile)
    requires data.currentIncome < 0.0 && data.salaryIncreasePct > -100.0
    requires YearsToRetirement(data) >= 1
    ensures TaxLookupFails(data)
  {
    var raise := 1.0 + data.salaryIncreasePct / 100.0;
    assert IncomeAt(data, 1) == data.currentIncome * raise;
  }

  /** A whole-dollar income that is never raised always finds its bracket,
      so the projection then agrees with the top-level calculator. */
  lemma WholeIncomeSucceeds(data: Profile, income: nat)
    requires data.salaryIncreasePct == 0.0 && data.currentIncome == income as real
    ensures !TaxLookupFails(data)
  {
    forall k | 1 <= k <= YearsToRetirement(data)
      ensures LatestTaxBrackets.Covered(IncomeAt(data, k))
    {
      FlatIncome(data, k);
      LatestTaxBrackets.WholeIncomeCovered(income);
    }
  }
}
