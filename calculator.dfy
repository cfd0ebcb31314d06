/** The top-level calculator (retirement_calculator.py): accumulation only,
    with the percentages divided by 100 once before the loop, the employer
    match written with `min`, and the annuity withdrawal written as
    `total * rate / (1 - (1 + rate) ** -years)`. Each is proved equal to the
    formula of the projection engine. The GUI package's class
    (retirement/retirement_calculator_gui.py) carries the same withdrawal
    function word for word. */
module Calculator {

  import opened Finance
  import opened Projection

  /** Python's `min(a, b)`: `b` only when it is strictly smaller. */
  function Min(a: real, b: real): (m: real)
    ensures m <= a && m <= b
    ensures m == a || m == b
  {
    if b < a then b else a
  }

  /** The year's contribution as the loop body writes it, with the
      percentages already divided by 100 (`contribPct`, `matchPct`) and the
      limit still a whole percentage. */
  function LoopContribution(income: real, contribPct: real, matchPct: real, employerMatchLimit: real): real
  {
    var contribution := income * contribPct;
    contribution + Min(contribution, income * employerMatchLimit / 100.0) * matchPct
  }

  /** The loop's contribution is the engine's `calculate_annual_contribution`
      on the undivided percentages. */
  lemma LoopContributionAgrees(income: real, annualContribPct: real, employerMatchPct: real, employerMatchLimit: real)
    ensures LoopContribution(income, annualContribPct / 100.0, employerMatchPct / 100.0, employerMatchLimit)
            == AnnualContribution(income, annualContribPct, employerMatchPct, employerMatchLimit)
  {
    assert income * employerMatchLimit / 100.0 == income * (employerMatchLimit / 100.0);
  }

  /** The growth at the end of year k's loop body: adding the engine's
      contribution on year k's income and growing by the expected return
      gives year k + 1's balance. */
  method GrowSavings(data: Profile, k: nat, currentSavings: real, totalContribution: real, expectedReturn: real)
    returns (grown: real)
    requires currentSavings == SavingsAfter(data, k) && expectedReturn == data.expectedReturn / 100.0
    requires totalContribution == AnnualContribution(IncomeAt(data, k), data.annualContribPct, data.employerMatchPct, data.employerMatchLimit)
    ensures grown == SavingsAfter(data, k + 1)
  {
    grown := currentSavings + totalContribution;
    grown := grown * (1.0 + expectedReturn);
  }

  /** The raise at the end of the loop body takes year k's income to year
      k + 1's. */
  method RaiseIncome(data: Profile, k: nat, currentIncome: real, salaryIncreasePct: real) returns (raised: real)
    requires currentIncome == IncomeAt(data, k) && salaryIncreasePct == data.salaryIncreasePct / 100.0
    ensures raised == IncomeAt(data, k + 1)
  {
    raised := currentIncome * (1.0 + salaryIncreasePct);
  }

  /** The first three statements of the loop body: the employee part, the
      employer match on at most `employerMatchLimit` percent of income, and
      their sum, which is the engine's contribution on the undivided
      percentages. */
  method YearContribution(data: Profile, currentIncome: real, annualContribPct: real, employerMatchPct: real, employerMatchLimit: real)
    returns (totalContribution: real)
    requires annualContribPct == data.annualContribPct / 100.0 && employerMatchPct == data.employerMatchPct / 100.0
    requires employerMatchLimit == data.employerMatchLimit
    ensures totalContribution == LoopContribution(currentIncome, annualContribPct, employerMatchPct, employerMatchLimit)
    ensures totalContribution == AnnualContribution(currentIncome, data.annualContribPct, data.employerMatchPct, data.employerMatchLimit)
  {
    var contribution := currentIncome * annualContribPct;
    var employerMatch := Min(contribution, currentIncome * employerMatchLimit / 100.0) * employerMatchPct;
    totalContribution := contribution + employerMatch;
    LoopContributionAgrees(currentIncome, data.annualContribPct, data.employerMatchPct, data.employerMatchLimit);
  }

  /** `RetirementCalculator.project_savings`: one entry per year until
      retirement, the balance at the end of that year; the returned balance
      is the last entry, or the starting savings when there are no years. */
  method ProjectSavings(data: Profile) returns (currentSavings: real, savingsOverTime: seq<real>)
    ensures |savingsOverTime| == YearsToRetirement(data)
    ensures savingsOverTime == AccumulationCurve(data, YearsToRetirement(data))
    ensures currentSavings == SavingsAfter(data, YearsToRetirement(data))
    ensures currentSavings == if savingsOverTime == [] then data.currentSavings
                              else savingsOverTime[|savingsOverTime| - 1]
  {
    var currentIncome := data.currentIncome;
    var salaryIncreasePct := data.salaryIncreasePct / 100.0;
    currentSavings := data.currentSavings;
    var annualContribPct := data.annualContribPct / 100.0;
    var employerMatchPct := data.employerMatchPct / 100.0;
    var employerMatchLimit := data.employerMatchLimit;
    var expectedReturn := data.expectedReturn / 100.0;

    var yearsToRetirement := data.retirementAge - data.currentAge;
    savingsOverTime := [];
    var n := if yearsToRetirement > 0 then yearsToRetirement else 0;
    for year := 0 to n
      invariant currentIncome == IncomeAt(data, year)
      invariant currentSavings == SavingsAfter(data, year)
      invariant savingsOverTime == AccumulationCurve(data, year)
    {
      var totalContribution := YearContribution(data, currentIncome, annualContribPct, employerMatchPct, employerMatchLimit);
      currentSavings := GrowSavings(data, year, currentSavings, totalContribution, expectedReturn);
      currentIncome := RaiseIncome(data, year, currentIncome, salaryIncreasePct);
      savingsOverTime := savingsOverTime + [currentSavings];
    }
    if n > 0 {
      assert savingsOverTime[n - 1] == SavingsAfter(data, n);
    }
  }

  /** With non-negative inputs the list this calculator returns is sorted and
      never below the starting savings, and so is its balance. */
  lemma ProjectionNeverShrinks(data: Profile)
    requires NonNegativeInputs(data)
    ensures var curve := AccumulationCurve(data, YearsToRetirement(data));
            forall i, j :: 0 <= i <= j < |curve| ==> data.currentSavings <= curve[i] <= curve[j]
    ensures data.currentSavings <= SavingsAfter(data, YearsToRetirement(data))
  {
    AccumulationCurveSorted(data, YearsToRetirement(data));
    AccumulationMonotone(data, 0, YearsToRetirement(data));
  }

  /** `total * r / (t * r)` is `total / t` once `r` is not zero. */
  lemma ScaleCancels(total: real, r: real, t: real)
    requires r != 0.0 && t != 0.0
    ensures total * r / (t * r) == total / t
  {
    assert total * r == (total / t) * (t * r);
  }

  /** `calculate_annual_withdrawal`: the straight-line share at a zero rate,
      and otherwise `total * rate / (1 - (1 + rate) ** -years)`, which is the
      engine's `total / annuity_factor`; either way the level payment whose
      discounted sum over the years is the savings. */
  function AnnualWithdrawal(totalSavings: real, years: int, returnRate: real): (w: real)
    requires years > 0 && returnRate > -1.0
    ensures w == Projection.AnnualWithdrawal(totalSavings, years, returnRate)
    ensures PresentValue(w, returnRate, years) == totalSavings
    ensures returnRate == 0.0 ==> w == totalSavings / years as real
  {
    if returnRate == 0.0 then totalSavings / years as real
    else
      var factor := AnnuityFactor(returnRate, years);
      var denominator := 1.0 - IntPow(1.0 + returnRate, -years);
      assert denominator == factor * returnRate;
      ScaleCancels(totalSavings, returnRate, factor);
      totalSavings * returnRate / denominator
  }
}
