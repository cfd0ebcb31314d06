/** The projection engine of the command-line calculator
    (retirement/retirement_calculator.py): the yearly contribution, the
    accumulation and drawdown loops, the annuity withdrawal, the future value
    helper, the recommendation rule and the age axis of the savings plot.

    Its formulas are the reference the other two calculators are proved
    against. Money and rates are exact reals; percentages are whole numbers
    (7 means 7%). */
module Projection {

  import opened Finance

  /** One set of user inputs, as collected by `get_user_data`. */
  datatype Profile = Profile(
    currentAge: int,
    retirementAge: int,
    lifeExpectancy: int,
    currentIncome: real,
    salaryIncreasePct: real,
    currentSavings: real,
    annualContribPct: real,
    employerMatchPct: real,
    employerMatchLimit: real,
    expectedReturn: real)

  /** Inputs for which the accumulation phase can only add money. */
  predicate NonNegativeInputs(p: Profile)
  {
    p.currentIncome >= 0.0 && p.salaryIncreasePct >= 0.0 && p.currentSavings >= 0.0 &&
    p.annualContribPct >= 0.0 && p.employerMatchPct >= 0.0 && p.employerMatchLimit >= 0.0 &&
    p.expectedReturn >= 0.0
  }

  /** Inputs on which the drawdown phase does not divide by zero: at least one
      year in retirement, and a return above -100% (`(1 + rate) ** -years`
      is undefined at rate = -1). */
  predicate DrawdownDefined(p: Profile)
  {
    p.lifeExpectancy > p.retirementAge && p.expectedReturn > -100.0
  }

  // ---------------------------------------------------------------------------
  // Contributions and accumulation

  /** `calculate_annual_contribution`: the employee pays `contribPct` percent
      of income, and the employer adds `employerMatchPct` percent of the
      employee amount, counting at most `employerMatchLimit` percent of income. */
  function AnnualContribution(income: real, contribPct: real, employerMatchPct: real, employerMatchLimit: real): real
  {
    var employeeContrib := income * (contribPct / 100.0);
    var cap := income * (employerMatchLimit / 100.0);
    var employerContrib := (if cap <= employeeContrib then cap else employeeContrib) * (employerMatchPct / 100.0);
    employeeContrib + employerContrib
  }

  /** The employer part is one of the two candidate matches, the match on the
      whole employee amount or the match on the capped share of income, and
      with a non-negative match rate it is the smaller of the two: it never
      exceeds either. */
  lemma EmployerMatchCapped(income: real, contribPct: real, employerMatchPct: real, employerMatchLimit: real)
    ensures var total := AnnualContribution(income, contribPct, employerMatchPct, employerMatchLimit);
            var employee := income * (contribPct / 100.0);
            var cap := income * (employerMatchLimit / 100.0);
            var rate := employerMatchPct / 100.0;
            (total == employee + employee * rate || total == employee + cap * rate) &&
            (rate >= 0.0 ==> total <= employee + employee * rate && total <= employee + cap * rate)
  {
    var employee := income * (contribPct / 100.0);
    var cap := income * (employerMatchLimit / 100.0);
    var rate := employerMatchPct / 100.0;
    var matched := if cap <= employee then cap else employee;
    if rate >= 0.0 {
      MulNonNegative(employee - matched, rate);
      MulNonNegative(cap - matched, rate);
    }
  }

  /** With non-negative income and percentages nothing is ever taken out. */
  lemma AnnualContributionNonNegative(income: real, contribPct: real, employerMatchPct: real, employerMatchLimit: real)
    requires income >= 0.0 && contribPct >= 0.0 && employerMatchPct >= 0.0 && employerMatchLimit >= 0.0
    ensures AnnualContribution(income, contribPct, employerMatchPct, employerMatchLimit) >= 0.0
  {
    var employee := income * (contribPct / 100.0);
    var cap := income * (employerMatchLimit / 100.0);
    MulNonNegative(income, contribPct / 100.0);
    MulNonNegative(income, employerMatchLimit / 100.0);
    MulNonNegative(employee, employerMatchPct / 100.0);
    MulNonNegative(cap, employerMatchPct / 100.0);
  }

  /** Python's `pv * ((1 + rate) ** nper)`. */
  function FutureValue(pv: real, rate: real, nper: int): real
    requires nper >= 0 || rate != -1.0
  {
    pv * IntPow(1.0 + rate, nper)
  }

  /** Compounding for m periods and then n more is compounding for m + n. */
  lemma FutureValueCompose(pv: real, rate: real, m: nat, n: nat)
    ensures FutureValue(FutureValue(pv, rate, m), rate, n) == FutureValue(pv, rate, m + n)
  {
    PowAdd(1.0 + rate, m, n);
  }

  /** Growing a payment's discounted value for t periods gives the payment back. */
  lemma FutureValueUndoesDiscount(payment: real, rate: real, t: nat)
    requires rate > -1.0
    ensures FutureValue(FutureValue(payment, rate, -(t as int)), rate, t) == payment
  {
    PowPositive(1.0 + rate, t);
    var d := Pow(1.0 + rate, t);
    if t > 0 {
      assert FutureValue(payment, rate, -(t as int)) == payment * (1.0 / d);
      assert payment * (1.0 / d) * d == payment;
    }
  }

  /** The growth factor of one year. */
  function Growth(p: Profile): real
  {
    1.0 + p.expectedReturn / 100.0
  }

  /** `range(retirement_age - current_age)`: no years when the difference is
      not positive. */
  function YearsToRetirement(p: Profile): nat
  {
    if p.retirementAge > p.currentAge then p.retirementAge - p.currentAge else 0
  }

  /** `range(life_expectancy - retirement_age)`. */
  function YearsInRetirement(p: Profile): nat
  {
    if p.lifeExpectancy > p.retirementAge then p.lifeExpectancy - p.retirementAge else 0
  }

  /** The income used for the contribution of year k + 1 (k raises so far). */
  function IncomeAt(p: Profile, k: nat): real
  {
    if k == 0 then p.currentIncome
    else IncomeAt(p, k - 1) * (1.0 + p.salaryIncreasePct / 100.0)
  }

  /** The balance after k years of accumulation: each year the contribution,
      computed on that year's income, is added before the year's growth. */
  function SavingsAfter(p: Profile, k: nat): real
  {
    if k == 0 then p.currentSavings
    else
      var contribution := AnnualContribution(IncomeAt(p, k - 1), p.annualContribPct, p.employerMatchPct, p.employerMatchLimit);
      (SavingsAfter(p, k - 1) + contribution) * Growth(p)
  }

  /** The accumulation part of `savings_over_time` after n years: one entry per
      year, the balance at the end of that year. */
  function AccumulationCurve(p: Profile, n: nat): (curve: seq<real>)
    ensures |curve| == n
    ensures forall i :: 0 <= i < n ==> curve[i] == SavingsAfter(p, i + 1)
  {
    if n == 0 then [] else AccumulationCurve(p, n - 1) + [SavingsAfter(p, n)]
  }

  /** Income is raised only after the year's contribution: the k-th year
      contributes on the starting income raised k - 1 times. */
  lemma {:induction false} IncomeClosedForm(p: Profile, k: nat)
    ensures IncomeAt(p, k) == p.currentIncome * Pow(1.0 + p.salaryIncreasePct / 100.0, k)
  {
    if k > 0 {
      IncomeClosedForm(p, k - 1);
      var r := 1.0 + p.salaryIncreasePct / 100.0;
      assert p.currentIncome * Pow(r, k - 1) * r == p.currentIncome * (r * Pow(r, k - 1));
    }
  }

  /** Each entry of the accumulation curve is the previous balance plus the
      year's employee and employer contributions, grown by one year's return. */
  lemma AccumulationStep(p: Profile, n: nat, i: nat)
    requires i < n
    ensures var curve := AccumulationCurve(p, n);
            var previous := if i == 0 then p.currentSavings else curve[i - 1];
            var income := p.currentIncome * Pow(1.0 + p.salaryIncreasePct / 100.0, i);
            curve[i] == (previous + AnnualContribution(income, p.annualContribPct, p.employerMatchPct, p.employerMatchLimit)) * Growth(p)
  {
    IncomeClosedForm(p, i);
    var curve := AccumulationCurve(p, n);
    assert curve[i] == SavingsAfter(p, i + 1);
    assert i > 0 ==> curve[i - 1] == SavingsAfter(p, i);
  }

  lemma {:induction false} IncomeNonNegative(p: Profile, k: nat)
    requires NonNegativeInputs(p)
    ensures IncomeAt(p, k) >= 0.0
  {
    if k > 0 {
      IncomeNonNegative(p, k - 1);
      assert IncomeAt(p, k - 1) * (1.0 + p.salaryIncreasePct / 100.0) >= 0.0;
    }
  }

  /** Adding a non-negative amount and growing by a factor of at least one
      never lowers a non-negative balance. */
  lemma GrowthNeverLowers(s: real, c: real, g: real)
    requires s >= 0.0 && c >= 0.0 && g >= 1.0
    ensures s <= (s + c) * g
  {
    MulNonNegative(c, g);
    MulNonNegative(s, g - 1.0);
    assert (s + c) * g == s + s * (g - 1.0) + c * g;
  }

  /** With non-negative inputs a year of accumulation never lowers the balance. */
  lemma {:induction false} AccumulationYearGrows(p: Profile, k: nat)
    requires NonNegativeInputs(p)
    ensures p.currentSavings <= SavingsAfter(p, k) <= SavingsAfter(p, k + 1)
  {
    if k > 0 {
      AccumulationYearGrows(p, k - 1);
    }
    IncomeNonNegative(p, k);
    var c := AnnualContribution(IncomeAt(p, k), p.annualContribPct, p.employerMatchPct, p.employerMatchLimit);
    AnnualContributionNonNegative(IncomeAt(p, k), p.annualContribPct, p.employerMatchPct, p.employerMatchLimit);
    GrowthNeverLowers(SavingsAfter(p, k), c, Growth(p));
  }

  /** With non-negative inputs the accumulation balances never decrease and
      never drop below the starting savings. */
  lemma {:induction false} AccumulationMonotone(p: Profile, i: nat, j: nat)
    requires NonNegativeInputs(p) && i <= j
    ensures p.currentSavings <= SavingsAfter(p, i) <= SavingsAfter(p, j)
    decreases j - i
  {
    AccumulationYearGrows(p, i);
    if i < j {
      AccumulationMonotone(p, i + 1, j);
    }
  }

  /** The accumulation curve is sorted and bounded below by the starting savings. */
  lemma AccumulationCurveSorted(p: Profile, n: nat)
    requires NonNegativeInputs(p)
    ensures var curve := AccumulationCurve(p, n);
            forall i, j :: 0 <= i <= j < n ==> p.currentSavings <= curve[i] <= curve[j]
  {
    var curve := AccumulationCurve(p, n);
    forall i, j | 0 <= i <= j < n
      ensures p.currentSavings <= curve[i] <= curve[j]
    {
      AccumulationMonotone(p, i + 1, j + 1);
    }
  }

  /** Without contributions the balance simply compounds: `calculate_future_value`
      of the starting savings at the expected return. */
  lemma {:induction false} NoContributionsIsFutureValue(p: Profile, k: nat)
    requires p.annualContribPct == 0.0 && p.employerMatchPct == 0.0
    ensures SavingsAfter(p, k) == FutureValue(p.currentSavings, p.expectedReturn / 100.0, k)
  {
    var g := 1.0 + p.expectedReturn / 100.0;
    if k > 0 {
      NoContributionsIsFutureValue(p, k - 1);
      assert AnnualContribution(IncomeAt(p, k - 1), p.annualContribPct, p.employerMatchPct, p.employerMatchLimit) == 0.0;
      assert p.currentSavings * Pow(g, k - 1) * g == p.currentSavings * (g * Pow(g, k - 1));
    }
  }

  // ---------------------------------------------------------------------------
  // The annuity withdrawal

  /** `(1 - (1 + rate) ** -years) / rate`: the present value of one unit paid
      at the end of each of `years` periods. */
  function AnnuityFactor(rate: real, years: int): (factor: real)
    requires rate > -1.0 && rate != 0.0 && years > 0
    ensures factor == PresentValue(1.0, rate, years)
    ensures factor > 0.0
  {
    PresentValueClosedForm(rate, years);
    PresentValueOfUnitPositive(rate, years);
    (1.0 - IntPow(1.0 + rate, -years)) / rate
  }

  /** `calculate_annual_withdrawal`: the level payment W whose discounted sum
      over `years` periods, the sum over t = 1..years of W / (1 + rate)^t, is
      exactly `futureSavings`. At rate 0 it is the straight-line share. */
  function AnnualWithdrawal(futureSavings: real, years: int, rate: real): (w: real)
    requires years > 0 && rate > -1.0
    ensures PresentValue(w, rate, years) == futureSavings
    ensures rate == 0.0 ==> w == futureSavings / years as real
  {
    PresentValueOfUnitPositive(rate, years);
    if rate == 0.0 then
      PresentValueAtZeroRate(years);
      PresentValueLinear(futureSavings / years as real, rate, years);
      DivideThenMultiply(futureSavings, years as real);
      futureSavings / years as real
    else
      var factor := AnnuityFactor(rate, years);
      PresentValueLinear(futureSavings / factor, rate, years);
      DivideThenMultiply(futureSavings, factor);
      futureSavings / factor
  }

  /** Two level payments with the same present value are equal. */
  lemma SamePresentValueSamePayment(payment: real, other: real, rate: real, years: nat)
    requires years > 0 && rate > -1.0
    requires PresentValue(payment, rate, years) == PresentValue(other, rate, years)
    ensures payment == other
  {
    var a := PresentValue(1.0, rate, years);
    PresentValueLinear(payment, rate, years);
    PresentValueLinear(other, rate, years);
    PresentValueOfUnitPositive(rate, years);
    CancelPositive(payment, other, a, PresentValue(payment, rate, years));
  }

  /** The withdrawal is the only level payment with that present value. */
  lemma WithdrawalUnique(futureSavings: real, years: int, rate: real, payment: real)
    requires years > 0 && rate > -1.0
    requires PresentValue(payment, rate, years) == futureSavings
    ensures payment == AnnualWithdrawal(futureSavings, years, rate)
  {
    SamePresentValueSamePayment(payment, AnnualWithdrawal(futureSavings, years, rate), rate, years);
  }

  /** Savings that are not negative give a withdrawal that is not negative. */
  lemma WithdrawalNonNegative(futureSavings: real, years: int, rate: real)
    requires years > 0 && rate > -1.0 && futureSavings >= 0.0
    ensures AnnualWithdrawal(futureSavings, years, rate) >= 0.0
  {
    var w := AnnualWithdrawal(futureSavings, years, rate);
    var a := PresentValue(1.0, rate, years);
    assert w * a == futureSavings by {
      PresentValueLinear(w, rate, years);
    }
    assert a > 0.0 by {
      PresentValueOfUnitPositive(rate, years);
    }
    if w < 0.0 {
      MulNonNegative(0.0 - w, a);
    }
  }

  // ---------------------------------------------------------------------------
  // Drawdown

  /** One year of retirement: take the withdrawal, grow the rest, and clamp a
      negative balance to zero. */
  function DrawdownStep(balance: real, withdrawal: real, growth: real): (next: real)
    ensures next >= 0.0
    ensures next >= (balance - withdrawal) * growth
    ensures next == 0.0 || next == (balance - withdrawal) * growth
  {
    var grown := (balance - withdrawal) * growth;
    if grown < 0.0 then 0.0 else grown
  }

  /** The balance after k years of drawdown from `balance`. */
  function DrawdownAfter(balance: real, withdrawal: real, growth: real, k: nat): real
  {
    if k == 0 then balance
    else DrawdownStep(DrawdownAfter(balance, withdrawal, growth, k - 1), withdrawal, growth)
  }

  /** The drawdown part of `savings_over_time`: one non-negative entry per year. */
  function DrawdownCurve(balance: real, withdrawal: real, growth: real, n: nat): (curve: seq<real>)
    ensures |curve| == n
    ensures forall i :: 0 <= i < n ==> curve[i] == DrawdownAfter(balance, withdrawal, growth, i + 1)
    ensures forall i :: 0 <= i < n ==> curve[i] >= 0.0
  {
    if n == 0 then [] else DrawdownCurve(balance, withdrawal, growth, n - 1) + [DrawdownAfter(balance, withdrawal, growth, n)]
  }

  /** With a non-negative withdrawal, a depleted balance stays depleted. */
  lemma {:induction false} DepletedStaysDepleted(balance: real, withdrawal: real, growth: real, k: nat, j: nat)
    requires withdrawal >= 0.0 && growth >= 0.0 && k <= j
    requires DrawdownAfter(balance, withdrawal, growth, k) == 0.0
    ensures DrawdownAfter(balance, withdrawal, growth, j) == 0.0
  {
    if k < j {
      DepletedStaysDepleted(balance, withdrawal, growth, k, j - 1);
      assert (0.0 - withdrawal) * growth <= 0.0;
    }
  }

  /** At rate 0 the balance falls by exactly balance/years each year; it is
      never clamped and reaches zero in the last year. */
  lemma {:induction false} StraightLineDrawdown(balance: real, years: nat, k: nat)
    requires balance >= 0.0 && years >= 1 && k <= years
    ensures DrawdownAfter(balance, balance / years as real, 1.0, k) == balance - k as real * (balance / years as real)
  {
    var w := balance / years as real;
    if k > 0 {
      StraightLineDrawdown(balance, years, k - 1);
      assert balance - (k - 1) as real * w - w == balance - k as real * w;
      assert balance - k as real * w == (years - k) as real * w by {
        assert balance == years as real * w;
      }
      assert w >= 0.0;
      assert (years - k) as real * w >= 0.0;
    }
  }

  /** One drawdown step keeps a balance `c` below a value `v` that grows into
      the withdrawal plus `next`. */
  lemma StepStaysBelow(c: real, v: real, withdrawal: real, rate: real, next: real)
    requires c <= v && rate >= 0.0 && withdrawal >= 0.0 && next >= 0.0
    requires v * (1.0 + rate) == withdrawal + next
    ensures DrawdownStep(c, withdrawal, 1.0 + rate) <= next
  {
    MulNonNegative(v - c, 1.0 + rate);
    MulNonNegative(withdrawal, rate);
    assert (c - withdrawal) * (1.0 + rate) == v * (1.0 + rate) - (v - c) * (1.0 + rate) - withdrawal * (1.0 + rate);
  }

  /** While drawing the annuity withdrawal, withdrawal first and growth second,
      the balance after k years never exceeds the value of the payments still
      due, provided the return is not negative. */
  lemma {:induction false} DrawdownBelowRemainingValue(balance: real, withdrawal: real, rate: real, years: nat, k: nat)
    requires rate >= 0.0 && withdrawal >= 0.0 && k <= years
    requires balance == PresentValue(withdrawal, rate, years)
    ensures DrawdownAfter(balance, withdrawal, 1.0 + rate, k) <= PresentValue(withdrawal, rate, years - k)
  {
    if k > 0 {
      DrawdownBelowRemainingValue(balance, withdrawal, rate, years, k - 1);
      RemainingValueStep(balance, withdrawal, rate, years - k, k);
    }
  }

  /** The step of `DrawdownBelowRemainingValue`: from year k - 1, with m + 1
      payments due, to year k, with m due. */
  lemma RemainingValueStep(balance: real, withdrawal: real, rate: real, m: nat, k: nat)
    requires rate >= 0.0 && withdrawal >= 0.0 && k >= 1
    requires DrawdownAfter(balance, withdrawal, 1.0 + rate, k - 1) <= PresentValue(withdrawal, rate, m + 1)
    ensures DrawdownAfter(balance, withdrawal, 1.0 + rate, k) <= PresentValue(withdrawal, rate, m)
  {
    var c := DrawdownAfter(balance, withdrawal, 1.0 + rate, k - 1);
    var v := PresentValue(withdrawal, rate, m + 1);
    var next := PresentValue(withdrawal, rate, m);
    assert v * (1.0 + rate) == withdrawal + next by {
      PresentValueGrows(withdrawal, rate, m + 1);
    }
    assert next >= 0.0 by {
      PresentValueNonNegative(withdrawal, rate, m);
    }
    StepStaysBelow(c, v, withdrawal, rate, next);
  }

  /** With a non-negative return, drawing the annuity withdrawal at the start
      of each year (rather than at the end, as the annuity formula assumes)
      exhausts the savings by the last year: the final balance is exactly 0. */
  lemma DrawdownExhaustsSavings(balance: real, years: nat, rate: real)
    requires balance >= 0.0 && years >= 1 && rate >= 0.0
    ensures DrawdownAfter(balance, AnnualWithdrawal(balance, years, rate), 1.0 + rate, years) == 0.0
  {
    var w := AnnualWithdrawal(balance, years, rate);
    WithdrawalNonNegative(balance, years, rate);
    DrawdownBelowRemainingValue(balance, w, rate, years, years);
  }

  // ---------------------------------------------------------------------------
  // The whole projection

  /** The balance at retirement: the last accumulation balance. */
  function BalanceAtRetirement(p: Profile): real
  {
    SavingsAfter(p, YearsToRetirement(p))
  }

  /** The level withdrawal computed inside `project_savings`. */
  function RetirementWithdrawal(p: Profile): real
    requires DrawdownDefined(p)
  {
    AnnualWithdrawal(BalanceAtRetirement(p), YearsInRetirement(p), p.expectedReturn / 100.0)
  }

  /** The balance `project_savings` returns: the one at life expectancy. */
  function FinalBalance(p: Profile): real
    requires DrawdownDefined(p)
  {
    DrawdownAfter(BalanceAtRetirement(p), RetirementWithdrawal(p), Growth(p), YearsInRetirement(p))
  }

  /** The body of the accumulation loop of `project_savings`: add the year's
      contribution, grow by the expected return, then raise the income. */
  method AccumulationYear(p: Profile, year: nat, futureSavings: real, futureIncome: real)
    returns (nextSavings: real, nextIncome: real)
    requires futureSavings == SavingsAfter(p, year) && futureIncome == IncomeAt(p, year)
    ensures nextSavings == SavingsAfter(p, year + 1) && nextIncome == IncomeAt(p, year + 1)
  {
    var annualContribution := AnnualContribution(futureIncome, p.annualContribPct, p.employerMatchPct, p.employerMatchLimit);
    nextSavings := (futureSavings + annualContribution) * (1.0 + p.expectedReturn / 100.0);
    nextIncome := futureIncome * (1.0 + p.salaryIncreasePct / 100.0);
  }

  /** The body of the drawdown loop of `project_savings`: withdraw, grow by
      the expected return, and clamp a negative balance to zero. */
  method DrawdownYear(futureSavings: real, annualWithdrawal: real, expectedReturn: real) returns (next: real)
    ensures next == DrawdownStep(futureSavings, annualWithdrawal, 1.0 + expectedReturn / 100.0)
  {
    next := (futureSavings - annualWithdrawal) * (1.0 + expectedReturn / 100.0);
    if next < 0.0 {
      next := 0.0;
    }
  }

  /** A curve made of two phases splits back into them, and its last entry
      is the last entry of the second phase. */
  lemma SplitCurve(first: seq<real>, second: seq<real>)
    requires second != []
    ensures (first + second)[..|first|] == first && (first + second)[|first|..] == second
    ensures (first + second)[|first + second| - 1] == second[|second| - 1]
  {
  }

  /** `project_savings`: the accumulation loop, then the withdrawal and the
      drawdown loop. The curve has one entry per simulated year, accumulation
      first; the returned balance is the curve's last entry, the balance at
      life expectancy. */
  method ProjectSavings(p: Profile) returns (futureSavings: real, savingsOverTime: seq<real>)
    requires DrawdownDefined(p)
    ensures |savingsOverTime| == YearsToRetirement(p) + YearsInRetirement(p)
    ensures savingsOverTime[..YearsToRetirement(p)] == AccumulationCurve(p, YearsToRetirement(p))
    ensures savingsOverTime[YearsToRetirement(p)..]
            == DrawdownCurve(BalanceAtRetirement(p), RetirementWithdrawal(p), Growth(p), YearsInRetirement(p))
    ensures savingsOverTime != [] && futureSavings == savingsOverTime[|savingsOverTime| - 1]
    ensures futureSavings == FinalBalance(p)
  {
    var yearsToRetirement := p.retirementAge - p.currentAge;
    var futureIncome := p.currentIncome;
    futureSavings := p.currentSavings;
    savingsOverTime := [];
    var n := if yearsToRetirement > 0 then yearsToRetirement else 0;
    for year := 0 to n
      invariant futureIncome == IncomeAt(p, year)
      invariant futureSavings == SavingsAfter(p, year)
      invariant savingsOverTime == AccumulationCurve(p, year)
    {
      futureSavings, futureIncome := AccumulationYear(p, year, futureSavings, futureIncome);
      savingsOverTime := savingsOverTime + [futureSavings];
    }
    ghost var accumulation := savingsOverTime;
    ghost var atRetirement := futureSavings;
    assert n == YearsToRetirement(p) && atRetirement == BalanceAtRetirement(p);

    var yearsInRetirement := p.lifeExpectancy - p.retirementAge;
    var annualWithdrawal := AnnualWithdrawal(futureSavings, yearsInRetirement, p.expectedReturn / 100.0);
    assert annualWithdrawal == RetirementWithdrawal(p);
    for year := 0 to yearsInRetirement
      invariant futureSavings == DrawdownAfter(atRetirement, annualWithdrawal, Growth(p), year)
      invariant savingsOverTime == accumulation + DrawdownCurve(atRetirement, annualWithdrawal, Growth(p), year)
    {
      futureSavings := DrawdownYear(futureSavings, annualWithdrawal, p.expectedReturn);
      savingsOverTime := savingsOverTime + [futureSavings];
    }
    ghost var drawdown := DrawdownCurve(atRetirement, annualWithdrawal, Growth(p), yearsInRetirement);
    SplitCurve(accumulation, drawdown);
  }

  /** The balance `project_savings` returns is that of life expectancy, not of
      retirement: with a non-negative return (and savings that start
      non-negative) the drawdown has used it all up. */
  lemma ReturnedBalanceIsDepleted(p: Profile)
    requires DrawdownDefined(p) && NonNegativeInputs(p)
    ensures FinalBalance(p) == 0.0
  {
    AccumulationMonotone(p, 0, YearsToRetirement(p));
    DrawdownExhaustsSavings(BalanceAtRetirement(p), YearsInRetirement(p), p.expectedReturn / 100.0);
  }

  /** At a zero return each retirement year removes exactly the balance at
      retirement divided by the years in retirement. */
  lemma ZeroReturnDrawdownIsStraightLine(p: Profile, k: nat)
    requires DrawdownDefined(p) && p.expectedReturn == 0.0
    requires BalanceAtRetirement(p) >= 0.0 && k <= YearsInRetirement(p)
    ensures var b := BalanceAtRetirement(p);
            DrawdownAfter(b, RetirementWithdrawal(p), Growth(p), k)
              == b - k as real * (b / YearsInRetirement(p) as real)
  {
    StraightLineDrawdown(BalanceAtRetirement(p), YearsInRetirement(p), k);
  }

  // ---------------------------------------------------------------------------
  // Recommendations and the plot axis

  const LowSavingsAdvice: seq<string> := [
    "Increase your annual contributions to retirement accounts.",
    "Consider investing in low-cost index funds to maximize returns."
  ]

  const HighSavingsAdvice: seq<string> := [
    "Your retirement savings projections look good. Continue with your current strategy.",
    "You might want to diversify your investments to manage risk."
  ]

  /** `provide_recommendations`: exactly two pieces of advice, chosen by the
      single threshold of 1,000,000; the profile itself is not consulted. */
  function ProvideRecommendations(data: Profile, futureSavings: real): (recommendations: seq<string>)
    ensures |recommendations| == 2
    ensures recommendations == LowSavingsAdvice <==> futureSavings < 1_000_000.0
    ensures recommendations == HighSavingsAdvice <==> futureSavings >= 1_000_000.0
  {
    assert |LowSavingsAdvice[0]| != |HighSavingsAdvice[0]|;
    if futureSavings < 1_000_000.0 then LowSavingsAdvice else HighSavingsAdvice
  }

  /** The advice depends on the balance alone. */
  lemma RecommendationsIgnoreProfile(a: Profile, b: Profile, futureSavings: real)
    ensures ProvideRecommendations(a, futureSavings) == ProvideRecommendations(b, futureSavings)
  {
  }

  /** The ages on the x axis of `plot_savings_growth`: `current_age` up to and
      including `life_expectancy`, cut to the number of balances plotted. */
  function PlotAges(count: nat, currentAge: int, lifeExpectancy: int): (ages: seq<int>)
    ensures |ages| == (var span := if lifeExpectancy >= currentAge then lifeExpectancy - currentAge + 1 else 0;
                       if span > count then count else span)
    ensures forall i :: 0 <= i < |ages| ==> ages[i] == currentAge + i
  {
    var span := if lifeExpectancy >= currentAge then lifeExpectancy - currentAge + 1 else 0;
    var years := seq(span, i requires 0 <= i < span => currentAge + i);
    if |years| > count then years[..count] else years
  }

  /** For the full curve of a profile whose ages are in order, the axis stops
      one year short of life expectancy: entry i, the balance after i + 1
      years, is drawn at age current_age + i. */
  lemma PlotAgesForFullCurve(p: Profile)
    requires p.currentAge <= p.retirementAge < p.lifeExpectancy
    ensures var ages := PlotAges(YearsToRetirement(p) + YearsInRetirement(p), p.currentAge, p.lifeExpectancy);
            |ages| == p.lifeExpectancy - p.currentAge && ages[|ages| - 1] == p.lifeExpectancy - 1
  {
  }

  // ---------------------------------------------------------------------------
  // The report of `main`

  /** What `main` reports, as written: the balance `project_savings` returns
      is labelled as the savings at retirement age and the withdrawal is
      computed from it. */
  method MainReport(p: Profile) returns (projectedSavings: real, annualWithdrawal: real, recommendations: seq<string>)
    requires DrawdownDefined(p)
    ensures projectedSavings == FinalBalance(p)
    ensures PresentValue(annualWithdrawal, p.expectedReturn / 100.0, YearsInRetirement(p)) == projectedSavings
    ensures recommendations == ProvideRecommendations(p, projectedSavings)
  {
    var savingsOverTime;
    projectedSavings, savingsOverTime := ProjectSavings(p);
    var retirementYears := p.lifeExpectancy - p.retirementAge;
    annualWithdrawal := AnnualWithdrawal(projectedSavings, retirementYears, p.expectedReturn / 100.0);
    recommendations := ProvideRecommendations(p, projectedSavings);
  }

  /** As written, with non-negative inputs the report always shows a zero
      balance "at retirement", a zero withdrawal and the low-savings advice. */
  lemma MainReportIsZero(p: Profile)
    requires DrawdownDefined(p) && NonNegativeInputs(p)
    ensures FinalBalance(p) == 0.0
    ensures AnnualWithdrawal(FinalBalance(p), YearsInRetirement(p), p.expectedReturn / 100.0) == 0.0
    ensures ProvideRecommendations(p, FinalBalance(p)) == LowSavingsAdvice
  {
    ReturnedBalanceIsDepleted(p);
    var w := AnnualWithdrawal(0.0, YearsInRetirement(p), p.expectedReturn / 100.0);
    WithdrawalUnique(0.0, YearsInRetirement(p), p.expectedReturn / 100.0, 0.0) by {
      PresentValueLinear(0.0, p.expectedReturn / 100.0, YearsInRetirement(p));
    }
  }

  /** The report as intended: the balance at retirement age is the last
      accumulation entry of the curve, and the withdrawal spreads exactly that
      balance over the retirement years. */
  method CorrectedReport(p: Profile) returns (savingsAtRetirement: real, annualWithdrawal: real, recommendations: seq<string>)
    requires DrawdownDefined(p)
    ensures savingsAtRetirement == SavingsAfter(p, YearsToRetirement(p))
    ensures PresentValue(annualWithdrawal, p.expectedReturn / 100.0, YearsInRetirement(p)) == savingsAtRetirement
    ensures annualWithdrawal == RetirementWithdrawal(p)
    ensures recommendations == ProvideRecommendations(p, savingsAtRetirement)
    ensures recommendations == LowSavingsAdvice <==> savingsAtRetirement < 1_000_000.0
  {
    var finalSavings, savingsOverTime := ProjectSavings(p);
    var n := YearsToRetirement(p);
    if n == 0 {
      savingsAtRetirement := p.currentSavings;
    } else {
      assert savingsOverTime[n - 1] == savingsOverTime[..n][n - 1];
      savingsAtRetirement := savingsOverTime[n - 1];
    }
    var retirementYears := p.lifeExpectancy - p.retirementAge;
    annualWithdrawal := AnnualWithdrawal(savingsAtRetirement, retirementYears, p.expectedReturn / 100.0);
    recommendations := ProvideRecommendations(p, savingsAtRetirement);
  }
}
