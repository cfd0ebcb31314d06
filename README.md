# Retirement calculator — a verified model

This project models the computational core of a small retirement calculator
written in Python. It has three copies of the calculator and two tax-bracket
lookups:

- **The projection engine** (`retirement/retirement_calculator.py`). It
  computes the yearly employee contribution and the capped employer match.
  It runs an accumulation loop from the current age to the retirement age,
  then a drawdown loop to life expectancy that withdraws a level annuity
  payment each year. It also holds the annuity-withdrawal formula, the
  future-value helper, the one-million recommendation threshold and the age
  axis of the savings plot. Module `Projection` models these operations. Its
  functions `SavingsAfter`, `AccumulationCurve` and `AnnualWithdrawal` are
  the reference that the other copies are proved against, and
  `DrawdownAfter` is the reference for the engine's own drawdown loop.
  Module `Finance` supplies the exact powers and the present value of a
  level payment stream, the sum over t = 1..n of W / (1 + rate)^t.
- **The top-level calculator class** (`retirement_calculator.py`). Its
  accumulation loop divides all percentages but the match limit by 100 up
  front (the limit is divided inside the loop) and writes the match with
  `min`. Its withdrawal is `total * rate / (1 - (1 + rate) ** -years)`.
  Module `Calculator` models it and proves each of these equal to the
  engine's formula.
- **The calculator class of the GUI package**
  (`retirement/retirement_calculator_gui.py`). It runs the same accumulation
  loop, but also computes a tax on the raised income every year. It throws
  that tax away. However, when the income falls outside every bracket the
  lookup returns `None`, and the division by 100 then raises. Module
  `GuiCalculator` models that failure as a `None` result. It proves that the
  projection fails exactly when some raised income is uncovered, and that
  otherwise the result is the engine's.
- **The bracket lookups.** `tax_bracket.py` scans a table it is given
  (`TaxBrackets`). `retirement/dependencies/tax_bracket.py` scans a built-in
  seven-band table (`LatestTaxBrackets`). Both return the rate of the first
  band with `min <= income <= max`, or no rate.
- **The saved-inputs history.** All three calculators append to it and keep
  the last three entries. It is modelled once, as class `History.HistoryFile`.
- **The entry names of the top-level GUI** (`retirement_calculator_gui.py`).
  `add_label_entry` derives an attribute name from each label, and
  `calculate` reads ten fixed names back. Module `EntryNames` models the
  string pipeline exactly. It proves that the five labels with `(%)` get
  names ending in `__entry_entry` that `calculate` never reads, so pressing
  Calculate fails on the first such field.

Money, incomes and rates are exact `real`s, and percentages stay whole
numbers (7 means 7%). Ages are `int`s. Python's `ZeroDivisionError` at zero
years or at a return of -100%, and `0.0 ** negative`, are preconditions. The
failed tax lookup of the GUI package is not a precondition: it is modelled
as a `None` result. The three accumulation loops and the drawdown loop are
methods whose loop invariants tie them to the reference functions, and the
steps of their bodies are small methods (`AccumulationYear`, `DrawdownYear`,
`YearContribution`, `GrowSavings`, `RaiseIncome`). `CalculateTaxes`,
`MainReport` and `CorrectedReport` are methods too. The history file is a
class whose `Save` updates its field in place and whose `Load` reads it. The
formulas, the tax lookups and the entry names are functions with lemmas
about them.

## Model

| member | source | states |
|---|---|---|
| Projection.AnnualContribution | retirement/retirement_calculator.py:55-58 | Defines the year's contribution: the employee part plus the match rate times the smaller of the employee part and the capped share of income. Its properties are stated by `EmployerMatchCapped` and `AnnualContributionNonNegative`. |
| Projection.EmployerMatchCapped | retirement/retirement_calculator.py:55-58 | The contribution is the employee part plus the match on either the whole employee part or the capped share of income. With a non-negative match rate it is at most both candidates. |
| Projection.AnnualContributionNonNegative | retirement/retirement_calculator.py:55-58 | Non-negative income and percentages give a non-negative yearly contribution. |
| Projection.FutureValue | retirement/retirement_calculator.py:52-53 | Defines `calculate_future_value`: the present value times `(1 + rate) ** nper`, for any integer number of periods. Its properties are stated by `FutureValueCompose` and `FutureValueUndoesDiscount`. |
| Projection.FutureValueCompose | retirement/retirement_calculator.py:52-53 | Compounding for m periods and then n more equals compounding for m + n. |
| Projection.FutureValueUndoesDiscount | retirement/retirement_calculator.py:52-53 | Discounting t periods (negative exponent) and then compounding t periods returns the payment. |
| Projection.IncomeAt | retirement/retirement_calculator.py:78 | Defines the income after k raises, each a multiplication by 1 + raise/100. `IncomeClosedForm` gives its closed form. |
| Projection.SavingsAfter | retirement/retirement_calculator.py:69-77 | Defines the balance after k years: each year the contribution on that year's income is added, then the year's return is applied. The loops of all three calculators are proved to compute it. |
| Projection.YearsToRetirement | retirement/retirement_calculator.py:61 | The number of accumulation years, `retirement_age - current_age`, as `range` counts it: 0 when the difference is not positive. |
| Projection.YearsInRetirement | retirement/retirement_calculator.py:82 | The number of drawdown years, `life_expectancy - retirement_age`, as `range` counts it: 0 when the difference is not positive. |
| Projection.AccumulationCurve | retirement/retirement_calculator.py:69-77 | The accumulation part of the curve has one entry per year, and entry i is the balance after i + 1 years. |
| Projection.IncomeClosedForm | retirement/retirement_calculator.py:78 | Income is raised after the year's contribution, so year k + 1 contributes on the start income times (1 + raise)^k. |
| Projection.AccumulationStep | retirement/retirement_calculator.py:69-78 | Each accumulation entry is the previous balance (or the start savings) plus that year's contribution on the raised income, grown by one year's return. |
| Projection.IncomeNonNegative | retirement/retirement_calculator.py:78 | With non-negative inputs every year's income is non-negative. |
| Projection.AccumulationYearGrows | retirement/retirement_calculator.py:69-77 | With non-negative inputs one more year never lowers the balance, and no balance is below the start savings. |
| Projection.AccumulationMonotone | retirement/retirement_calculator.py:69-77 | With non-negative inputs, start savings <= balance after i years <= balance after j years for every i <= j. |
| Projection.AccumulationCurveSorted | retirement/retirement_calculator.py:69-77 | With non-negative inputs the accumulation curve is sorted and bounded below by the start savings. |
| Projection.NoContributionsIsFutureValue | retirement/retirement_calculator.py:52-53 | Without contributions the loop's balance after k years is `calculate_future_value` of the start savings at the expected return. |
| Projection.AnnuityFactor | retirement/retirement_calculator.py:98 | `(1 - (1 + rate) ** -years) / rate` is the present value of one unit paid at the end of each period, and it is positive. |
| Projection.AnnualWithdrawal | retirement/retirement_calculator.py:95-101 | The withdrawal is a level payment whose discounted sum over the years equals the savings. At rate 0 it is the straight-line share. |
| Projection.SamePresentValueSamePayment | retirement/retirement_calculator.py:95-101 | Two level payments with the same present value are equal, so the payment is determined by its present value. |
| Projection.WithdrawalUnique | retirement/retirement_calculator.py:95-101 | Every level payment whose present value is the savings equals the computed withdrawal. |
| Projection.WithdrawalNonNegative | retirement/retirement_calculator.py:95-101 | Non-negative savings give a non-negative withdrawal. |
| Projection.DrawdownStep | retirement/retirement_calculator.py:87-89 | A drawdown year gives either 0 or the grown remainder. It never gives less than either, so it is never negative. |
| Projection.DrawdownCurve | retirement/retirement_calculator.py:86-90 | The drawdown part of the curve has one entry per retirement year, entry i is the balance after i + 1 years, and every entry is >= 0. |
| Projection.DrawdownAfter | retirement/retirement_calculator.py:86-90 | Defines the balance after k drawdown years, one `DrawdownStep` per year. Its properties are stated by the drawdown lemmas below. |
| Projection.DepletedStaysDepleted | retirement/retirement_calculator.py:86-90 | With a non-negative withdrawal and growth, a zero balance stays zero in every later year. |
| Projection.StraightLineDrawdown | retirement/retirement_calculator.py:86-90 | At rate 0 the balance falls by exactly balance/years each year, is never clamped, and reaches 0 in the last year. |
| Projection.DrawdownBelowRemainingValue | retirement/retirement_calculator.py:86-90 | With a non-negative return, after k withdrawals the balance is at most the present value of the payments still due. |
| Projection.DrawdownExhaustsSavings | retirement/retirement_calculator.py:83-90 | The annuity withdrawal is taken before growth, so with a non-negative return it exhausts the savings: the balance after the last year is exactly 0. |
| Projection.FinalBalance | retirement/retirement_calculator.py:93 | The balance `project_savings` returns: the retirement balance after every drawdown year. |
| Projection.AccumulationYear | retirement/retirement_calculator.py:70-78 | The body of the accumulation loop takes year k's balance and income to year k + 1's. |
| Projection.DrawdownYear | retirement/retirement_calculator.py:87-89 | The body of the drawdown loop is one drawdown step at the expected return. |
| Projection.ProjectSavings | retirement/retirement_calculator.py:60-93 | The curve has one entry per year to retirement plus one per year in retirement, accumulation entries first, each phase equal to its reference curve. The returned balance is the last entry, the balance at life expectancy. |
| Projection.ReturnedBalanceIsDepleted | retirement/retirement_calculator.py:60-93 | With non-negative inputs the balance `project_savings` returns is always 0. |
| Projection.ZeroReturnDrawdownIsStraightLine | retirement/retirement_calculator.py:82-90 | At a zero return, retirement year k leaves the retirement balance minus k times the balance divided by the retirement years. |
| Projection.ProvideRecommendations | retirement/retirement_calculator.py:116-125 | Always two strings: the low-savings pair exactly when the balance is below 1,000,000, the high-savings pair exactly when it is at least that. |
| Projection.RecommendationsIgnoreProfile | retirement/retirement_calculator.py:116-125 | The advice depends on the balance alone, never on the profile. |
| Projection.PlotAges | retirement/retirement_calculator.py:103-106 | The ages start at the current age and rise by one. There are min(max(0, life - current + 1), number of balances) of them. |
| Projection.PlotAgesForFullCurve | retirement/retirement_calculator.py:103-106 | For a full curve with ordered ages, the axis has life - current ages and stops at life expectancy - 1. |
| Projection.MainReport | retirement/retirement_calculator.py:127-137 | As written, `main` reports the balance at life expectancy as the savings at retirement and computes the withdrawal and the advice from it. |
| Projection.MainReportIsZero | retirement/retirement_calculator.py:129-137 | With non-negative inputs that report always shows a zero balance, a zero withdrawal and the low-savings advice. |
| Projection.CorrectedReport | retirement/retirement_calculator.py:129-137 | The intended report: the balance at retirement is the last accumulation entry, and the withdrawal is the level payment whose present value is that balance. The advice is `provide_recommendations` on that balance, so the low-savings pair is given exactly when it is below 1,000,000. |
| Finance.IntPow | retirement/retirement_calculator.py:98 | Python's `x ** n` for an integer exponent. A negative exponent gives the reciprocal of the positive power, so the result times that power is 1. |
| Finance.PowAdd | retirement/retirement_calculator.py:53 | Raising to m + n is raising to m and multiplying by the power n. |
| Finance.NegativePowerIsDiscount | retirement/retirement_calculator.py:98 | Python's `(1 + rate) ** -t` is the discount factor of period t. |
| Finance.DiscountPositive | retirement/retirement_calculator.py:98 | Every discount factor is positive when the rate is above -100%. |
| Finance.DiscountStep | retirement/retirement_calculator.py:98 | Growing period t's discount factor by one period gives period t - 1's. |
| Finance.DiscountAtZeroRate | retirement/retirement_calculator.py:96-97 | At rate 0 every discount factor is 1. |
| Finance.PresentValueLinear | retirement/retirement_calculator.py:99 | The present value is the payment times the present value of one unit. |
| Finance.PresentValueOfUnitPositive | retirement/retirement_calculator.py:98-99 | One or more unit payments have a positive present value, so the annuity factor can be divided by. |
| Finance.PresentValueAtZeroRate | retirement/retirement_calculator.py:96-97 | At rate 0 the present value of n unit payments is n. |
| Finance.PresentValueClosedForm | retirement/retirement_calculator.py:98 | The sum of the discount factors over n periods is `(1 - (1 + rate) ** -n) / rate`. |
| Finance.PresentValueGrows | retirement/retirement_calculator.py:87 | One period of growth turns the value of n payments into the first payment plus the value of the other n - 1. |
| Finance.PresentValueNonNegative | retirement/retirement_calculator.py:95-101 | A non-negative payment has a non-negative present value. |
| History.KeepLast | retirement/retirement_calculator.py:12-14 | Keeps the last min(n, 3) entries, in their original order. |
| History.HistoryFile.constructor | retirement/retirement_calculator.py:9-10 | Before the first save there is no history file. |
| History.HistoryFile.Load | retirement/retirement_calculator.py:19-24 | Load returns the stored list, or the empty list when there is no file. |
| History.HistoryFile.Save | retirement/retirement_calculator.py:5-17 | After a save the file holds the last three entries of the stored list (empty without a file) once the new inputs are appended to it. |
| History.SaveKeepsNewestThree | retirement_calculator.py:17-19 | After a save the history holds min(n + 1, 3) entries. The last is the new inputs, the survivors keep their order, and nothing is dropped while it is short. |
| History.ThreeSavesReplaceHistory | retirement/retirement_calculator_gui.py:28-30 | Three saves in a row leave exactly those three inputs, oldest first, whatever was stored before. |
| Calculator.Min | retirement_calculator.py:80 | Python's `min`: the result is at most both arguments and is one of them. |
| Calculator.LoopContribution | retirement_calculator.py:79-81 | Defines the loop's contribution on percentages already divided by 100, with the match written with `min`. `LoopContributionAgrees` proves it equal to the engine's formula. |
| Calculator.LoopContributionAgrees | retirement_calculator.py:79-81 | The loop's contribution on pre-divided percentages, written with `min`, equals the engine's `calculate_annual_contribution`. |
| Calculator.YearContribution | retirement_calculator.py:79-81 | The first three statements of the loop body compute the engine's contribution for that year's income. |
| Calculator.GrowSavings | retirement_calculator.py:82-83 | Adding the contribution and growing by the expected return takes year k's balance to year k + 1's. |
| Calculator.RaiseIncome | retirement_calculator.py:84 | The raise takes year k's income to year k + 1's. The same statement is at retirement/retirement_calculator_gui.py:98. |
| Calculator.ProjectSavings | retirement_calculator.py:62-87 | The list has max(0, retirement - current) entries and equals the engine's accumulation curve, i.e. the accumulation prefix of the engine's list. The balance is its last entry, or the start savings when there are no years. |
| Calculator.ProjectionNeverShrinks | retirement_calculator.py:78-85 | With non-negative inputs the list is sorted, no entry is below the start savings, and neither is the returned balance. |
| Calculator.AnnualWithdrawal | retirement_calculator.py:89-93 | `total * rate / (1 - (1 + rate) ** -years)` equals the engine's `total / annuity_factor`, and its present value is the savings. At rate 0 it is total/years. retirement/retirement_calculator_gui.py:104-108 is the same code. |
| GuiCalculator.CalculateTaxes | retirement/retirement_calculator_gui.py:73-75 | No result exactly when the lookup finds no bracket. Otherwise the income times its band's rate, between 10% and 37% of the income. |
| GuiCalculator.ProjectSavings | retirement/retirement_calculator_gui.py:77-102 | Fails exactly when some year's raised income has no bracket. Otherwise it returns the engine's balance and accumulation curve, and the unused after-tax income changes nothing. |
| GuiCalculator.FlatIncome | retirement/retirement_calculator_gui.py:98 | Without a raise the income stays the start income every year. |
| GuiCalculator.GapIncomeFails | retirement/retirement_calculator_gui.py:98-99 | A start income between two bands (such as 9,950.50), never raised, makes the projection fail in its first year. |
| GuiCalculator.NegativeIncomeFails | retirement/retirement_calculator_gui.py:98-99 | A negative start income makes the projection fail whenever the raise is above -100%. |
| GuiCalculator.WholeIncomeSucceeds | retirement/retirement_calculator_gui.py:92-102 | A whole-dollar income that is never raised always finds a bracket, so the projection succeeds. |
| TaxBrackets.Contains | tax_bracket.py:25 | A band holds an income when `min <= income <= max`. An unbounded top edge holds every income from `min` up. |
| TaxBrackets.GetTaxBracket | tax_bracket.py:16-28 | No rate exactly when no band holds the income, so an empty table gives none. Otherwise the rate of the first band in table order that holds it. |
| TaxBrackets.FirstMatchWins | tax_bracket.py:24-26 | The first band holding the income decides the rate, even when later bands overlap it. |
| TaxBrackets.AppendKeepsRate | tax_bracket.py:24-26 | Appending bands to the end of the table never changes a rate already found. |
| TaxBrackets.LaterBandsIgnored | tax_bracket.py:24-26 | The bands after the first match can be replaced by anything without changing the result. |
| TaxBrackets.UniqueBand | tax_bracket.py:24-26 | In a sorted table of separated bands no income lies in two bands. |
| TaxBrackets.RateMonotone | tax_bracket.py:24-26 | In a sorted table with rising rates, a higher income never gets a lower rate. |
| LatestTaxBrackets.LatestBrackets | retirement/dependencies/tax_bracket.py:9-19 | The seven-band table: edges 0-9,950, 9,951-40,525, 40,526-86,375, 86,376-164,925, 164,926-209,425 and 209,426-523,600, then 523,601 with no upper edge. The rates are 10, 12, 22, 24, 32, 35 and 37. |
| LatestTaxBrackets.GetTaxBracket | retirement/dependencies/tax_bracket.py:21-34 | No rate exactly for a negative income or one between two bands. Otherwise one of the seven rates, and 37 for every income from 523,601 up. |
| LatestTaxBrackets.BandRate | retirement/dependencies/tax_bracket.py:11-17 | The rate read off the band edges lies between 10 and 37. |
| LatestTaxBrackets.RateByEdges | retirement/dependencies/tax_bracket.py:28-34 | The table scan gives the edge-based rate for every covered income, and no rate for any other. |
| LatestTaxBrackets.SampleRates | retirement/dependencies/tax_bracket.py:11-17 | 50,000 gets 22, 0 gets 10, 10,000,000 gets 37, and -1, 9,950.5 and 40,525.5 get no rate. |
| LatestTaxBrackets.WholeIncomeCovered | retirement/dependencies/tax_bracket.py:11-17 | Every whole-number income of at least 0 gets a rate. |
| LatestTaxBrackets.LatestBracketsAscending | retirement/dependencies/tax_bracket.py:11-17 | The table is sorted, its bands are non-empty and separated, and its rates rise. |
| LatestTaxBrackets.LatestRateMonotone | retirement/dependencies/tax_bracket.py:30-32 | For incomes a <= b that both get a rate, a's rate is at most b's. |
| LatestTaxBrackets.LatestBandUnique | retirement/dependencies/tax_bracket.py:11-17 | No income lies in two bands of the table, so a whole income gets exactly one rate. |
| EntryNames.Lower | retirement_calculator_gui.py:33 | Models `str.lower` on ASCII text: each upper-case letter becomes its lower-case letter, and every other character is kept. |
| EntryNames.ReplaceAll | retirement_calculator_gui.py:33 | Models `str.replace`: every occurrence of the pattern, found left to right without overlap, is replaced. `ReplaceAbsent`, `ReplaceAfterPrefix` and `ReplaceRemovesChar` state its properties. |
| EntryNames.AttributeName | retirement_calculator_gui.py:33 | Whatever the label, the derived name ends in `_entry` and has no space and no colon. |
| EntryNames.LowerThenUnderscore | retirement_calculator_gui.py:33 | Lower-casing and then replacing spaces by underscores works character by character. |
| EntryNames.PlainLabelName | retirement_calculator_gui.py:33 | A label `words:` gets the name `words` lower-cased and underscored, plus `_entry`. |
| EntryNames.PercentLabelName | retirement_calculator_gui.py:33 | A label `words (%):` gets the name `words` lower-cased and underscored, plus `__entry_entry`. |
| EntryNames.LabelWords | retirement_calculator_gui.py:13-22 | The words of the ten labels, in row order. |
| EntryNames.PercentRows | retirement_calculator_gui.py:17-22 | The rows 4, 6, 7, 8 and 9, whose labels end in ` (%):`. |
| EntryNames.Label | retirement_calculator_gui.py:13-22 | The label text of each row: its words followed by ` (%):` for a percentage row and by `:` otherwise. |
| EntryNames.NamesRead | retirement_calculator_gui.py:52-61 | The ten attribute names `calculate` reads, one per row. |
| EntryNames.RowName | retirement_calculator_gui.py:13-22 | Each row's name follows from the shape of its label. |
| EntryNames.CurrentAgeRow | retirement_calculator_gui.py:13 | `Current Age:` gets `current_age_entry`. |
| EntryNames.RetirementAgeRow | retirement_calculator_gui.py:14 | `Retirement Age:` gets `retirement_age_entry`. |
| EntryNames.LifeExpectancyRow | retirement_calculator_gui.py:15 | `Life Expectancy:` gets `life_expectancy_entry`. |
| EntryNames.CurrentIncomeRow | retirement_calculator_gui.py:16 | `Current Income:` gets `current_income_entry`. |
| EntryNames.SalaryIncreaseRow | retirement_calculator_gui.py:17 | `Salary Increase (%):` gets `salary_increase__entry_entry`. |
| EntryNames.CurrentSavingsRow | retirement_calculator_gui.py:18 | `Current Savings:` gets `current_savings_entry`. |
| EntryNames.AnnualContributionRow | retirement_calculator_gui.py:19 | `Annual Contribution (%):` gets `annual_contribution__entry_entry`. |
| EntryNames.EmployerMatchRow | retirement_calculator_gui.py:20 | `Employer Match (%):` gets `employer_match__entry_entry`. |
| EntryNames.EmployerMatchLimitRow | retirement_calculator_gui.py:21 | `Employer Match Limit (%):` gets `employer_match_limit__entry_entry`. |
| EntryNames.ExpectedReturnRow | retirement_calculator_gui.py:22 | `Expected Return (%):` gets `expected_return__entry_entry`. |
| EntryNames.RowNameAt | retirement_calculator_gui.py:13-22 | Gives the name of any of the ten rows. |
| EntryNames.PlainNamesRead | retirement_calculator_gui.py:52-61 | For the rows without a percent sign, the name given equals the name `calculate` reads. |
| EntryNames.PlainLabelsMatch | retirement_calculator_gui.py:52-57 | The five plain labels get exactly the names `calculate` reads for them. |
| EntryNames.PercentNamesUnread | retirement_calculator_gui.py:52-61 | None of the names given to the percentage rows is among the names `calculate` reads. |
| EntryNames.GivenNamesDistinct | retirement_calculator_gui.py:13-22 | The ten names given are pairwise different. |
| EntryNames.PercentLabelsMissed | retirement_calculator_gui.py:56-61 | The five percentage labels get names ending in `__entry_entry`, and none of those is read, so `calculate` cannot find those fields. |
| EntryNames.NamesDistinct | retirement_calculator_gui.py:13-22 | The ten labels get ten different names, so no entry attribute overwrites another. |

## Left out

- File I/O. The JSON reads and writes of `save_user_data`, `load_user_data`, `load_config` and the configurable `fetch_latest_tax_brackets` are left out. The file is a field that holds the stored list, or nothing when the file is missing. The `FileNotFoundError` of a missing configuration is not modelled.
- Interaction and output. The `input()` prompts, the reuse menu and the recursive retry of `get_user_data`, all `print` tracing, `:,.2f` formatting, the tkinter widgets, tooltips and message boxes, and the matplotlib drawing are left out. Only the age axis of the plot and the name expression of `add_label_entry` are modelled.
- The call at retirement/retirement_calculator.py:46. It passes one argument to a lookup that takes one or two, depending on which `tax_bracket` module the import finds. The model's `Profile` has no tax-bracket field.
- The GUI package's `load_config` and the `self.config` it fills. Nothing in the core uses it.
- The copies that are the same code. The recommendations, plot axis and history rule are modelled once, from retirement/retirement_calculator.py, and the other two copies have the same text. The GUI package's withdrawal (retirement/retirement_calculator_gui.py:104-108) has the same text as the top-level one and is covered by `Calculator.AnnualWithdrawal`.
- `setattr` itself, and the `AttributeError` raised when `calculate` reads a missing field. The model proves which names are given and which are read.
- Floating point. Money and rates are exact reals, so rounding, overflow and the float `inf` edge (modelled as an unbounded edge) are out of scope. The exact-arithmetic results, such as the drawdown ending at exactly 0, may differ from the floats by rounding.
- Unicode. `str.lower` is modelled on ASCII letters only; the labels are ASCII.
- Projection.AnnualWithdrawal: requires years > 0 and a rate above -100%. The source fails at years = 0, at rate -100% with positive years, and at rate -200% with an even number of years. For other negative years and other rates below -100% it returns a number, which the model does not cover.
- Calculator.AnnualWithdrawal: the same domain as Projection.AnnualWithdrawal, for the same reason.
- Projection.ProjectSavings: requires life expectancy after the retirement age and a return above -100%. When life expectancy equals the retirement age the source divides by zero. When it is earlier, the source computes a withdrawal for negative years that its empty drawdown loop never uses, and the model does not cover that case.
- Projection.MainReport: the same domain as Projection.ProjectSavings.
- Projection.CorrectedReport: the same domain as Projection.ProjectSavings.

## Findings

| source | as written | input that shows it | evidently intended | confidence | as-written member | corrected member |
|---|---|---|---|---|---|---|
| retirement/retirement_calculator.py:129-134 | `main` prints the balance that `project_savings` returns as the "projected savings at age" retirement age, and computes the withdrawal from it. That balance is the one after the drawdown loop, at life expectancy. | current age 30, retirement age 65, life expectancy 85, income 50,000, savings 10,000, 10% contribution, no raise, no match, 7% return: the report shows savings 0.00, withdrawal 0.00 and the low-savings advice | report the last accumulation balance, the balance at retirement age, and spread that over the retirement years | high; not executed | Projection.MainReportIsZero | Projection.CorrectedReport |
