# MSOE commission calculator, modelled in Dafny

The calculator keeps one salesperson's sales for a month: a ledger of sales,
each with a category code and a dollar amount. It also keeps the employee's
first name and experience tier. From these it computes three things:

- the month's total sales;
- a base commission, paid at a per-category rate on the sales above the tier's
  minimum;
- a bonus commission, paid at a flat per-tier rate on the sales above a much
  higher threshold.

The model has five modules:

- `ICommissionCalculator` (`commission_interface.dfy`): the interface's tier
  and category codes, and the 100000.00 cap on a sale.
- `JavaStringSplit` (`string_split.dfy`): `String.split("\\s+")`, which the
  constructor uses to check the name.
- `CommissionSpec` (`commission_spec.dfy`): the rate tables, the thresholds,
  and the two loops as pure folds over the ledger (`CommissionPass`,
  `BonusPass`), with their properties proved.
- `MSOECommission` (`msoe_commission_calculator.dfy`): the class itself, with
  `transactions`, `employeeName` and `employeeExperience` as mutable fields.
  - The constructor's exceptions become the `Create` factory, which returns a
    `Result`.
  - Each throwing method returns an `Outcome` naming the exception.
  - Each loop is a `for` loop, proved to compute exactly the matching fold.
- `IntendedCommission` (`intended_commission.dfy`): the five places where the
  code departs from what its documentation, its comments and its constants
  evidently intend. Each one has a concrete input and a corrected definition
  with the intended property proved (see "## Findings").

The class follows the code as written, including those departures.

Money is `real`, so amounts and rates are exact. Each probationary rate is
written in the code as an `int` quotient (`2/100`, `3/100`, `1/100`, `3/100`).
Java divides these as integers before widening them to `double`, so the model
makes them `(2 / 100) as real` and so on. All four rates are therefore 0.

## Model

| member | source | states |
|---|---|---|
| ICommissionCalculator.TierCodes | src/edu/msoe/se2832/lab04/iCommissionCalculator.java:17-23 | PROBATIONARY and EXPERIENCED differ, and a tier code is exactly 0 or 1 |
| ICommissionCalculator.CategoryCodes | src/edu/msoe/se2832/lab04/iCommissionCalculator.java:25-31 | the four category codes are ordered, and a listed category is exactly a code from 0 to 3 |
| JavaStringSplit.Words | src/edu/msoe/se2832/lab04/MSOECommissionCalculator.java:63 | the maximal runs of non-whitespace characters of a string, in order |
| JavaStringSplit.Split | src/edu/msoe/se2832/lab04/MSOECommissionCalculator.java:63 | `split("\\s+")`: the words, preceded by an empty token when the string starts with whitespace and has a word; no token for a string of whitespace only; the empty string yields itself |
| JavaStringSplit.WordsAreWords | src/edu/msoe/se2832/lab04/MSOECommissionCalculator.java:63 | every whitespace-separated word is non-empty and contains no whitespace |
| JavaStringSplit.SplitTokens | src/edu/msoe/se2832/lab04/MSOECommissionCalculator.java:63 | the tokens of `split("\\s+")` contain no whitespace; only the first can be empty, and it is empty exactly when the string is empty or starts with whitespace and has a word |
| JavaStringSplit.WordsSkipWhitespace | src/edu/msoe/se2832/lab04/MSOECommissionCalculator.java:63 | leading whitespace adds no word |
| JavaStringSplit.WordsOfWord | src/edu/msoe/se2832/lab04/MSOECommissionCalculator.java:63 | a run of non-whitespace followed by whitespace or by the end is one word |
| JavaStringSplit.SplitFirstLast | src/edu/msoe/se2832/lab04/MSOECommissionCalculator.java:63-67 | a first and a last name separated by whitespace, with trailing whitespace or none, split into exactly those two names |
| MSOECommission.NameAccepted | src/edu/msoe/se2832/lab04/MSOECommissionCalculator.java:63-66 | the constructor's name test: exactly two tokens, the first longer than 2 characters, the second at least 2 long |
| MSOECommission.CheckConstruction | src/edu/msoe/se2832/lab04/MSOECommissionCalculator.java:59-80 | construction succeeds exactly when the name has two tokens (the first longer than 2, the second at least 2 long) and the tier is valid; a bad name is reported before a bad tier; the kept name is the first token, longer than 2 and free of whitespace |
| MSOECommission.CheckSale | src/edu/msoe/se2832/lab04/MSOECommissionCalculator.java:82-91 | a sale passes exactly when its type is 1 or 2 and its amount is between 0.00 and 100000.00 inclusive; any other type throws the sales-type exception, even with a bad amount; a bad amount with type 1 or 2 throws the dollar-amount exception |
| MSOECommission.LedgerAccepted | src/edu/msoe/se2832/lab04/MSOECommissionCalculator.java:82-98 | every entry of the ledger passed addSale's validation |
| MSOECommission.AcceptedLedgerIsWellFormed | src/edu/msoe/se2832/lab04/MSOECommissionCalculator.java:82-98 | every sale addSale accepted indexes the four-entry rate tables and has a non-negative amount |
| MSOECommission.MSOECommissionCalculator.constructor | src/edu/msoe/se2832/lab04/MSOECommissionCalculator.java:67-78 | stores a validated first name and tier with an empty ledger, and establishes the class invariant |
| MSOECommission.MSOECommissionCalculator.Create | src/edu/msoe/se2832/lab04/MSOECommissionCalculator.java:59-80 | returns a fresh valid calculator holding the first token of the name, the tier and an empty ledger exactly when CheckConstruction succeeds; otherwise returns its exception |
| MSOECommission.MSOECommissionCalculator.AddSale | src/edu/msoe/se2832/lab04/MSOECommissionCalculator.java:82-102 | the outcome is CheckSale's verdict; an accepted sale is appended to the ledger; a rejected one changes nothing; name and tier never change |
| MSOECommission.MSOECommissionCalculator.GetTotalSales | src/edu/msoe/se2832/lab04/MSOECommissionCalculator.java:104-115 | the loop returns the sum of the ledger's amounts |
| MSOECommission.MSOECommissionCalculator.SetEmployeeExperience | src/edu/msoe/se2832/lab04/MSOECommissionCalculator.java:117-128 | succeeds exactly for the two tier codes and stores the new tier; otherwise throws the experience exception and keeps the old tier; the ledger and name never change |
| MSOECommission.MSOECommissionCalculator.GetMinimumSales | src/edu/msoe/se2832/lab04/MSOECommissionCalculator.java:232-243 | 2000.00 for either tier |
| MSOECommission.MSOECommissionCalculator.CalculateCommission | src/edu/msoe/se2832/lab04/MSOECommissionCalculator.java:130-180 | the loop returns exactly Commission of the ledger for the employee's tier, with the getMinimumSales threshold |
| MSOECommission.MSOECommissionCalculator.CalculateBonusCommission | src/edu/msoe/se2832/lab04/MSOECommissionCalculator.java:182-230 | the loop returns exactly BonusCommission of the ledger for the employee's tier |
| MSOECommission.MSOECommissionCalculator.GetName | src/edu/msoe/se2832/lab04/MSOECommissionCalculator.java:245-248 | the stored first name, longer than 2 characters and free of whitespace |
| MSOECommission.MSOECommissionCalculator.GetEmployeeExperience | src/edu/msoe/se2832/lab04/MSOECommissionCalculator.java:250-256 | the stored tier, which is always PROBATIONARY or EXPERIENCED |
| CommissionSpec.CommissionTable | src/edu/msoe/se2832/lab04/MSOECommissionCalculator.java:131-147 | the rate table chosen by tier: the truncated probationary rates, the experienced rates 0.04, 0.06, 0.015, 0.08, and an empty table for Java's `null` |
| CommissionSpec.MinimumSales | src/edu/msoe/se2832/lab04/MSOECommissionCalculator.java:232-243 | getMinimumSales as written: the probationary constant for both tiers, 0.00 otherwise |
| CommissionSpec.BonusRate | src/edu/msoe/se2832/lab04/MSOECommissionCalculator.java:184-201 | the bonus rate chosen by tier: 0.005, 0.015, or 0 otherwise |
| CommissionSpec.BonusThreshold | src/edu/msoe/se2832/lab04/MSOECommissionCalculator.java:194-201 | the bonus threshold chosen by tier: 50000.00, 100000.00, or 0 otherwise |
| CommissionSpec.TotalSales | src/edu/msoe/se2832/lab04/MSOECommissionCalculator.java:104-115 | the sum of the ledger's amounts, taken in ledger order |
| CommissionSpec.CommissionStep | src/edu/msoe/se2832/lab04/MSOECommissionCalculator.java:161-176 | one iteration of the commission loop with its three branches, including the subtraction at line 162 |
| CommissionSpec.CommissionPass | src/edu/msoe/se2832/lab04/MSOECommissionCalculator.java:154-177 | the commission loop over the whole ledger, from zero net sales and zero commission |
| CommissionSpec.Commission | src/edu/msoe/se2832/lab04/MSOECommissionCalculator.java:130-180 | calculateCommission: the commission pass with the tier's table and getMinimumSales as the threshold |
| CommissionSpec.BonusStep | src/edu/msoe/se2832/lab04/MSOECommissionCalculator.java:211-226 | one iteration of the bonus loop with its three branches, including the overwrite at line 213 |
| CommissionSpec.BonusPass | src/edu/msoe/se2832/lab04/MSOECommissionCalculator.java:204-227 | the bonus loop over the whole ledger, from zero net sales and zero bonus |
| CommissionSpec.BonusCommission | src/edu/msoe/se2832/lab04/MSOECommissionCalculator.java:182-230 | calculateBonusCommission: the bonus pass with the tier's bonus threshold and rate |
| CommissionSpec.MinimumSalesOfTiers | src/edu/msoe/se2832/lab04/MSOECommissionCalculator.java:232-243 | both tiers get the 2000.00 threshold, never the 5000.00 experienced constant |
| CommissionSpec.RateTables | src/edu/msoe/se2832/lab04/MSOECommissionCalculator.java:131-147 | each tier's table has four non-negative rates; every probationary rate is 0; the experienced maintenance rate is 0.06 |
| CommissionSpec.BonusParameters | src/edu/msoe/se2832/lab04/MSOECommissionCalculator.java:183-201 | probationary employees get threshold 50000.00 and rate 0.005; experienced employees get 100000.00 and 0.015 |
| CommissionSpec.TotalSalesConcat | src/edu/msoe/se2832/lab04/MSOECommissionCalculator.java:104-115 | the total of two ledgers joined is the sum of their totals |
| CommissionSpec.TotalSalesAppend | src/edu/msoe/se2832/lab04/MSOECommissionCalculator.java:110-113 | adding a sale adds its amount to the total |
| CommissionSpec.TotalSalesNonNegative | src/edu/msoe/se2832/lab04/MSOECommissionCalculator.java:104-115 | a ledger with no negative amount has a non-negative total |
| CommissionSpec.CommissionPassAppend | src/edu/msoe/se2832/lab04/MSOECommissionCalculator.java:158-177 | the commission loop over a ledger with one more sale is one more iteration |
| CommissionSpec.CommissionStepBranches | src/edu/msoe/se2832/lab04/MSOECommissionCalculator.java:161-176 | one iteration: below the threshold nothing is paid; on crossing it, the part above the threshold is paid at the sale's rate; once at or above it, the whole sale is paid and its amount is subtracted from the running total |
| CommissionSpec.CommissionStepGrows | src/edu/msoe/se2832/lab04/MSOECommissionCalculator.java:161-176 | with a non-negative amount and rate, an iteration never lowers the commission |
| CommissionSpec.CommissionNonNegative | src/edu/msoe/se2832/lab04/MSOECommissionCalculator.java:158-179 | with non-negative amounts and rates the commission is never negative |
| CommissionSpec.CommissionStepBelow | src/edu/msoe/se2832/lab04/MSOECommissionCalculator.java:165-176 | a sale that keeps the running total at or below the threshold adds it to the total and pays nothing |
| CommissionSpec.CommissionZeroUpToThreshold | src/edu/msoe/se2832/lab04/MSOECommissionCalculator.java:158-179 | when total sales do not exceed the threshold, the running total is the total and the commission is 0, including a total exactly at the threshold |
| CommissionSpec.ZeroRatesPayNothing | src/edu/msoe/se2832/lab04/MSOECommissionCalculator.java:158-179 | a table of zero rates pays no commission on any ledger |
| CommissionSpec.CommissionOfTier | src/edu/msoe/se2832/lab04/MSOECommissionCalculator.java:130-180 | calculateCommission is never negative, is 0 up to getMinimumSales, and is always 0 for a probationary employee |
| CommissionSpec.BonusPassAppend | src/edu/msoe/se2832/lab04/MSOECommissionCalculator.java:208-227 | the bonus loop over a ledger with one more sale is one more iteration |
| CommissionSpec.BonusStepBranches | src/edu/msoe/se2832/lab04/MSOECommissionCalculator.java:211-226 | one bonus iteration: nothing below the threshold; the part above it on crossing; once at or above it, the bonus is replaced by this sale's amount times the rate |
| CommissionSpec.BonusNetIsTotal | src/edu/msoe/se2832/lab04/MSOECommissionCalculator.java:208-227 | the bonus loop's running total is the total of the sales seen so far |
| CommissionSpec.BonusStepBelow | src/edu/msoe/se2832/lab04/MSOECommissionCalculator.java:215-226 | a sale that keeps the running total at or below the bonus threshold pays no bonus |
| CommissionSpec.BonusZeroUpToThreshold | src/edu/msoe/se2832/lab04/MSOECommissionCalculator.java:208-229 | no bonus while total sales do not exceed the bonus threshold |
| CommissionSpec.BonusStepNonNegative | src/edu/msoe/se2832/lab04/MSOECommissionCalculator.java:211-226 | a non-negative sale keeps a non-negative bonus non-negative, including in the overwriting branch |
| CommissionSpec.BonusNonNegative | src/edu/msoe/se2832/lab04/MSOECommissionCalculator.java:208-229 | with non-negative amounts and rate the bonus is never negative |
| CommissionSpec.BonusLastAboveOverwrites | src/edu/msoe/se2832/lab04/MSOECommissionCalculator.java:211-214 | once the earlier sales meet the threshold, the bonus is the last sale's amount times the rate, whatever came before |
| CommissionSpec.BonusOfTier | src/edu/msoe/se2832/lab04/MSOECommissionCalculator.java:182-230 | calculateBonusCommission is never negative and is 0 up to the tier's bonus threshold |
| IntendedCommission.IntendedCheckSale | src/edu/msoe/se2832/lab04/iCommissionCalculator.java:41-55 | the documented sale check: passes exactly for a listed category with an amount from 0.00 to 100000.00 |
| IntendedCommission.IntendedMinimumSales | src/edu/msoe/se2832/lab04/MSOECommissionCalculator.java:34-35 | each tier reads its own minimum: 2000.00 for probationary, 5000.00 for experienced |
| IntendedCommission.IntendedLedgerAccepted | src/edu/msoe/se2832/lab04/iCommissionCalculator.java:41-55 | every entry of the ledger passes the documented sale check |
| IntendedCommission.IntendedLedgerIsWellFormed | src/edu/msoe/se2832/lab04/iCommissionCalculator.java:41-55 | a ledger the documented check accepts indexes the four-entry rate tables and has no negative amount |
| IntendedCommission.AcceptedLedgerIsIntendedAccepted | src/edu/msoe/se2832/lab04/MSOECommissionCalculator.java:82-91 | every ledger the code as written accepts, the documented check accepts too |
| IntendedCommission.IntendedTable | src/edu/msoe/se2832/lab04/MSOECommissionCalculator.java:131-147 | the rate table by tier with the probationary rates 0.02, 0.03, 0.01, 0.03 |
| IntendedCommission.Portion | src/edu/msoe/se2832/lab04/MSOECommissionCalculator.java:161-176 | the part of a sale above the threshold, given the sales before it |
| IntendedCommission.Excess | src/edu/msoe/se2832/lab04/MSOECommissionCalculator.java:165-172 | how far a total exceeds the threshold: never negative and at least the difference |
| IntendedCommission.IntendedStep | src/edu/msoe/se2832/lab04/MSOECommissionCalculator.java:161-176 | one iteration of the commission loop that always adds the sale to the running total and pays its part above the threshold |
| IntendedCommission.IntendedPass | src/edu/msoe/se2832/lab04/MSOECommissionCalculator.java:154-177 | the intended loop over the whole ledger from zero |
| IntendedCommission.IntendedCommissionOf | src/edu/msoe/se2832/lab04/MSOECommissionCalculator.java:130-180 | calculateCommission as intended: each tier's own threshold and the intended rates |
| IntendedCommission.IntendedBonus | src/edu/msoe/se2832/lab04/MSOECommissionCalculator.java:182-230 | calculateBonusCommission as intended: the bonus accumulated, not overwritten, at the tier's flat rate |
| IntendedCommission.IntendedPassSplitLast | src/edu/msoe/se2832/lab04/MSOECommissionCalculator.java:158-177 | the intended pass over a non-empty ledger is one more step after its prefix, whose running total is the prefix's total |
| IntendedCommission.IntendedNetIsTotal | src/edu/msoe/se2832/lab04/MSOECommissionCalculator.java:158-177 | without the subtraction, the running total is the total of the sales seen so far |
| IntendedCommission.PortionAddsToExcess | src/edu/msoe/se2832/lab04/MSOECommissionCalculator.java:165-172 | the commissioned parts of successive sales add up to exactly the excess of the total over the threshold |
| IntendedCommission.IntendedStepAtLeast | src/edu/msoe/se2832/lab04/MSOECommissionCalculator.java:158-177 | one intended iteration keeps the commission at least the lowest rate times the excess |
| IntendedCommission.IntendedStepAtMost | src/edu/msoe/se2832/lab04/MSOECommissionCalculator.java:158-177 | one intended iteration keeps the commission at most the highest rate times the excess |
| IntendedCommission.IntendedCommissionAtLeast | src/edu/msoe/se2832/lab04/MSOECommissionCalculator.java:158-179 | with every rate at least `lo`, the intended commission is at least `lo` times the excess over the threshold |
| IntendedCommission.IntendedCommissionAtMost | src/edu/msoe/se2832/lab04/MSOECommissionCalculator.java:158-179 | with every rate at most `hi`, the intended commission is at most `hi` times the excess over the threshold |
| IntendedCommission.IntendedCommissionBetweenRates | src/edu/msoe/se2832/lab04/MSOECommissionCalculator.java:158-179 | both bounds at once |
| IntendedCommission.IntendedUniformRate | src/edu/msoe/se2832/lab04/MSOECommissionCalculator.java:208-229 | with one rate for every category, the intended commission is that rate times the excess |
| IntendedCommission.PortionAntitone | src/edu/msoe/se2832/lab04/MSOECommissionCalculator.java:165-172 | a higher threshold leaves a smaller commissionable part of a sale |
| IntendedCommission.MonotoneStep | src/edu/msoe/se2832/lab04/MSOECommissionCalculator.java:158-177 | one intended iteration preserves the ordering of commissions at a lower and a higher threshold |
| IntendedCommission.IntendedThresholdMonotone | src/edu/msoe/se2832/lab04/MSOECommissionCalculator.java:158-179 | raising the threshold never raises the intended commission |
| IntendedCommission.IntendedBonusIsRateTimesExcess | src/edu/msoe/se2832/lab04/MSOECommissionCalculator.java:182-230 | for any ledger the documented check accepts, all four categories included, the intended bonus is the tier's rate times the excess of total sales over the tier's bonus threshold |
| IntendedCommission.IntendedCommissionOfTier | src/edu/msoe/se2832/lab04/MSOECommissionCalculator.java:130-180 | for any ledger the documented check accepts, all four categories included, with the intended rates and thresholds the commission is 0 up to the tier's own minimum; above it, it lies between the tier's lowest and highest rate times the excess; a probationary employee above 2000.00 earns a positive commission |
| IntendedCommission.SaleTypeTestRejectsListedTypes | src/edu/msoe/se2832/lab04/MSOECommissionCalculator.java:84-87 | addSale rejects BASIC_ITEM and CONSULTING_ITEM, which the interface lists and the intended check accepts |
| IntendedCommission.IntendedPassAppend | src/edu/msoe/se2832/lab04/MSOECommissionCalculator.java:158-177 | the intended loop over a ledger with one more sale is one more iteration |
| IntendedCommission.ProbationaryRatesTruncated | src/edu/msoe/se2832/lab04/MSOECommissionCalculator.java:132-133 | 2500.00 of probationary maintenance sales earn 0 as written and 15.00 with the intended rates |
| IntendedCommission.ExperiencedThresholdIsProbationary | src/edu/msoe/se2832/lab04/MSOECommissionCalculator.java:237-238 | the experienced tier gets 2000.00 instead of 5000.00, so 3000.00 of maintenance sales earn 60.00 as written and 0 as intended |
| IntendedCommission.CommissionPassOfThree | src/edu/msoe/se2832/lab04/MSOECommissionCalculator.java:158-177 | the commission loop over three sales is three iterations from zero |
| IntendedCommission.IntendedPassOfThree | src/edu/msoe/se2832/lab04/MSOECommissionCalculator.java:158-177 | the intended loop over three sales is three iterations from zero |
| IntendedCommission.BonusPassOfThree | src/edu/msoe/se2832/lab04/MSOECommissionCalculator.java:208-227 | the bonus loop over three sales is three iterations from zero |
| IntendedCommission.WrittenDecrementRun | src/edu/msoe/se2832/lab04/MSOECommissionCalculator.java:161-164 | as written, experienced sales of 2000.00, 100.00 and 100.00 end with net sales 2000.00 and commission 6.00 |
| IntendedCommission.IntendedDecrementRun | src/edu/msoe/se2832/lab04/MSOECommissionCalculator.java:158-177 | as intended, the same sales end with net sales 2200.00 and commission 12.00 |
| IntendedCommission.NetSalesDecrementCounterexample | src/edu/msoe/se2832/lab04/MSOECommissionCalculator.java:161-164 | the subtraction pays 6.00 where 12.00 is due |
| IntendedCommission.WrittenRunAt100 | src/edu/msoe/se2832/lab04/MSOECommissionCalculator.java:161-164 | as written, three sales of 100.00 at rate 1 with threshold 100.00 earn 100.00 |
| IntendedCommission.WrittenRunAt150 | src/edu/msoe/se2832/lab04/MSOECommissionCalculator.java:161-164 | the same sales with threshold 150.00 earn 150.00 |
| IntendedCommission.WrittenThresholdNotMonotone | src/edu/msoe/se2832/lab04/MSOECommissionCalculator.java:161-164 | as written, raising the threshold can raise the commission |
| IntendedCommission.WrittenBonusRun | src/edu/msoe/se2832/lab04/MSOECommissionCalculator.java:211-214 | as written, experienced sales of 100000.00, 10.00 and 10.00 end with net sales 100020.00 and a bonus of 0.15 |
| IntendedCommission.IntendedBonusRun | src/edu/msoe/se2832/lab04/MSOECommissionCalculator.java:208-227 | as intended, the same sales end with a bonus of 0.30 |
| IntendedCommission.BonusOverwriteCounterexample | src/edu/msoe/se2832/lab04/MSOECommissionCalculator.java:211-214 | after 100000.00, two experienced sales of 10.00 earn a bonus of 0.15 as written and 0.30 as intended |

## Left out

- Logging: the logger and the `catch` block at `MSOECommissionCalculator.java:93-101` are not modelled. Building a `SalesTransaction` value cannot fail in the model, so that exception path never fires.
- `SalesTransaction` class: the class is not part of this model. A sale is a datatype holding its category code and amount, and its getters are field reads.
- Floating point: money and rates are exact `real`s, not IEEE doubles. Rounding, NaN and infinities are not modelled, so a NaN amount, which Java's range test lets through, has no counterpart here.
- Name lengths: they are counted in characters (`seq<char>`), not in UTF-16 code units.
- Regular expressions: `\s` is limited to its six ASCII whitespace characters. Only the pattern `\s+` is modelled, not general regular expressions.
- Constructor: the Java constructor's exceptions are modelled by the static `Create` factory, which returns a `Result`. The Dafny `constructor` only stores fields that are already validated.
- `Valid()`: the class invariant (a valid tier, an accepted ledger, a first name longer than 2 with no whitespace). Every operation keeps it, and the getters and the two calculations require it. Java keeps the same facts implicitly, through the constructor and the setters.
- The `null` rate table: Java's third branch (`MSOECommissionCalculator.java:145-147`) is unreachable under the invariant. It is modelled as an empty table, and only a valid tier reaches the loop.
- MSOECommission.MSOECommissionCalculator.CalculateCommission: its `ensures` states only that the loop computes `Commission`. Non-negativity, zero up to the minimum and zero for probationary employees are proved of `Commission` in `CommissionSpec.CommissionOfTier`, not restated on the method.
- MSOECommission.MSOECommissionCalculator.CalculateBonusCommission: its `ensures` states only that the loop computes `BonusCommission`. Non-negativity and zero up to the threshold are proved in `CommissionSpec.BonusOfTier`.
- Concurrency: none; the class is not thread-safe and the model is sequential.

## Findings

The class above keeps each of these defects as written. Module
`IntendedCommission` holds the corrected definitions and the properties they
were evidently meant to have.

| source | as written | input that shows it | evidently intended | confidence | as-written member | corrected member |
|---|---|---|---|---|---|---|
| src/edu/msoe/se2832/lab04/MSOECommissionCalculator.java:84 | `salesType <= BASIC_ITEM \|\| salesType >= CONSULTING_ITEM` rejects types 0 and 3 | `addSale(BASIC_ITEM, 100.00)` and `addSale(CONSULTING_ITEM, 100.00)` throw "Invalid entry for sales type." | accept every listed category, 0 through 3 (`<` and `>`) | high, not executed | IntendedCommission.SaleTypeTestRejectsListedTypes | IntendedCommission.IntendedCheckSale |
| src/edu/msoe/se2832/lab04/MSOECommissionCalculator.java:132-133 | `2/100`, `3/100`, `1/100`, `3/100` are `int` divisions, so every probationary rate is 0 | probationary, one maintenance sale of 2500.00: commission 0 | rates 0.02, 0.03, 0.01, 0.03, giving 15.00 | high, not executed | IntendedCommission.ProbationaryRatesTruncated | IntendedCommission.IntendedCommissionOfTier |
| src/edu/msoe/se2832/lab04/MSOECommissionCalculator.java:162 | `netSales -= amount` once the threshold is met | experienced maintenance sales 2000.00, 100.00, 100.00: commission 6.00 | `netSales += amount`, giving 12.00; the commission then never rises with the threshold | high, not executed | IntendedCommission.NetSalesDecrementCounterexample | IntendedCommission.IntendedThresholdMonotone |
| src/edu/msoe/se2832/lab04/MSOECommissionCalculator.java:213 | `bonusCommission = amount * rate` replaces the bonus accumulated so far | experienced maintenance sales 100000.00, 10.00, 10.00: bonus 0.15 | `+=`, giving 0.30, the rate times the excess over the threshold | high, not executed | IntendedCommission.BonusOverwriteCounterexample | IntendedCommission.IntendedBonusIsRateTimesExcess |
| src/edu/msoe/se2832/lab04/MSOECommissionCalculator.java:238 | the experienced branch returns `MINIMUM_PROBATIONARY_SALES_FOR_COMMISSION` | experienced, one maintenance sale of 3000.00: commission 60.00 | `MINIMUM_EXPERIENCED_SALES_FOR_COMMISSION` (5000.00), giving 0 | high, not executed | IntendedCommission.ExperiencedThresholdIsProbationary | IntendedCommission.IntendedMinimumSales |
