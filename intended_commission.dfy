/** Where the calculator's code departs from what its documentation, its
    comments and its constants evidently intend, this module pins the
    departure down with a concrete input and gives the evidently intended
    definition, with the property it was meant to have proved. The class in module MSOECommission
    keeps the behaviour of the code as written. */
module IntendedCommission {
  import opened ICommissionCalculator
  import opened CommissionSpec
  import opened MSOECommission

  // ---------------------------------------------------------------------------
  // Intended definitions

  /** The sale validation the interface documents: any listed category, and
      an amount that is neither negative nor above 100000.00. */
  function IntendedCheckSale(salesType: int, dollarAmount: real): (r: Outcome)
    ensures r == Pass <==> IsCategory(salesType) && 0.0 <= dollarAmount <= MAX_SALE_AMOUNT
    ensures r == Fail(InvalidSalesType) <==> !IsCategory(salesType)
  {
    if salesType < BASIC_ITEM || salesType > CONSULTING_ITEM then Fail(InvalidSalesType)
    else if dollarAmount < 0.00 || dollarAmount > 100000.00 then Fail(InvalidDollarAmount)
    else Pass
  }

  /** A ledger every entry of which the documented sale check accepts. */
  predicate IntendedLedgerAccepted(ledger: seq<SalesTransaction>)
  {
    forall i :: 0 <= i < |ledger| ==> IntendedCheckSale(ledger[i].transactionType, ledger[i].transactionAmount) == Pass
  }

  /** Such a ledger indexes the four-entry rate tables and has no negative
      amount. */
  lemma IntendedLedgerIsWellFormed(ledger: seq<SalesTransaction>)
    requires IntendedLedgerAccepted(ledger)
    ensures TypesBelow(ledger, 4) && NonNegativeAmounts(ledger)
  {
    forall i | 0 <= i < |ledger|
      ensures 0 <= ledger[i].transactionType < 4 && ledger[i].transactionAmount >= 0.0
    {
      assert IntendedCheckSale(ledger[i].transactionType, ledger[i].transactionAmount) == Pass;
    }
  }

  /** An accepted ledger of the code as written is accepted by the
      documented check too. */
  lemma AcceptedLedgerIsIntendedAccepted(ledger: seq<SalesTransaction>)
    requires LedgerAccepted(ledger)
    ensures IntendedLedgerAccepted(ledger)
  {
    forall i | 0 <= i < |ledger|
      ensures IntendedCheckSale(ledger[i].transactionType, ledger[i].transactionAmount) == Pass
    {
      assert CheckSale(ledger[i].transactionType, ledger[i].transactionAmount) == Pass;
    }
  }

  /** The probationary rates as the percentages 2, 3, 1 and 3 were meant. */
  const INTENDED_PROBATIONARY_RATES: seq<real> := [0.02, 0.03, 0.01, 0.03]

  function IntendedTable(experience: int): seq<real>
  {
    if experience == PROBATIONARY then INTENDED_PROBATIONARY_RATES
    else if experience == EXPERIENCED then EXPERIENCED_RATES
    else []
  }

  /** getMinimumSales with each tier reading its own constant. */
  function IntendedMinimumSales(experience: int): (m: real)
    ensures experience == PROBATIONARY ==> m == MINIMUM_PROBATIONARY_SALES_FOR_COMMISSION
    ensures experience == EXPERIENCED ==> m == MINIMUM_EXPERIENCED_SALES_FOR_COMMISSION
  {
    if experience == PROBATIONARY then MINIMUM_PROBATIONARY_SALES_FOR_COMMISSION
    else if experience == EXPERIENCED then MINIMUM_EXPERIENCED_SALES_FOR_COMMISSION
    else 0.00
  }

  /** The part of a sale of `amount` that lies above `threshold` when
      `netSales` have been made before it. */
  function Portion(netSales: real, amount: real, threshold: real): real
  {
    if netSales >= threshold then amount
    else if netSales + amount >= threshold then netSales + amount - threshold
    else 0.0
  }

  /** How far `total` exceeds `threshold`, or zero. */
  function Excess(total: real, threshold: real): (e: real)
    ensures e >= 0.0 && e >= total - threshold
  {
    if total > threshold then total - threshold else 0.0
  }

  /** One iteration of the intended loop: every branch adds the sale to the
      running total and adds the commissioned part to the commission. */
  function IntendedStep(r: Running, s: SalesTransaction, threshold: real, table: seq<real>): Running
    requires 0 <= s.transactionType < |table|
  {
    Running(r.netSales + s.transactionAmount,
            r.commission + Portion(r.netSales, s.transactionAmount, threshold) * table[s.transactionType])
  }

  function IntendedPass(ledger: seq<SalesTransaction>, threshold: real, table: seq<real>): Running
    requires TypesBelow(ledger, |table|)
  {
    if ledger == [] then Running(0.0, 0.0)
    else IntendedStep(IntendedPass(ledger[..|ledger| - 1], threshold, table), ledger[|ledger| - 1], threshold, table)
  }

  function IntendedCommissionOf(ledger: seq<SalesTransaction>, experience: int): real
    requires IsTier(experience) && TypesBelow(ledger, 4)
  {
    IntendedPass(ledger, IntendedMinimumSales(experience), IntendedTable(experience)).commission
  }

  /** The bonus as the same pass with the tier's flat rate for every category. */
  function IntendedBonus(ledger: seq<SalesTransaction>, experience: int): real
    requires TypesBelow(ledger, 4)
  {
    var rate := BonusRate(experience);
    IntendedPass(ledger, BonusThreshold(experience), [rate, rate, rate, rate]).commission
  }

  // ---------------------------------------------------------------------------
  // Properties of the intended definitions

  /** The intended running total is the total of the sales seen so far. */
  lemma {:induction false} IntendedNetIsTotal(ledger: seq<SalesTransaction>, threshold: real, table: seq<real>)
    requires TypesBelow(ledger, |table|)
    ensures IntendedPass(ledger, threshold, table).netSales == TotalSales(ledger)
  {
    if ledger != [] {
      IntendedNetIsTotal(ledger[..|ledger| - 1], threshold, table);
    }
  }

  /** The commissioned parts never double count: they add up to exactly the
      excess of the running total over the threshold. */
  lemma PortionAddsToExcess(netSales: real, amount: real, threshold: real)
    requires amount >= 0.0
    ensures Portion(netSales, amount, threshold) >= 0.0
    ensures Excess(netSales + amount, threshold) == Excess(netSales, threshold) + Portion(netSales, amount, threshold)
  {
  }

  /** One step of the lower bound: adding `portion` at a rate of at least
      `lo` keeps the commission at least `lo` times the grown excess. */
  lemma LowerStep(c: real, grown: real, excess: real, grownExcess: real, portion: real, rate: real, lo: real)
    requires lo * excess <= c
    requires portion >= 0.0 && lo <= rate
    requires grownExcess == excess + portion && grown == c + portion * rate
    ensures lo * grownExcess <= grown
  {
    assert (rate - lo) * portion >= 0.0;
  }

  /** One step of the upper bound. */
  lemma UpperStep(c: real, grown: real, excess: real, grownExcess: real, portion: real, rate: real, hi: real)
    requires c <= hi * excess
    requires portion >= 0.0 && rate <= hi
    requires grownExcess == excess + portion && grown == c + portion * rate
    ensures grown <= hi * grownExcess
  {
    assert (hi - rate) * portion >= 0.0;
  }

  /** A non-empty ledger is its prefix followed by its last sale: the intended
      pass over it is one more step, whose running total is the ledger's total. */
  lemma IntendedPassSplitLast(ledger: seq<SalesTransaction>, threshold: real, table: seq<real>)
    requires TypesBelow(ledger, |table|) && NonNegativeAmounts(ledger) && ledger != []
    ensures var p, s := ledger[..|ledger| - 1], ledger[|ledger| - 1];
            TypesBelow(p, |table|) && NonNegativeAmounts(p) &&
            0 <= s.transactionType < |table| && s.transactionAmount >= 0.0 &&
            IntendedPass(ledger, threshold, table) == IntendedStep(IntendedPass(p, threshold, table), s, threshold, table) &&
            IntendedPass(p, threshold, table).netSales == TotalSales(p) &&
            TotalSales(ledger) == TotalSales(p) + s.transactionAmount
  {
    var p, s := ledger[..|ledger| - 1], ledger[|ledger| - 1];
    assert ledger == p + [s];
    assert TypesBelow(p, |table|) && NonNegativeAmounts(p) && s.transactionAmount >= 0.0;
    IntendedNetIsTotal(p, threshold, table);
    TotalSalesAppend(p, s);
    IntendedPassAppend(p, s, threshold, table);
  }

  /** One sale keeps the lower bound: a commission of at least `lo` times
      the excess stays so once the sale is added at a rate of at least `lo`. */
  lemma IntendedStepAtLeast(r: Running, s: SalesTransaction, threshold: real, table: seq<real>, lo: real, before: real, total: real)
    requires 0 <= s.transactionType < |table|
    requires before == r.netSales && total == before + s.transactionAmount
    requires s.transactionAmount >= 0.0 && lo <= table[s.transactionType]
    requires lo * Excess(before, threshold) <= r.commission
    ensures lo * Excess(total, threshold) <= IntendedStep(r, s, threshold, table).commission
  {
    var a := s.transactionAmount;
    PortionAddsToExcess(before, a, threshold);
    LowerStep(r.commission, IntendedStep(r, s, threshold, table).commission, Excess(before, threshold),
              Excess(total, threshold), Portion(before, a, threshold), table[s.transactionType], lo);
  }

  /** One sale keeps the upper bound. */
  lemma IntendedStepAtMost(r: Running, s: SalesTransaction, threshold: real, table: seq<real>, hi: real, before: real, total: real)
    requires 0 <= s.transactionType < |table|
    requires before == r.netSales && total == before + s.transactionAmount
    requires s.transactionAmount >= 0.0 && table[s.transactionType] <= hi
    requires r.commission <= hi * Excess(before, threshold)
    ensures IntendedStep(r, s, threshold, table).commission <= hi * Excess(total, threshold)
  {
    var a := s.transactionAmount;
    PortionAddsToExcess(before, a, threshold);
    UpperStep(r.commission, IntendedStep(r, s, threshold, table).commission, Excess(before, threshold),
              Excess(total, threshold), Portion(before, a, threshold), table[s.transactionType], hi);
  }

  /** With every rate at least `lo`, the intended commission is at least
      `lo` times the excess of total sales over the threshold. */
  lemma {:induction false} IntendedCommissionAtLeast(ledger: seq<SalesTransaction>, threshold: real, table: seq<real>, lo: real)
    requires TypesBelow(ledger, |table|) && NonNegativeAmounts(ledger) && threshold >= 0.0
    requires forall i :: 0 <= i < |table| ==> lo <= table[i]
    ensures lo * Excess(TotalSales(ledger), threshold) <= IntendedPass(ledger, threshold, table).commission
  {
    if ledger != [] {
      var p, s := ledger[..|ledger| - 1], ledger[|ledger| - 1];
      IntendedPassSplitLast(ledger, threshold, table);
      IntendedCommissionAtLeast(p, threshold, table, lo);
      IntendedStepAtLeast(IntendedPass(p, threshold, table), s, threshold, table, lo, TotalSales(p), TotalSales(ledger));
    } else {
      assert Excess(TotalSales(ledger), threshold) == 0.0;
    }
  }

  /** With every rate at most `hi`, the intended commission is at most `hi`
      times the excess of total sales over the threshold. */
  lemma {:induction false} IntendedCommissionAtMost(ledger: seq<SalesTransaction>, threshold: real, table: seq<real>, hi: real)
    requires TypesBelow(ledger, |table|) && NonNegativeAmounts(ledger) && threshold >= 0.0
    requires forall i :: 0 <= i < |table| ==> table[i] <= hi
    ensures IntendedPass(ledger, threshold, table).commission <= hi * Excess(TotalSales(ledger), threshold)
  {
    if ledger != [] {
      var p, s := ledger[..|ledger| - 1], ledger[|ledger| - 1];
      IntendedPassSplitLast(ledger, threshold, table);
      IntendedCommissionAtMost(p, threshold, table, hi);
      IntendedStepAtMost(IntendedPass(p, threshold, table), s, threshold, table, hi, TotalSales(p), TotalSales(ledger));
    } else {
      assert Excess(TotalSales(ledger), threshold) == 0.0;
    }
  }

  /** When every rate of the table lies between `lo` and `hi`, so does the
      intended commission, as a multiple of the excess. */
  lemma IntendedCommissionBetweenRates(ledger: seq<SalesTransaction>, threshold: real, table: seq<real>, lo: real, hi: real)
    requires TypesBelow(ledger, |table|) && NonNegativeAmounts(ledger) && threshold >= 0.0
    requires forall i :: 0 <= i < |table| ==> lo <= table[i] <= hi
    ensures lo * Excess(TotalSales(ledger), threshold) <= IntendedPass(ledger, threshold, table).commission
    ensures IntendedPass(ledger, threshold, table).commission <= hi * Excess(TotalSales(ledger), threshold)
  {
    IntendedCommissionAtLeast(ledger, threshold, table, lo);
    IntendedCommissionAtMost(ledger, threshold, table, hi);
  }

  /** With one rate for every category the intended commission is that rate
      times the excess of total sales over the threshold. */
  lemma IntendedUniformRate(ledger: seq<SalesTransaction>, threshold: real, rate: real)
    requires TypesBelow(ledger, 4) && NonNegativeAmounts(ledger) && threshold >= 0.0
    ensures IntendedPass(ledger, threshold, [rate, rate, rate, rate]).commission == rate * Excess(TotalSales(ledger), threshold)
  {
    IntendedCommissionBetweenRates(ledger, threshold, [rate, rate, rate, rate], rate, rate);
  }

  /** A higher threshold leaves a smaller part of a sale above it. */
  lemma PortionAntitone(netSales: real, amount: real, low: real, high: real)
    requires amount >= 0.0 && low <= high
    ensures Portion(netSales, amount, high) <= Portion(netSales, amount, low)
  {
  }

  /** One step of monotonicity: from the same sales so far, a commission
      no larger at the higher threshold stays no larger after the next sale. */
  lemma MonotoneStep(rLow: Running, rHigh: Running, s: SalesTransaction, low: real, high: real, table: seq<real>)
    requires 0 <= s.transactionType < |table| && table[s.transactionType] >= 0.0
    requires s.transactionAmount >= 0.0 && low <= high
    requires rLow.netSales == rHigh.netSales && rHigh.commission <= rLow.commission
    ensures IntendedStep(rHigh, s, high, table).commission <= IntendedStep(rLow, s, low, table).commission
  {
    var pLow, pHigh := Portion(rLow.netSales, s.transactionAmount, low), Portion(rHigh.netSales, s.transactionAmount, high);
    PortionAntitone(rLow.netSales, s.transactionAmount, low, high);
    assert (pLow - pHigh) * table[s.transactionType] >= 0.0;
  }

  /** Raising the threshold never raises the intended commission. */
  lemma {:induction false} IntendedThresholdMonotone(ledger: seq<SalesTransaction>, low: real, high: real, table: seq<real>)
    requires TypesBelow(ledger, |table|) && NonNegativeAmounts(ledger) && low <= high
    requires forall i :: 0 <= i < |table| ==> table[i] >= 0.0
    ensures IntendedPass(ledger, high, table).commission <= IntendedPass(ledger, low, table).commission
  {
    if ledger != [] {
      var p, s := ledger[..|ledger| - 1], ledger[|ledger| - 1];
      assert TypesBelow(p, |table|) && NonNegativeAmounts(p);
      IntendedThresholdMonotone(p, low, high, table);
      IntendedNetIsTotal(p, low, table);
      IntendedNetIsTotal(p, high, table);
      MonotoneStep(IntendedPass(p, low, table), IntendedPass(p, high, table), s, low, high, table);
    }
  }

  /** The intended bonus is the tier's rate times the excess of total sales
      over the tier's bonus threshold. */
  lemma IntendedBonusIsRateTimesExcess(ledger: seq<SalesTransaction>, experience: int)
    requires IntendedLedgerAccepted(ledger) && IsTier(experience)
    ensures TypesBelow(ledger, 4)
    ensures IntendedBonus(ledger, experience) == BonusRate(experience) * Excess(TotalSales(ledger), BonusThreshold(experience))
  {
    IntendedLedgerIsWellFormed(ledger);
    IntendedUniformRate(ledger, BonusThreshold(experience), BonusRate(experience));
  }

  /** With each tier's own threshold and the intended rates, the commission
      is zero up to the threshold, and above it is at least the smallest and
      at most the largest of the tier's rates times the excess, so that a
      probationary employee above 2000.00 earns a positive commission. */
  lemma IntendedCommissionOfTier(ledger: seq<SalesTransaction>, experience: int)
    requires IntendedLedgerAccepted(ledger) && IsTier(experience)
    ensures TypesBelow(ledger, 4)
    ensures TotalSales(ledger) <= IntendedMinimumSales(experience) ==> IntendedCommissionOf(ledger, experience) == 0.0
    ensures experience == PROBATIONARY ==>
              0.01 * Excess(TotalSales(ledger), 2000.00) <= IntendedCommissionOf(ledger, experience)
                                                        <= 0.03 * Excess(TotalSales(ledger), 2000.00)
    ensures experience == EXPERIENCED ==>
              0.015 * Excess(TotalSales(ledger), 5000.00) <= IntendedCommissionOf(ledger, experience)
                                                         <= 0.08 * Excess(TotalSales(ledger), 5000.00)
    ensures experience == PROBATIONARY && TotalSales(ledger) > 2000.00 ==> IntendedCommissionOf(ledger, experience) > 0.0
  {
    IntendedLedgerIsWellFormed(ledger);
    var table, threshold := IntendedTable(experience), IntendedMinimumSales(experience);
    if experience == PROBATIONARY {
      IntendedCommissionBetweenRates(ledger, threshold, table, 0.01, 0.03);
    } else {
      IntendedCommissionBetweenRates(ledger, threshold, table, 0.015, 0.08);
    }
  }

  // ---------------------------------------------------------------------------
  // The departures, each shown on one input

  /** The type test of addSale rejects BASIC_ITEM and CONSULTING_ITEM, which
      the interface lists as valid. */
  lemma SaleTypeTestRejectsListedTypes()
    ensures CheckSale(BASIC_ITEM, 100.00) == Fail(InvalidSalesType)
    ensures CheckSale(CONSULTING_ITEM, 100.00) == Fail(InvalidSalesType)
    ensures IntendedCheckSale(BASIC_ITEM, 100.00) == Pass && IntendedCheckSale(CONSULTING_ITEM, 100.00) == Pass
  {
  }

  lemma IntendedPassAppend(ledger: seq<SalesTransaction>, s: SalesTransaction, threshold: real, table: seq<real>)
    requires TypesBelow(ledger, |table|) && 0 <= s.transactionType < |table|
    ensures TypesBelow(ledger + [s], |table|)
    ensures IntendedPass(ledger + [s], threshold, table)
         == IntendedStep(IntendedPass(ledger, threshold, table), s, threshold, table)
  {
    assert (ledger + [s])[..|ledger|] == ledger;
  }

  /** Every probationary rate is truncated to zero, so a probationary employee
      with 2500.00 of maintenance sales earns nothing instead of 15.00. */
  lemma ProbationaryRatesTruncated()
    ensures Commission([SalesTransaction(MAINTENANCE_ITEM, 2500.00)], PROBATIONARY) == 0.0
    ensures IntendedCommissionOf([SalesTransaction(MAINTENANCE_ITEM, 2500.00)], PROBATIONARY) == 15.00
  {
    var t := SalesTransaction(MAINTENANCE_ITEM, 2500.00);
    assert [] + [t] == [t];
    CommissionPassAppend([], t, 2000.00, PROBATIONARY_RATES);
    IntendedPassAppend([], t, 2000.00, INTENDED_PROBATIONARY_RATES);
    assert PROBATIONARY_RATES[1] == 0.0;
  }

  /** The experienced tier gets the probationary threshold: 3000.00 of
      maintenance sales earns commission on 1000.00, where the experienced
      threshold of 5000.00 would pay nothing. */
  lemma ExperiencedThresholdIsProbationary()
    ensures MinimumSales(EXPERIENCED) == 2000.00 && IntendedMinimumSales(EXPERIENCED) == 5000.00
    ensures Commission([SalesTransaction(MAINTENANCE_ITEM, 3000.00)], EXPERIENCED) == 60.00
    ensures IntendedCommissionOf([SalesTransaction(MAINTENANCE_ITEM, 3000.00)], EXPERIENCED) == 0.0
  {
    var t := SalesTransaction(MAINTENANCE_ITEM, 3000.00);
    assert [] + [t] == [t];
    CommissionPassAppend([], t, 2000.00, EXPERIENCED_RATES);
    IntendedPassAppend([], t, 5000.00, EXPERIENCED_RATES);
  }

  /** A pass over three sales is three steps from zero. */
  lemma CommissionPassOfThree(x: SalesTransaction, y: SalesTransaction, z: SalesTransaction, threshold: real, table: seq<real>)
    requires 0 <= x.transactionType < |table| && 0 <= y.transactionType < |table| && 0 <= z.transactionType < |table|
    ensures CommissionPass([x, y, z], threshold, table)
         == CommissionStep(CommissionStep(CommissionStep(Running(0.0, 0.0), x, threshold, table), y, threshold, table), z, threshold, table)
  {
    assert [] + [x] == [x] && [x] + [y] == [x, y] && [x, y] + [z] == [x, y, z];
    CommissionPassAppend([], x, threshold, table);
    CommissionPassAppend([x], y, threshold, table);
    CommissionPassAppend([x, y], z, threshold, table);
  }

  lemma IntendedPassOfThree(x: SalesTransaction, y: SalesTransaction, z: SalesTransaction, threshold: real, table: seq<real>)
    requires 0 <= x.transactionType < |table| && 0 <= y.transactionType < |table| && 0 <= z.transactionType < |table|
    ensures IntendedPass([x, y, z], threshold, table)
         == IntendedStep(IntendedStep(IntendedStep(Running(0.0, 0.0), x, threshold, table), y, threshold, table), z, threshold, table)
  {
    assert [] + [x] == [x] && [x] + [y] == [x, y] && [x, y] + [z] == [x, y, z];
    IntendedPassAppend([], x, threshold, table);
    IntendedPassAppend([x], y, threshold, table);
    IntendedPassAppend([x, y], z, threshold, table);
  }

  lemma BonusPassOfThree(x: SalesTransaction, y: SalesTransaction, z: SalesTransaction, threshold: real, rate: real)
    ensures BonusPass([x, y, z], threshold, rate)
         == BonusStep(BonusStep(BonusStep(Running(0.0, 0.0), x, threshold, rate), y, threshold, rate), z, threshold, rate)
  {
    assert [] + [x] == [x] && [x] + [y] == [x, y] && [x, y] + [z] == [x, y, z];
    BonusPassAppend([], x, threshold, rate);
    BonusPassAppend([x], y, threshold, rate);
    BonusPassAppend([x, y], z, threshold, rate);
  }

  /** The as-written pass over 2000.00, 100.00 and 100.00 of experienced
      maintenance sales. */
  lemma WrittenDecrementRun(t1: SalesTransaction, t2: SalesTransaction)
    requires t1 == SalesTransaction(MAINTENANCE_ITEM, 2000.00) && t2 == SalesTransaction(MAINTENANCE_ITEM, 100.00)
    ensures CommissionPass([t1, t2, t2], 2000.00, EXPERIENCED_RATES) == Running(2000.00, 6.00)
  {
    var rates := EXPERIENCED_RATES;
    CommissionPassOfThree(t1, t2, t2, 2000.00, rates);
    var r1 := CommissionStep(Running(0.0, 0.0), t1, 2000.00, rates);
    assert r1 == Running(2000.00, 0.0);
    var r2 := CommissionStep(r1, t2, 2000.00, rates);
    assert r2 == Running(1900.00, 6.00);
    assert CommissionStep(r2, t2, 2000.00, rates) == Running(2000.00, 6.00);
  }

  /** The intended pass over the same sales. */
  lemma IntendedDecrementRun(t1: SalesTransaction, t2: SalesTransaction)
    requires t1 == SalesTransaction(MAINTENANCE_ITEM, 2000.00) && t2 == SalesTransaction(MAINTENANCE_ITEM, 100.00)
    ensures IntendedPass([t1, t2, t2], 2000.00, EXPERIENCED_RATES) == Running(2200.00, 12.00)
  {
    var rates := EXPERIENCED_RATES;
    IntendedPassOfThree(t1, t2, t2, 2000.00, rates);
    var r1 := IntendedStep(Running(0.0, 0.0), t1, 2000.00, rates);
    assert r1 == Running(2000.00, 0.0);
    var r2 := IntendedStep(r1, t2, 2000.00, rates);
    assert r2 == Running(2100.00, 6.00);
    assert IntendedStep(r2, t2, 2000.00, rates) == Running(2200.00, 12.00);
  }

  /** Subtracting sales once the threshold is met: after a sale that reaches
      2000.00 exactly, the next 100.00 is commissioned but lowers the running
      total below the threshold, so the 100.00 after it is not; the
      experienced employee is paid 6.00 instead of 12.00. */
  lemma NetSalesDecrementCounterexample()
    ensures var l := [SalesTransaction(MAINTENANCE_ITEM, 2000.00), SalesTransaction(MAINTENANCE_ITEM, 100.00),
                      SalesTransaction(MAINTENANCE_ITEM, 100.00)];
            Commission(l, EXPERIENCED) == 6.00 &&
            IntendedPass(l, 2000.00, EXPERIENCED_RATES).commission == 12.00
  {
    var t1, t2 := SalesTransaction(MAINTENANCE_ITEM, 2000.00), SalesTransaction(MAINTENANCE_ITEM, 100.00);
    WrittenDecrementRun(t1, t2);
    IntendedDecrementRun(t1, t2);
  }

  /** The as-written pass over three sales of 100.00 at rate 1, threshold 100.00. */
  lemma WrittenRunAt100(t: SalesTransaction)
    requires t == SalesTransaction(MAINTENANCE_ITEM, 100.00)
    ensures CommissionPass([t, t, t], 100.00, [1.0, 1.0, 1.0, 1.0]) == Running(100.00, 100.00)
  {
    var ones := [1.0, 1.0, 1.0, 1.0];
    CommissionPassOfThree(t, t, t, 100.00, ones);
    var r1 := CommissionStep(Running(0.0, 0.0), t, 100.00, ones);
    assert r1 == Running(100.00, 0.0);
    var r2 := CommissionStep(r1, t, 100.00, ones);
    assert r2 == Running(0.0, 100.00);
    assert CommissionStep(r2, t, 100.00, ones) == Running(100.00, 100.00);
  }

  /** The same pass with threshold 150.00. */
  lemma WrittenRunAt150(t: SalesTransaction)
    requires t == SalesTransaction(MAINTENANCE_ITEM, 100.00)
    ensures CommissionPass([t, t, t], 150.00, [1.0, 1.0, 1.0, 1.0]) == Running(100.00, 150.00)
  {
    var ones := [1.0, 1.0, 1.0, 1.0];
    CommissionPassOfThree(t, t, t, 150.00, ones);
    var r1 := CommissionStep(Running(0.0, 0.0), t, 150.00, ones);
    assert r1 == Running(100.00, 0.0);
    var r2 := CommissionStep(r1, t, 150.00, ones);
    assert r2 == Running(200.00, 50.00);
    assert CommissionStep(r2, t, 150.00, ones) == Running(100.00, 150.00);
  }

  /** With the subtraction, raising the threshold can raise the commission:
      three sales of 100.00 at rate 1 earn 100.00 at threshold 100.00 but
      150.00 at threshold 150.00. */
  lemma WrittenThresholdNotMonotone()
    ensures var l := [SalesTransaction(MAINTENANCE_ITEM, 100.00), SalesTransaction(MAINTENANCE_ITEM, 100.00),
                      SalesTransaction(MAINTENANCE_ITEM, 100.00)];
            CommissionPass(l, 100.00, [1.0, 1.0, 1.0, 1.0]).commission == 100.00 &&
            CommissionPass(l, 150.00, [1.0, 1.0, 1.0, 1.0]).commission == 150.00
  {
    var t := SalesTransaction(MAINTENANCE_ITEM, 100.00);
    WrittenRunAt100(t);
    WrittenRunAt150(t);
  }

  /** The as-written bonus pass over 100000.00, 10.00 and 10.00 at the
      experienced rate. */
  lemma WrittenBonusRun(t1: SalesTransaction, t2: SalesTransaction)
    requires t1 == SalesTransaction(MAINTENANCE_ITEM, 100000.00) && t2 == SalesTransaction(MAINTENANCE_ITEM, 10.00)
    ensures BonusPass([t1, t2, t2], 100000.00, 0.015) == Running(100020.00, 0.15)
  {
    BonusPassOfThree(t1, t2, t2, 100000.00, 0.015);
    var b1 := BonusStep(Running(0.0, 0.0), t1, 100000.00, 0.015);
    assert b1 == Running(100000.00, 0.0);
    var b2 := BonusStep(b1, t2, 100000.00, 0.015);
    assert b2 == Running(100010.00, 0.15);
    assert BonusStep(b2, t2, 100000.00, 0.015) == Running(100020.00, 0.15);
  }

  /** The intended bonus pass over the same sales. */
  lemma IntendedBonusRun(t1: SalesTransaction, t2: SalesTransaction)
    requires t1 == SalesTransaction(MAINTENANCE_ITEM, 100000.00) && t2 == SalesTransaction(MAINTENANCE_ITEM, 10.00)
    ensures IntendedPass([t1, t2, t2], 100000.00, [0.015, 0.015, 0.015, 0.015]) == Running(100020.00, 0.30)
  {
    var rates := [0.015, 0.015, 0.015, 0.015];
    IntendedPassOfThree(t1, t2, t2, 100000.00, rates);
    var i1 := IntendedStep(Running(0.0, 0.0), t1, 100000.00, rates);
    assert i1 == Running(100000.00, 0.0);
    var i2 := IntendedStep(i1, t2, 100000.00, rates);
    assert i2 == Running(100010.00, 0.15);
    assert IntendedStep(i2, t2, 100000.00, rates) == Running(100020.00, 0.30);
  }

  /** The bonus keeps only the last sale above the threshold: two sales of
      10.00 after 100000.00 earn an experienced employee 0.15 instead of 0.30. */
  lemma BonusOverwriteCounterexample()
    ensures var l := [SalesTransaction(MAINTENANCE_ITEM, 100000.00), SalesTransaction(MAINTENANCE_ITEM, 10.00),
                      SalesTransaction(MAINTENANCE_ITEM, 10.00)];
            BonusCommission(l, EXPERIENCED) == 0.15 && IntendedBonus(l, EXPERIENCED) == 0.30
  {
    var t1, t2 := SalesTransaction(MAINTENANCE_ITEM, 100000.00), SalesTransaction(MAINTENANCE_ITEM, 10.00);
    WrittenBonusRun(t1, t2);
    IntendedBonusRun(t1, t2);
  }
}
