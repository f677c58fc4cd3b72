/** The calculator's tables and the two running-total passes over the sales
    ledger, as pure functions that follow the Java code as written, with the
    properties proved of them. The class in module MSOECommission runs these
    passes as loops and is proved to compute exactly these functions. */
module CommissionSpec {
  import opened ICommissionCalculator

  /** One recorded sale: its category code and its dollar amount. */
  datatype SalesTransaction = SalesTransaction(transactionType: int, transactionAmount: real)

  const MINIMUM_PROBATIONARY_SALES_FOR_COMMISSION: real := 2000.00
  const MINIMUM_EXPERIENCED_SALES_FOR_COMMISSION: real := 5000.00
  const MINIMUM_PROBATIONARY_SALES_FOR_BONUS_COMMISSION: real := 50000.00
  const MINIMUM_EXPERIENCED_SALES_FOR_BONUS_COMMISSION: real := 100000.00
  const BONUS_COMMISSION_FOR_PROBATIONARY_EMPLOYEE_RATE: real := 0.005
  const BONUS_COMMISSION_FOR_EXPERIENCED_EMPLOYEE_RATE: real := 0.015

  /** The probationary rates are the Java int expressions 2/100, 3/100, 1/100
      and 3/100, divided as integers before being widened to double. */
  const PROBATIONARY_RATES: seq<real> := [(2 / 100) as real, (3 / 100) as real, (1 / 100) as real, (3 / 100) as real]
  const EXPERIENCED_RATES: seq<real> := [0.04, 0.06, 0.015, 0.08]

  /** The rate table chosen by tier; the empty table stands for Java's null. */
  function CommissionTable(experience: int): seq<real>
  {
    if experience == PROBATIONARY then PROBATIONARY_RATES
    else if experience == EXPERIENCED then EXPERIENCED_RATES
    else []
  }

  /** getMinimumSales: both tiers read the probationary constant. */
  function MinimumSales(experience: int): real
  {
    if experience == PROBATIONARY then MINIMUM_PROBATIONARY_SALES_FOR_COMMISSION
    else if experience == EXPERIENCED then MINIMUM_PROBATIONARY_SALES_FOR_COMMISSION
    else 0.00
  }

  function BonusRate(experience: int): real
  {
    if experience == PROBATIONARY then BONUS_COMMISSION_FOR_PROBATIONARY_EMPLOYEE_RATE
    else if experience == EXPERIENCED then BONUS_COMMISSION_FOR_EXPERIENCED_EMPLOYEE_RATE
    else 0.0
  }

  function BonusThreshold(experience: int): real
  {
    if experience == PROBATIONARY then MINIMUM_PROBATIONARY_SALES_FOR_BONUS_COMMISSION
    else if experience == EXPERIENCED then MINIMUM_EXPERIENCED_SALES_FOR_BONUS_COMMISSION
    else 0.0
  }

  lemma ProductNonNegative(x: real, y: real)
    requires x >= 0.0 && y >= 0.0
    ensures x * y >= 0.0
  {
  }

  /** The sum of the amounts of a ledger. */
  function TotalSales(ledger: seq<SalesTransaction>): real
  {
    if ledger == [] then 0.0
    else TotalSales(ledger[..|ledger| - 1]) + ledger[|ledger| - 1].transactionAmount
  }

  predicate NonNegativeAmounts(ledger: seq<SalesTransaction>)
  {
    forall i :: 0 <= i < |ledger| ==> ledger[i].transactionAmount >= 0.0
  }

  /** Every category code of the ledger indexes a table of `size` rates. */
  predicate TypesBelow(ledger: seq<SalesTransaction>, size: int)
  {
    forall i :: 0 <= i < |ledger| ==> 0 <= ledger[i].transactionType < size
  }

  /** The accumulators of a pass: the running net sales and the commission. */
  datatype Running = Running(netSales: real, commission: real)

  /** One iteration of the base-commission loop, with its three branches.
      In the already-above branch the amount is SUBTRACTED from netSales. */
  function CommissionStep(r: Running, s: SalesTransaction, threshold: real, table: seq<real>): Running
    requires 0 <= s.transactionType < |table|
  {
    var amount := s.transactionAmount;
    var rate := table[s.transactionType];
    if r.netSales >= threshold then
      Running(r.netSales - amount, r.commission + amount * rate)
    else if r.netSales + amount >= threshold then
      Running(r.netSales + amount, r.commission + (r.netSales + amount - threshold) * rate)
    else
      Running(r.netSales + amount, r.commission)
  }

  /** The base-commission loop over the whole ledger, from zero accumulators. */
  function CommissionPass(ledger: seq<SalesTransaction>, threshold: real, table: seq<real>): Running
    requires TypesBelow(ledger, |table|)
  {
    if ledger == [] then Running(0.0, 0.0)
    else CommissionStep(CommissionPass(ledger[..|ledger| - 1], threshold, table), ledger[|ledger| - 1], threshold, table)
  }

  /** calculateCommission for a tier. */
  function Commission(ledger: seq<SalesTransaction>, experience: int): real
    requires IsTier(experience) && TypesBelow(ledger, 4)
  {
    CommissionPass(ledger, MinimumSales(experience), CommissionTable(experience)).commission
  }

  /** One iteration of the bonus loop. In the already-above branch the bonus
      is OVERWRITTEN with this sale's share instead of being added to. */
  function BonusStep(r: Running, s: SalesTransaction, threshold: real, rate: real): Running
  {
    var amount := s.transactionAmount;
    if r.netSales >= threshold then
      Running(r.netSales + amount, amount * rate)
    else if r.netSales + amount >= threshold then
      Running(r.netSales + amount, r.commission + (r.netSales + amount - threshold) * rate)
    else
      Running(r.netSales + amount, r.commission)
  }

  function BonusPass(ledger: seq<SalesTransaction>, threshold: real, rate: real): Running
  {
    if ledger == [] then Running(0.0, 0.0)
    else BonusStep(BonusPass(ledger[..|ledger| - 1], threshold, rate), ledger[|ledger| - 1], threshold, rate)
  }

  /** calculateBonusCommission for a tier. */
  function BonusCommission(ledger: seq<SalesTransaction>, experience: int): real
  {
    BonusPass(ledger, BonusThreshold(experience), BonusRate(experience)).commission
  }

  // ---------------------------------------------------------------------------
  // Tables

  /** Both tiers get the 2000.00 threshold; the 5000.00 constant is never used. */
  lemma MinimumSalesOfTiers(experience: int)
    requires IsTier(experience)
    ensures MinimumSales(experience) == 2000.00
    ensures MinimumSales(experience) != MINIMUM_EXPERIENCED_SALES_FOR_COMMISSION
  {
  }

  /** Each tier's table has a rate per category, none negative, and every
      probationary rate is zero. */
  lemma RateTables(experience: int)
    requires IsTier(experience)
    ensures |CommissionTable(experience)| == 4
    ensures forall i :: 0 <= i < 4 ==> CommissionTable(experience)[i] >= 0.0
    ensures experience == PROBATIONARY ==> forall i :: 0 <= i < 4 ==> CommissionTable(experience)[i] == 0.0
    ensures experience == EXPERIENCED ==> CommissionTable(experience)[MAINTENANCE_ITEM] == 0.06
  {
  }

  /** The bonus thresholds and rates per tier. */
  lemma BonusParameters(experience: int)
    requires IsTier(experience)
    ensures experience == PROBATIONARY ==> BonusThreshold(experience) == 50000.00 && BonusRate(experience) == 0.005
    ensures experience == EXPERIENCED ==> BonusThreshold(experience) == 100000.00 && BonusRate(experience) == 0.015
  {
  }

  // ---------------------------------------------------------------------------
  // Total sales

  lemma {:induction false} TotalSalesConcat(a: seq<SalesTransaction>, b: seq<SalesTransaction>)
    ensures TotalSales(a + b) == TotalSales(a) + TotalSales(b)
    decreases |b|
  {
    if b == [] {
      assert a + b == a;
    } else {
      var b' := b[..|b| - 1];
      assert (a + b)[..|a + b| - 1] == a + b';
      TotalSalesConcat(a, b');
    }
  }

  /** Appending a sale adds its amount to the total. */
  lemma TotalSalesAppend(ledger: seq<SalesTransaction>, s: SalesTransaction)
    ensures TotalSales(ledger + [s]) == TotalSales(ledger) + s.transactionAmount
  {
    assert (ledger + [s])[..|ledger|] == ledger;
  }

  lemma {:induction false} TotalSalesNonNegative(ledger: seq<SalesTransaction>)
    requires NonNegativeAmounts(ledger)
    ensures TotalSales(ledger) >= 0.0
  {
    if ledger != [] {
      TotalSalesNonNegative(ledger[..|ledger| - 1]);
    }
  }

  // ---------------------------------------------------------------------------
  // The base-commission pass

  lemma CommissionPassAppend(ledger: seq<SalesTransaction>, s: SalesTransaction, threshold: real, table: seq<real>)
    requires TypesBelow(ledger, |table|) && 0 <= s.transactionType < |table|
    ensures TypesBelow(ledger + [s], |table|)
    ensures CommissionPass(ledger + [s], threshold, table)
         == CommissionStep(CommissionPass(ledger, threshold, table), s, threshold, table)
  {
    assert (ledger + [s])[..|ledger|] == ledger;
  }

  /** What one sale contributes, branch by branch: nothing while the running
      total stays below the threshold; exactly the part of the sale above the
      threshold, at the sale's rate, when it straddles; the whole sale at its
      rate once the threshold has been met, which also lowers the running total. */
  lemma CommissionStepBranches(r: Running, s: SalesTransaction, threshold: real, table: seq<real>)
    requires 0 <= s.transactionType < |table|
    ensures var r' := CommissionStep(r, s, threshold, table);
            var a, rate := s.transactionAmount, table[s.transactionType];
            (r.netSales < threshold && r.netSales + a < threshold ==> r' == Running(r.netSales + a, r.commission)) &&
            (r.netSales < threshold <= r.netSales + a ==>
               r' == Running(r.netSales + a, r.commission + (r.netSales + a - threshold) * rate)) &&
            (threshold <= r.netSales ==> r' == Running(r.netSales - a, r.commission + a * rate))
  {
  }

  /** A sale with a non-negative amount and rate never lowers the commission. */
  lemma CommissionStepGrows(r: Running, s: SalesTransaction, threshold: real, table: seq<real>)
    requires 0 <= s.transactionType < |table|
    requires s.transactionAmount >= 0.0 && table[s.transactionType] >= 0.0
    ensures CommissionStep(r, s, threshold, table).commission >= r.commission
  {
    var a, rate := s.transactionAmount, table[s.transactionType];
    if r.netSales >= threshold {
      ProductNonNegative(a, rate);
    } else if r.netSales + a >= threshold {
      ProductNonNegative(r.netSales + a - threshold, rate);
    }
  }

  /** With non-negative amounts and rates the commission is never negative. */
  lemma {:induction false} CommissionNonNegative(ledger: seq<SalesTransaction>, threshold: real, table: seq<real>)
    requires TypesBelow(ledger, |table|) && NonNegativeAmounts(ledger)
    requires forall i :: 0 <= i < |table| ==> table[i] >= 0.0
    ensures CommissionPass(ledger, threshold, table).commission >= 0.0
  {
    if ledger != [] {
      var p, s := ledger[..|ledger| - 1], ledger[|ledger| - 1];
      assert TypesBelow(p, |table|) && NonNegativeAmounts(p);
      CommissionNonNegative(p, threshold, table);
      CommissionStepGrows(CommissionPass(p, threshold, table), s, threshold, table);
    }
  }

  /** A non-negative sale that keeps the running total at or below the
      threshold leaves a zero commission at zero. */
  lemma CommissionStepBelow(r: Running, s: SalesTransaction, threshold: real, table: seq<real>)
    requires 0 <= s.transactionType < |table|
    requires r.commission == 0.0 && s.transactionAmount >= 0.0
    requires r.netSales + s.transactionAmount <= threshold
    ensures CommissionStep(r, s, threshold, table) == Running(r.netSales + s.transactionAmount, 0.0)
  {
    var a := s.transactionAmount;
    if r.netSales >= threshold {
      assert a == 0.0;
    } else if r.netSales + a >= threshold {
      assert r.netSales + a - threshold == 0.0;
    }
  }

  /** If the ledger's total does not exceed the threshold, the running total
      tracks the total exactly and no commission is paid; in particular a
      total exactly at the threshold earns nothing. */
  lemma {:induction false} CommissionZeroUpToThreshold(ledger: seq<SalesTransaction>, threshold: real, table: seq<real>)
    requires TypesBelow(ledger, |table|) && NonNegativeAmounts(ledger)
    requires TotalSales(ledger) <= threshold
    ensures CommissionPass(ledger, threshold, table) == Running(TotalSales(ledger), 0.0)
  {
    if ledger != [] {
      var p, s := ledger[..|ledger| - 1], ledger[|ledger| - 1];
      assert ledger == p + [s];
      assert TypesBelow(p, |table|) && NonNegativeAmounts(p) && s.transactionAmount >= 0.0;
      TotalSalesAppend(p, s);
      CommissionZeroUpToThreshold(p, threshold, table);
      CommissionPassAppend(p, s, threshold, table);
      CommissionStepBelow(CommissionPass(p, threshold, table), s, threshold, table);
    }
  }

  /** A table of zero rates pays no commission, whatever the ledger. */
  lemma {:induction false} ZeroRatesPayNothing(ledger: seq<SalesTransaction>, threshold: real, table: seq<real>)
    requires TypesBelow(ledger, |table|)
    requires forall i :: 0 <= i < |table| ==> table[i] == 0.0
    ensures CommissionPass(ledger, threshold, table).commission == 0.0
  {
    if ledger != [] {
      ZeroRatesPayNothing(ledger[..|ledger| - 1], threshold, table);
    }
  }

  /** calculateCommission: never negative, zero up to the tier's minimum
      sales, and always zero for a probationary employee. */
  lemma CommissionOfTier(ledger: seq<SalesTransaction>, experience: int)
    requires IsTier(experience) && TypesBelow(ledger, 4) && NonNegativeAmounts(ledger)
    ensures Commission(ledger, experience) >= 0.0
    ensures TotalSales(ledger) <= MinimumSales(experience) ==> Commission(ledger, experience) == 0.0
    ensures experience == PROBATIONARY ==> Commission(ledger, experience) == 0.0
  {
    var table := CommissionTable(experience);
    RateTables(experience);
    CommissionNonNegative(ledger, MinimumSales(experience), table);
    if TotalSales(ledger) <= MinimumSales(experience) {
      CommissionZeroUpToThreshold(ledger, MinimumSales(experience), table);
    }
    if experience == PROBATIONARY {
      ZeroRatesPayNothing(ledger, MinimumSales(experience), table);
    }
  }

  // ---------------------------------------------------------------------------
  // The bonus pass

  lemma BonusPassAppend(ledger: seq<SalesTransaction>, s: SalesTransaction, threshold: real, rate: real)
    ensures BonusPass(ledger + [s], threshold, rate) == BonusStep(BonusPass(ledger, threshold, rate), s, threshold, rate)
  {
    assert (ledger + [s])[..|ledger|] == ledger;
  }

  /** What one sale contributes to the bonus, branch by branch: nothing
      while the running total stays below the threshold; the part above the
      threshold when it straddles; and once the threshold has been met, the
      bonus becomes this sale's amount at the rate, replacing what was there. */
  lemma BonusStepBranches(r: Running, s: SalesTransaction, threshold: real, rate: real)
    ensures var r' := BonusStep(r, s, threshold, rate);
            var a := s.transactionAmount;
            (r.netSales < threshold && r.netSales + a < threshold ==> r' == Running(r.netSales + a, r.commission)) &&
            (r.netSales < threshold <= r.netSales + a ==>
               r' == Running(r.netSales + a, r.commission + (r.netSales + a - threshold) * rate)) &&
            (threshold <= r.netSales ==> r' == Running(r.netSales + a, a * rate))
  {
  }

  /** The bonus pass keeps netSales equal to the sales seen so far. */
  lemma {:induction false} BonusNetIsTotal(ledger: seq<SalesTransaction>, threshold: real, rate: real)
    ensures BonusPass(ledger, threshold, rate).netSales == TotalSales(ledger)
  {
    if ledger != [] {
      BonusNetIsTotal(ledger[..|ledger| - 1], threshold, rate);
    }
  }

  /** A non-negative sale that keeps the running total at or below the
      bonus threshold leaves a zero bonus at zero. */
  lemma BonusStepBelow(r: Running, s: SalesTransaction, threshold: real, rate: real)
    requires r.commission == 0.0 && s.transactionAmount >= 0.0
    requires r.netSales + s.transactionAmount <= threshold
    ensures BonusStep(r, s, threshold, rate) == Running(r.netSales + s.transactionAmount, 0.0)
  {
    var a := s.transactionAmount;
    if r.netSales >= threshold {
      assert a == 0.0;
    } else if r.netSales + a >= threshold {
      assert r.netSales + a - threshold == 0.0;
    }
  }

  /** No bonus while the ledger's total does not exceed the bonus threshold. */
  lemma {:induction false} BonusZeroUpToThreshold(ledger: seq<SalesTransaction>, threshold: real, rate: real)
    requires NonNegativeAmounts(ledger)
    requires TotalSales(ledger) <= threshold
    ensures BonusPass(ledger, threshold, rate) == Running(TotalSales(ledger), 0.0)
  {
    if ledger != [] {
      var p, s := ledger[..|ledger| - 1], ledger[|ledger| - 1];
      assert ledger == p + [s];
      assert NonNegativeAmounts(p) && s.transactionAmount >= 0.0;
      TotalSalesAppend(p, s);
      BonusZeroUpToThreshold(p, threshold, rate);
      BonusPassAppend(p, s, threshold, rate);
      BonusStepBelow(BonusPass(p, threshold, rate), s, threshold, rate);
    }
  }

  /** A sale with a non-negative amount keeps a non-negative bonus
      non-negative, in the overwriting branch too. */
  lemma BonusStepNonNegative(r: Running, s: SalesTransaction, threshold: real, rate: real)
    requires r.commission >= 0.0 && s.transactionAmount >= 0.0 && rate >= 0.0
    ensures BonusStep(r, s, threshold, rate).commission >= 0.0
  {
    var a := s.transactionAmount;
    if r.netSales >= threshold {
      ProductNonNegative(a, rate);
    } else if r.netSales + a >= threshold {
      var portion := r.netSales + a - threshold;
      ProductNonNegative(portion, rate);
      assert BonusStep(r, s, threshold, rate).commission == r.commission + portion * rate;
    }
  }

  /** With a non-negative rate and amounts the bonus is never negative. */
  lemma {:induction false} BonusNonNegative(ledger: seq<SalesTransaction>, threshold: real, rate: real)
    requires NonNegativeAmounts(ledger) && rate >= 0.0
    ensures BonusPass(ledger, threshold, rate).commission >= 0.0
  {
    if ledger != [] {
      var p, s := ledger[..|ledger| - 1], ledger[|ledger| - 1];
      assert NonNegativeAmounts(p);
      BonusNonNegative(p, threshold, rate);
      BonusStepNonNegative(BonusPass(p, threshold, rate), s, threshold, rate);
    }
  }

  /** When the sales before the last one already meet the bonus threshold, the
      bonus is the last sale's amount times the rate, whatever came before. */
  lemma BonusLastAboveOverwrites(ledger: seq<SalesTransaction>, s: SalesTransaction, threshold: real, rate: real)
    requires TotalSales(ledger) >= threshold
    ensures BonusPass(ledger + [s], threshold, rate).commission == s.transactionAmount * rate
  {
    BonusNetIsTotal(ledger, threshold, rate);
    BonusPassAppend(ledger, s, threshold, rate);
  }

  /** calculateBonusCommission: never negative and zero up to the tier's bonus
      threshold. */
  lemma BonusOfTier(ledger: seq<SalesTransaction>, experience: int)
    requires IsTier(experience) && NonNegativeAmounts(ledger)
    ensures BonusCommission(ledger, experience) >= 0.0
    ensures TotalSales(ledger) <= BonusThreshold(experience) ==> BonusCommission(ledger, experience) == 0.0
  {
    BonusNonNegative(ledger, BonusThreshold(experience), BonusRate(experience));
    if TotalSales(ledger) <= BonusThreshold(experience) {
      BonusZeroUpToThreshold(ledger, BonusThreshold(experience), BonusRate(experience));
    }
  }
}
