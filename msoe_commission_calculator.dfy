/** The commission calculator of one employee for one month: a ledger of
    sales, the employee's experience tier and first name, the operations that
    validate and update them, and the loops that compute the total, the
    commission and the bonus commission over the ledger. */
module MSOECommission {
  import opened ICommissionCalculator
  import opened JavaStringSplit
  import opened CommissionSpec

  /** The exceptions the calculator throws, one per message. */
  datatype CalcError =
    | ImproperName        // constructor: "Improperly formatted name field."
    | ImproperExperience  // constructor: "Improper employee experience passed in as a parameter."
    | InvalidSalesType    // addSale: "Invalid entry for sales type."
    | InvalidDollarAmount // addSale: "Invalid dollar amount."
    | InvalidExperience   // setEmployeeExperience: "Invalid employee experience."

  datatype Outcome = Pass | Fail(error: CalcError)

  datatype Result<T> = Success(value: T) | Failure(error: CalcError)

  /** The constructor's name test: exactly two whitespace-separated tokens,
      the first longer than two characters, the second at least two long. */
  predicate NameAccepted(employeeName: string)
  {
    var names := Split(employeeName);
    |names| == 2 && |names[0]| > 2 && |names[1]| >= 2
  }

  /** The constructor's validation, name first, then experience. On success
      it yields the first name, the only part of the name that is kept. */
  function CheckConstruction(employeeName: string, employeeExperience: int): (r: Result<string>)
    ensures r.Success? <==> NameAccepted(employeeName) && IsTier(employeeExperience)
    ensures r == Failure(ImproperName) <==> !NameAccepted(employeeName)
    ensures r.Success? ==> r.value == Split(employeeName)[0] && |r.value| > 2 && NoWhitespace(r.value)
  {
    if !NameAccepted(employeeName) then Failure(ImproperName)
    else if !IsTier(employeeExperience) then Failure(ImproperExperience)
    else
      SplitTokens(employeeName);
      Success(Split(employeeName)[0])
  }

  /** addSale's validation: the type test runs first and, because it uses
      `<=` BASIC_ITEM and `>=` CONSULTING_ITEM, accepts only the codes 1 and 2;
      the amount test accepts 0.00 through 100000.00, both ends included. */
  function CheckSale(salesType: int, dollarAmount: real): (r: Outcome)
    ensures r == Pass <==> (salesType == MAINTENANCE_ITEM || salesType == REPLACEMNET_ITEM)
                           && 0.0 <= dollarAmount <= MAX_SALE_AMOUNT
    ensures r == Fail(InvalidSalesType) <==> !(1 <= salesType <= 2)
    ensures r == Fail(InvalidDollarAmount) <==> 1 <= salesType <= 2 && (dollarAmount < 0.0 || dollarAmount > 100000.00)
  {
    if salesType <= BASIC_ITEM || salesType >= CONSULTING_ITEM then Fail(InvalidSalesType)
    else if dollarAmount < 0.00 || dollarAmount > 100000.00 then Fail(InvalidDollarAmount)
    else Pass
  }

  /** A ledger every entry of which addSale accepted. */
  predicate LedgerAccepted(ledger: seq<SalesTransaction>)
  {
    forall i :: 0 <= i < |ledger| ==> CheckSale(ledger[i].transactionType, ledger[i].transactionAmount) == Pass
  }

  /** An accepted ledger indexes the four-entry rate tables and has no
      negative amount. */
  lemma AcceptedLedgerIsWellFormed(ledger: seq<SalesTransaction>)
    requires LedgerAccepted(ledger)
    ensures TypesBelow(ledger, 4) && NonNegativeAmounts(ledger)
  {
    forall i | 0 <= i < |ledger|
      ensures 0 <= ledger[i].transactionType < 4 && ledger[i].transactionAmount >= 0.0
    {
      assert CheckSale(ledger[i].transactionType, ledger[i].transactionAmount) == Pass;
    }
  }

  class MSOECommissionCalculator {
    /** The month's sales, in the order they were added. */
    var transactions: seq<SalesTransaction>
    /** The first token of the employee's name. */
    var employeeName: string
    var employeeExperience: int

    /** The class invariant every operation keeps. */
    ghost predicate Valid()
      reads this
    {
      IsTier(employeeExperience) && LedgerAccepted(transactions) &&
      |employeeName| > 2 && NoWhitespace(employeeName)
    }

    /** Stores already validated fields with an empty ledger; Create is the
        entry point that validates them. */
    constructor (firstName: string, experience: int)
      requires IsTier(experience) && |firstName| > 2 && NoWhitespace(firstName)
      ensures Valid()
      ensures transactions == [] && employeeName == firstName && employeeExperience == experience
    {
      transactions := [];
      employeeName := firstName;
      employeeExperience := experience;
    }

    /** The Java constructor: throws for a malformed name, then for an
        unknown tier; otherwise keeps the first name and the tier. */
    static method Create(employeeName: string, employeeExperience: int)
      returns (r: Result<MSOECommissionCalculator>)
      ensures r.Success? <==> CheckConstruction(employeeName, employeeExperience).Success?
      ensures r.Failure? ==> r.error == CheckConstruction(employeeName, employeeExperience).error
      ensures r.Success? ==> fresh(r.value) && r.value.Valid() && r.value.transactions == []
      ensures r.Success? ==> r.value.employeeName == Split(employeeName)[0]
      ensures r.Success? ==> r.value.employeeExperience == employeeExperience
    {
      var checked := CheckConstruction(employeeName, employeeExperience);
      if checked.Failure? {
        return Failure(checked.error);
      }
      var c := new MSOECommissionCalculator(checked.value, employeeExperience);
      return Success(c);
    }

    /** addSale: appends the sale when it passes validation, otherwise throws
        and leaves everything unchanged. */
    method AddSale(salesType: int, dollarAmount: real) returns (outcome: Outcome)
      requires Valid()
      modifies this
      ensures Valid()
      ensures outcome == CheckSale(salesType, dollarAmount)
      ensures transactions == if outcome == Pass
                              then old(transactions) + [SalesTransaction(salesType, dollarAmount)]
                              else old(transactions)
      ensures employeeName == old(employeeName) && employeeExperience == old(employeeExperience)
    {
      if salesType <= BASIC_ITEM || salesType >= CONSULTING_ITEM {
        return Fail(InvalidSalesType);
      }
      if dollarAmount < 0.00 || dollarAmount > 100000.00 {
        return Fail(InvalidDollarAmount);
      }
      var s := SalesTransaction(salesType, dollarAmount);
      transactions := transactions + [s];
      outcome := Pass;
    }

    /** getTotalSales: the sum of the ledger's amounts. */
    method GetTotalSales() returns (totalSales: real)
      ensures totalSales == TotalSales(transactions)
    {
      totalSales := 0.0;
      for i := 0 to |transactions|
        invariant totalSales == TotalSales(transactions[..i])
      {
        assert transactions[..i] + [transactions[i]] == transactions[..i + 1];
        TotalSalesAppend(transactions[..i], transactions[i]);
        totalSales := totalSales + transactions[i].transactionAmount;
      }
      assert transactions[..|transactions|] == transactions;
    }

    /** setEmployeeExperience: accepts exactly the two tier codes; otherwise
        throws and keeps the old tier. */
    method SetEmployeeExperience(experience: int) returns (outcome: Outcome)
      requires Valid()
      modifies this
      ensures Valid()
      ensures outcome == Pass <==> IsTier(experience)
      ensures outcome != Pass ==> outcome == Fail(InvalidExperience)
      ensures employeeExperience == if outcome == Pass then experience else old(employeeExperience)
      ensures transactions == old(transactions) && employeeName == old(employeeName)
    {
      if experience == EXPERIENCED || experience == PROBATIONARY {
        employeeExperience := experience;
        outcome := Pass;
      } else {
        outcome := Fail(InvalidExperience);
      }
    }

    /** getMinimumSales: 2000.00 for either tier. */
    function GetMinimumSales(): (m: real)
      reads this
      requires Valid()
      ensures m == MINIMUM_PROBATIONARY_SALES_FOR_COMMISSION
      ensures m == MinimumSales(employeeExperience)
    {
      MinimumSales(employeeExperience)
    }

    /** calculateCommission: the base-commission pass over the ledger with
        the tier's rate table and the threshold of getMinimumSales. */
    method CalculateCommission() returns (commission: real)
      requires Valid()
      ensures TypesBelow(transactions, 4)
      ensures commission == Commission(transactions, employeeExperience)
    {
      AcceptedLedgerIsWellFormed(transactions);
      var commissionTable := CommissionTable(employeeExperience);
      var minimumSalesForCommission := GetMinimumSales();
      RateTables(employeeExperience);
      assert TypesBelow(transactions, |commissionTable|);
      var netSales := 0.00;
      commission := 0.00;
      for i := 0 to |transactions|
        invariant Running(netSales, commission) == CommissionPass(transactions[..i], minimumSalesForCommission, commissionTable)
      {
        var s := transactions[i];
        ghost var before := Running(netSales, commission);
        assert transactions[..i] + [s] == transactions[..i + 1];
        CommissionPassAppend(transactions[..i], s, minimumSalesForCommission, commissionTable);
        CommissionStepBranches(before, s, minimumSalesForCommission, commissionTable);
        if netSales >= minimumSalesForCommission {
          netSales := netSales - s.transactionAmount;
          commission := commission + s.transactionAmount * commissionTable[s.transactionType];
        } else if netSales + s.transactionAmount >= minimumSalesForCommission {
          var commissionableAmount := (netSales + s.transactionAmount) - minimumSalesForCommission;
          netSales := netSales + s.transactionAmount;
          commission := commission + commissionableAmount * commissionTable[s.transactionType];
        } else {
          netSales := netSales + s.transactionAmount;
        }
      }
      assert transactions[..|transactions|] == transactions;
    }

    /** calculateBonusCommission: the bonus pass over the ledger with the
        tier's bonus threshold and flat bonus rate. */
    method CalculateBonusCommission() returns (bonusCommission: real)
      requires Valid()
      ensures bonusCommission == BonusCommission(transactions, employeeExperience)
    {
      AcceptedLedgerIsWellFormed(transactions);
      var bonusCommissionRate := BonusRate(employeeExperience);
      var minimumSalesForBonusCommission := BonusThreshold(employeeExperience);
      var netSales := 0.00;
      bonusCommission := 0.00;
      for i := 0 to |transactions|
        invariant Running(netSales, bonusCommission) == BonusPass(transactions[..i], minimumSalesForBonusCommission, bonusCommissionRate)
      {
        var s := transactions[i];
        ghost var before := Running(netSales, bonusCommission);
        assert transactions[..i] + [s] == transactions[..i + 1];
        BonusPassAppend(transactions[..i], s, minimumSalesForBonusCommission, bonusCommissionRate);
        BonusStepBranches(before, s, minimumSalesForBonusCommission, bonusCommissionRate);
        if netSales >= minimumSalesForBonusCommission {
          netSales := netSales + s.transactionAmount;
          bonusCommission := s.transactionAmount * bonusCommissionRate;
        } else if netSales + s.transactionAmount >= minimumSalesForBonusCommission {
          var commissionableAmount := (netSales + s.transactionAmount) - minimumSalesForBonusCommission;
          netSales := netSales + s.transactionAmount;
          bonusCommission := bonusCommission + commissionableAmount * bonusCommissionRate;
        } else {
          netSales := netSales + s.transactionAmount;
        }
      }
      assert transactions[..|transactions|] == transactions;
    }

    /** getName: the stored first name, free of whitespace and longer than
        two characters. */
    function GetName(): (name: string)
      reads this
      requires Valid()
      ensures name == employeeName
      ensures |name| > 2 && NoWhitespace(name)
    {
      employeeName
    }

    /** getEmployeeExperience: always one of the two tier codes. */
    function GetEmployeeExperience(): (experience: int)
      reads this
      requires Valid()
      ensures experience == employeeExperience
      ensures experience == PROBATIONARY || experience == EXPERIENCED
    {
      employeeExperience
    }
  }
}
