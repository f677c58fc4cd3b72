/** The constants of the commission-calculator interface: the two experience
    tiers and the four sale categories, with the validity tests the interface
    documents for them. */
module ICommissionCalculator {

  /** Experience tier codes. */
  const PROBATIONARY: int := 0
  const EXPERIENCED: int := 1

  /** Sale category codes (the interface spells the third one REPLACEMNET). */
  const BASIC_ITEM: int := 0
  const MAINTENANCE_ITEM: int := 1
  const REPLACEMNET_ITEM: int := 2
  const CONSULTING_ITEM: int := 3

  /** The upper bound on a single sale that the interface documents. */
  const MAX_SALE_AMOUNT: real := 100000.00

  /** A tier code the interface names: PROBATIONARY or EXPERIENCED. */
  predicate IsTier(experience: int)
  {
    experience == PROBATIONARY || experience == EXPERIENCED
  }

  /** A sale category the interface lists. */
  predicate IsCategory(salesType: int)
  {
    salesType == BASIC_ITEM || salesType == MAINTENANCE_ITEM ||
    salesType == REPLACEMNET_ITEM || salesType == CONSULTING_ITEM
  }

  /** The two tiers are distinct and are exactly the codes 0 and 1. */
  lemma TierCodes(experience: int)
    ensures PROBATIONARY != EXPERIENCED
    ensures IsTier(experience) <==> 0 <= experience <= 1
  {
  }

  /** The four categories are the codes 0 to 3, in the listed order. */
  lemma CategoryCodes(salesType: int)
    ensures BASIC_ITEM < MAINTENANCE_ITEM < REPLACEMNET_ITEM < CONSULTING_ITEM
    ensures IsCategory(salesType) <==> 0 <= salesType <= 3
  {
  }
}
