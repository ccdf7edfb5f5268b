/**
 * The service's unit-test scenarios, stated as facts about the decision.
 * Each test stubs the profile lookup with one profile for any identifier;
 * here the store maps the request's identifier to that profile.
 */
module PurchaseApprovalTests {
  import opened Wrappers
  import opened Dto
  import opened PurchaseApproval

  const IntMax: int := 2147483647

  /** The decision when the store holds `profile` for the requesting customer. */
  function Decide(profile: CustomerProfile, personalId: string, amount: real, period: int): PurchaseResponse {
    Evaluate(map[personalId := profile], PurchaseRequest(personalId, PurchaseDetails(amount, period)))
  }

  lemma FlaggedCustomerIsDenied()
    ensures Decide(CustomerProfile(true, -1), "12345678901", 1000.0, 12) == PurchaseResponse(false, None, CustomerFlagged)
    ensures FixedText(CustomerFlagged) == "Customer is flagged."
  {
  }

  /** 100 * 24 == 2400: the request is the maximum and is echoed. */
  lemma HighestValidRequestIsEchoed()
    ensures Decide(CustomerProfile(false, 100), "12345678923", 2400.0, 24) ==
      PurchaseResponse(true, Some(PurchaseDetails(2400.0, 24)), SameAsRequested(2400.0))
  {
  }

  /** 800 over 12 months is below the maximum 100 * 12 == 1200, which is offered. */
  lemma LowerRequestGetsHighest()
    ensures Decide(CustomerProfile(false, 100), "12345678923", 800.0, 12) ==
      PurchaseResponse(true, Some(PurchaseDetails(1200.0, 12)), MaximumOffer(1200.0))
  {
  }

  /** 15 * 6 == 90 is too little; 15 * 14 == 210 is the first valid amount. */
  lemma TooSmallAmountAdjustsPeriod()
    ensures Decide(CustomerProfile(false, 15), "12345678912", 50.0, 6) ==
      PurchaseResponse(true, Some(PurchaseDetails(210.0, 14)), NearestOffer(210.0, 14))
  {
  }

  /** 5 * 24 == 120 stays below 200 for every period. */
  lemma NoValidOfferIsDenied()
    ensures Decide(CustomerProfile(false, 5), "12345678912", 50.0, 1) == PurchaseResponse(false, None, NoValidOffer)
  {
  }

  /** The largest int request clamps to 5000 over 24 months; 500 * 24 caps at 5000. */
  lemma LargestRequestIsCapped()
    ensures Decide(CustomerProfile(false, 500), "12345678934", IntMax as real, IntMax) ==
      PurchaseResponse(true, Some(PurchaseDetails(5000.0, 24)), MaximumOffer(5000.0))
  {
  }

  /** The most negative int request clamps to 200 over 6 months; 100 * 6 == 600 is offered. */
  lemma SmallestRequestIsClamped()
    ensures Decide(CustomerProfile(false, 100), "12345678923", -IntMax as real, -IntMax) ==
      PurchaseResponse(true, Some(PurchaseDetails(600.0, 6)), MaximumOffer(600.0))
  {
  }

  lemma UnknownCustomerIsDenied()
    ensures Evaluate(map[], PurchaseRequest("99999999999", PurchaseDetails(1000.0, 12))) ==
      PurchaseResponse(false, None, CustomerNotFound)
    ensures FixedText(CustomerNotFound) == "Customer is not found."
  {
  }
}
