/**
 * The offer decision of the purchase approval service: normalise the
 * request into the allowed ranges, score it against the customer's
 * financial factor, and approve the request itself, the capped maximum for
 * the requested period, or the nearest later period with a valid amount.
 *
 * Amounts are exact reals and the financial factor and periods unbounded
 * integers, so double rounding and 32-bit overflow are not modelled.
 */
module PurchaseApproval {
  import opened Wrappers
  import opened Dto
  import ProfileStore

  const MinAmount: real := 200.0
  const MaxAmount: real := 5000.0
  const MinPeriod: int := 6
  const MaxPeriod: int := 24

  predicate InPeriodRange(period: int) {
    MinPeriod <= period <= MaxPeriod
  }

  /** An amount the service is willing to grant. */
  predicate IsValidAmount(amount: real) {
    MinAmount <= amount && amount <= MaxAmount
  }

  /** The bounds of the two ranges, and that each range is non-empty. */
  lemma RangeConstants()
    ensures MinAmount == 200.0 && MaxAmount == 5000.0 && MinAmount < MaxAmount
    ensures MinPeriod == 6 && MaxPeriod == 24 && MinPeriod < MaxPeriod
  {
  }

  /**
   * A valid amount lies in the closed interval [200, 5000]; these are
   * exactly the amounts clamping leaves unchanged, and all are positive,
   * so the approval score can divide by them.
   */
  lemma ValidAmountIsClosedInterval(amount: real)
    ensures IsValidAmount(amount) <==> 200.0 <= amount <= 5000.0
    ensures IsValidAmount(amount) <==> SanitizeRequestAmount(amount) == amount
    ensures IsValidAmount(amount) ==> amount > 0.0
  {
  }

  // ---------------------------------------------------------------------
  // Range policy: out-of-range requests are clamped, never rejected.

  /** The requested amount saturated to [MinAmount, MaxAmount]. */
  function SanitizeRequestAmount(requested: real): (amount: real)
    ensures IsValidAmount(amount)
    ensures IsValidAmount(requested) ==> amount == requested
    ensures requested < MinAmount ==> amount == MinAmount
    ensures requested > MaxAmount ==> amount == MaxAmount
  {
    var capped := if requested <= MaxAmount then requested else MaxAmount;
    if capped >= MinAmount then capped else MinAmount
  }

  /** The requested period saturated to [MinPeriod, MaxPeriod]. */
  function SanitizeRequestPeriod(requested: int): (period: int)
    ensures InPeriodRange(period)
    ensures InPeriodRange(requested) ==> period == requested
    ensures requested < MinPeriod ==> period == MinPeriod
    ensures requested > MaxPeriod ==> period == MaxPeriod
  {
    var capped := if requested <= MaxPeriod then requested else MaxPeriod;
    if capped >= MinPeriod then capped else MinPeriod
  }

  /** Clamping twice is clamping once, for amounts and for periods. */
  lemma SanitizeIdempotent(amount: real, period: int)
    ensures SanitizeRequestAmount(SanitizeRequestAmount(amount)) == SanitizeRequestAmount(amount)
    ensures SanitizeRequestPeriod(SanitizeRequestPeriod(period)) == SanitizeRequestPeriod(period)
  {
  }

  // ---------------------------------------------------------------------
  // Approval score.

  /** (financial factor / amount) * months, in real division. */
  function ApprovalScore(financialFactor: int, amount: real, months: int): (score: real)
    requires amount != 0.0
    ensures score * amount == (financialFactor * months) as real
  {
    var perEuro := financialFactor as real / amount;
    assert perEuro * amount == financialFactor as real;
    assert (financialFactor * months) as real == financialFactor as real * months as real;
    perEuro * months as real
  }

  /**
   * The score is 1 exactly when the amount is financialFactor * months, the
   * most the customer qualifies for over that period; above 1 the amount is
   * below that maximum, below 1 it is above.
   */
  lemma ApprovalScoreMeaning(financialFactor: int, amount: real, months: int)
    requires amount > 0.0
    ensures ApprovalScore(financialFactor, amount, months) == 1.0 <==> (financialFactor * months) as real == amount
    ensures ApprovalScore(financialFactor, amount, months) > 1.0 <==> (financialFactor * months) as real > amount
    ensures ApprovalScore(financialFactor, amount, months) < 1.0 <==> (financialFactor * months) as real < amount
  {
    var score := ApprovalScore(financialFactor, amount, months);
    var capacity := (financialFactor * months) as real;
    assert capacity - amount == (score - 1.0) * amount;
    ProductSign(score - 1.0, amount);
  }

  /** The sign of d * a, for a positive a, is the sign of d. */
  lemma ProductSign(d: real, a: real)
    requires a > 0.0
    ensures d > 0.0 <==> d * a > 0.0
    ensures d < 0.0 <==> d * a < 0.0
  {
  }

  // ---------------------------------------------------------------------
  // Offer calculator.

  /** The largest amount for `months`: financialFactor * months capped at MaxAmount. */
  function MaxAmountForPeriod(financialFactor: int, months: int): (amount: real)
    ensures amount <= MaxAmount && amount <= (financialFactor * months) as real
    ensures amount == MaxAmount || amount == (financialFactor * months) as real
  {
    var uncapped := (financialFactor * months) as real;
    if uncapped <= MaxAmount then uncapped else MaxAmount
  }

  /** Whenever financialFactor * months reaches MaxAmount the offer is exactly MaxAmount. */
  lemma MaxAmountCapped(financialFactor: int, months: int)
    requires (financialFactor * months) as real >= MaxAmount
    ensures MaxAmountForPeriod(financialFactor, months) == MaxAmount
  {
  }

  /** A capped amount is valid exactly when financialFactor * months reaches MinAmount. */
  lemma CappedAmountValid(financialFactor: int, months: int)
    ensures IsValidAmount(MaxAmountForPeriod(financialFactor, months)) <==> financialFactor * months >= 200
  {
  }

  /** For a non-negative factor a longer period never lowers the capped amount. */
  lemma MaxAmountMonotone(financialFactor: int, m1: int, m2: int)
    requires 0 <= financialFactor && m1 <= m2
    ensures MaxAmountForPeriod(financialFactor, m1) <= MaxAmountForPeriod(financialFactor, m2)
  {
  }

  lemma MulMonotone(factor: int, m1: int, m2: int)
    requires 0 <= factor && m1 <= m2
    ensures factor * m1 <= factor * m2
  {
  }

  // ---------------------------------------------------------------------
  // Nearest-period search.

  /** Whether `months` yields an amount the service may offer. */
  predicate Qualifies(financialFactor: int, months: int) {
    IsValidAmount(MaxAmountForPeriod(financialFactor, months))
  }

  /**
   * The offer for the first period from `months` up to MaxPeriod whose
   * capped amount is valid, or None when there is no such period.
   */
  function NearestFrom(financialFactor: int, months: int): (r: Option<PurchaseDetails>)
    decreases MaxPeriod + 1 - months
    ensures r.Some? ==>
      months <= r.value.period <= MaxPeriod &&
      r.value.amount == MaxAmountForPeriod(financialFactor, r.value.period) &&
      IsValidAmount(r.value.amount) &&
      forall m :: months <= m < r.value.period ==> !Qualifies(financialFactor, m)
    ensures r.None? ==> forall m :: months <= m <= MaxPeriod ==> !Qualifies(financialFactor, m)
  {
    if months > MaxPeriod then None
    else if Qualifies(financialFactor, months) then
      Some(PurchaseDetails(MaxAmountForPeriod(financialFactor, months), months))
    else
      NearestFrom(financialFactor, months + 1)
  }

  /**
   * Scans the periods after `period`, upwards to MaxPeriod, and returns the
   * offer for the first one whose capped amount is valid.
   */
  method FindNearestValidPurchaseDetails(financialFactor: int, period: int) returns (r: Option<PurchaseDetails>)
    ensures r == NearestFrom(financialFactor, period + 1)
    ensures r.Some? ==>
      period < r.value.period <= MaxPeriod &&
      r.value.amount == MaxAmountForPeriod(financialFactor, r.value.period) &&
      IsValidAmount(r.value.amount) &&
      forall m :: period < m < r.value.period ==> !Qualifies(financialFactor, m)
    ensures r.None? ==> forall m :: period < m <= MaxPeriod ==> !Qualifies(financialFactor, m)
  {
    var months := period + 1;
    while months <= MaxPeriod
      invariant period < months
      invariant NearestFrom(financialFactor, months) == NearestFrom(financialFactor, period + 1)
      decreases MaxPeriod + 1 - months
    {
      var amount := MaxAmountForPeriod(financialFactor, months);
      if IsValidAmount(amount) {
        return Some(PurchaseDetails(amount, months));
      }
      months := months + 1;
    }
    return None;
  }

  // ---------------------------------------------------------------------
  // Decision.

  /** The decision for `request`, with `profiles` as the profile store. */
  function Evaluate(profiles: map<string, CustomerProfile>, request: PurchaseRequest): (r: PurchaseResponse)
    ensures r.approved <==> r.details.Some?
    ensures r.approved <==> !r.message.IsDenial()
    ensures r.message.NearestOffer? ==> r.details == Some(PurchaseDetails(r.message.offered, r.message.months))
    ensures r.message.MaximumOffer? ==> r.details.Some? && r.details.value.amount == r.message.offered
    ensures r.approved && !r.message.SameAsRequested? ==>
      IsValidAmount(r.details.value.amount) && InPeriodRange(r.details.value.period)
  {
    match ProfileStore.GetCustomerProfile(profiles, request.personalId)
    case None => PurchaseResponse(false, None, CustomerNotFound)
    case Some(profile) =>
      if profile.flagged then
        PurchaseResponse(false, None, CustomerFlagged)
      else
        var amount := SanitizeRequestAmount(request.details.amount);
        var period := SanitizeRequestPeriod(request.details.period);
        var financialFactor := profile.financialFactor;
        if ApprovalScore(financialFactor, amount, period) == 1.0 then
          PurchaseResponse(true, Some(request.details), SameAsRequested(amount))
        else
          var maxAmount := MaxAmountForPeriod(financialFactor, period);
          if maxAmount >= MinAmount then
            PurchaseResponse(true, Some(PurchaseDetails(maxAmount, period)), MaximumOffer(maxAmount))
          else
            match NearestFrom(financialFactor, period + 1)
            case Some(offer) => PurchaseResponse(true, Some(offer), NearestOffer(offer.amount, offer.period))
            case None => PurchaseResponse(false, None, NoValidOffer)
  }

  /** The service entry point: looks the customer up and runs the search loop. */
  method EvaluatePurchase(profiles: map<string, CustomerProfile>, request: PurchaseRequest) returns (r: PurchaseResponse)
    ensures r == Evaluate(profiles, request)
  {
    var profileOption := ProfileStore.GetCustomerProfile(profiles, request.personalId);
    if profileOption.None? {
      return PurchaseResponse(false, None, CustomerNotFound);
    }
    if profileOption.value.flagged {
      return PurchaseResponse(false, None, CustomerFlagged);
    }
    var amount := SanitizeRequestAmount(request.details.amount);
    var period := SanitizeRequestPeriod(request.details.period);
    var financialFactor := profileOption.value.financialFactor;
    var approvalScore := ApprovalScore(financialFactor, amount, period);
    if approvalScore == 1.0 {
      return PurchaseResponse(true, Some(request.details), SameAsRequested(amount));
    }
    var maxAmount := MaxAmountForPeriod(financialFactor, period);
    if maxAmount >= MinAmount {
      return PurchaseResponse(true, Some(PurchaseDetails(maxAmount, period)), MaximumOffer(maxAmount));
    }
    var offer := FindNearestValidPurchaseDetails(financialFactor, period);
    if offer.Some? {
      return PurchaseResponse(true, offer, NearestOffer(offer.value.amount, offer.value.period));
    }
    return PurchaseResponse(false, None, NoValidOffer);
  }

  // ---------------------------------------------------------------------
  // Properties of the decision.

  /** An unknown customer is denied before anything else is looked at. */
  lemma UnknownCustomerDenied(profiles: map<string, CustomerProfile>, request: PurchaseRequest)
    requires request.personalId !in profiles
    ensures Evaluate(profiles, request) == PurchaseResponse(false, None, CustomerNotFound)
  {
  }

  /** A flagged customer is denied whatever the request and the factor. */
  lemma FlaggedCustomerDenied(profiles: map<string, CustomerProfile>, request: PurchaseRequest)
    requires request.personalId in profiles && profiles[request.personalId].flagged
    ensures Evaluate(profiles, request) == PurchaseResponse(false, None, CustomerFlagged)
  {
  }

  /**
   * When financialFactor * period equals the amount, both clamped, the
   * request is approved and its details are echoed as they were sent.
   */
  lemma ExactMatchEchoesRequest(profiles: map<string, CustomerProfile>, request: PurchaseRequest)
    requires request.personalId in profiles && !profiles[request.personalId].flagged
    requires var amount := SanitizeRequestAmount(request.details.amount);
             var period := SanitizeRequestPeriod(request.details.period);
             (profiles[request.personalId].financialFactor * period) as real == amount
    ensures Evaluate(profiles, request) ==
      PurchaseResponse(true, Some(request.details), SameAsRequested(SanitizeRequestAmount(request.details.amount)))
  {
    ApprovalScoreMeaning(profiles[request.personalId].financialFactor,
      SanitizeRequestAmount(request.details.amount), SanitizeRequestPeriod(request.details.period));
  }

  /**
   * When the request is not the exact maximum but the capped maximum at the
   * clamped period is at least MinAmount, that amount is offered for the
   * clamped period itself.
   */
  lemma CappedOfferAtRequestedPeriod(profiles: map<string, CustomerProfile>, request: PurchaseRequest)
    requires request.personalId in profiles && !profiles[request.personalId].flagged
    requires var amount := SanitizeRequestAmount(request.details.amount);
             var period := SanitizeRequestPeriod(request.details.period);
             var financialFactor := profiles[request.personalId].financialFactor;
             (financialFactor * period) as real != amount && MaxAmountForPeriod(financialFactor, period) >= MinAmount
    ensures var period := SanitizeRequestPeriod(request.details.period);
            var maxAmount := MaxAmountForPeriod(profiles[request.personalId].financialFactor, period);
            Evaluate(profiles, request) ==
              PurchaseResponse(true, Some(PurchaseDetails(maxAmount, period)), MaximumOffer(maxAmount))
  {
  }

  /**
   * When financialFactor * period (clamped) is below MinAmount, the answer
   * comes from the search: the offer is for the least period m, from the
   * clamped period on, with financialFactor * m >= 200, at the capped amount
   * for m; if there is none up to MaxPeriod the request is denied.
   */
  lemma NearestOfferWhenTooSmall(profiles: map<string, CustomerProfile>, request: PurchaseRequest)
    requires request.personalId in profiles && !profiles[request.personalId].flagged
    requires profiles[request.personalId].financialFactor * SanitizeRequestPeriod(request.details.period) < 200
    ensures var r := Evaluate(profiles, request);
            var period := SanitizeRequestPeriod(request.details.period);
            var financialFactor := profiles[request.personalId].financialFactor;
            r.details == NearestFrom(financialFactor, period + 1) &&
            (r.approved ==>
              r.message == NearestOffer(r.details.value.amount, r.details.value.period) &&
              period < r.details.value.period <= MaxPeriod &&
              financialFactor * r.details.value.period >= 200 &&
              r.details.value.amount == MaxAmountForPeriod(financialFactor, r.details.value.period) &&
              forall m :: period <= m < r.details.value.period ==> financialFactor * m < 200) &&
            (!r.approved ==>
              r.message == NoValidOffer &&
              forall m :: period <= m <= MaxPeriod ==> financialFactor * m < 200)
  {
    var financialFactor := profiles[request.personalId].financialFactor;
    var amount := SanitizeRequestAmount(request.details.amount);
    var period := SanitizeRequestPeriod(request.details.period);
    ApprovalScoreMeaning(financialFactor, amount, period);
    var nearest := NearestFrom(financialFactor, period + 1);
    var r := Evaluate(profiles, request);
    assert r.details == nearest;
    if nearest.Some? {
      var found := nearest.value.period;
      CappedAmountValid(financialFactor, found);
      forall m | period <= m < found ensures financialFactor * m < 200 {
        if m > period {
          assert !Qualifies(financialFactor, m);
          CappedAmountValid(financialFactor, m);
        }
      }
    } else {
      forall m | period <= m <= MaxPeriod ensures financialFactor * m < 200 {
        if m > period {
          assert !Qualifies(financialFactor, m);
          CappedAmountValid(financialFactor, m);
        }
      }
    }
  }

  /**
   * From a positive period the search finds an offer exactly when there is
   * a later period left and the factor over MaxPeriod months reaches 200.
   */
  lemma NearestFoundExactly(financialFactor: int, period: int)
    requires 0 < period
    ensures NearestFrom(financialFactor, period + 1).Some? <==>
      period < MaxPeriod && financialFactor * MaxPeriod >= 200
  {
    var nearest := NearestFrom(financialFactor, period + 1);
    if period < MaxPeriod && financialFactor * MaxPeriod >= 200 {
      CappedAmountValid(financialFactor, MaxPeriod);
      assert Qualifies(financialFactor, MaxPeriod);
    }
    if nearest.Some? {
      var found := nearest.value.period;
      CappedAmountValid(financialFactor, found);
      if financialFactor >= 0 {
        MaxAmountMonotone(financialFactor, found, MaxPeriod);
        CappedAmountValid(financialFactor, MaxPeriod);
      } else {
        NegativeFactorNeverQualifies(financialFactor, found);
      }
    }
  }

  /** A negative factor over a positive period gives a negative amount. */
  lemma NegativeFactorNeverQualifies(financialFactor: int, months: int)
    requires financialFactor < 0 && 0 < months
    ensures financialFactor * months < 0
  {
  }

  /**
   * A known, unflagged customer gets an offer exactly when their factor over
   * the longest period reaches MinAmount, whatever they asked for;
   * otherwise the answer is "No valid offer found.".
   */
  lemma ApprovedExactlyWhenLongestPeriodSuffices(profiles: map<string, CustomerProfile>, request: PurchaseRequest)
    requires request.personalId in profiles && !profiles[request.personalId].flagged
    ensures var r := Evaluate(profiles, request);
            (r.approved <==> profiles[request.personalId].financialFactor * MaxPeriod >= 200) &&
            (!r.approved ==> r.message == NoValidOffer)
  {
    var financialFactor := profiles[request.personalId].financialFactor;
    var amount := SanitizeRequestAmount(request.details.amount);
    var period := SanitizeRequestPeriod(request.details.period);
    ApprovalScoreMeaning(financialFactor, amount, period);
    CappedAmountValid(financialFactor, period);
    NearestFoundExactly(financialFactor, period);
    if financialFactor * period >= 200 {
      if financialFactor >= 0 {
        MulMonotone(financialFactor, period, MaxPeriod);
      } else {
        NegativeFactorNeverQualifies(financialFactor, period);
      }
    }
  }

  /** A request inside both ranges only ever receives an offer inside both ranges. */
  lemma InRangeRequestGetsInRangeOffer(profiles: map<string, CustomerProfile>, request: PurchaseRequest)
    requires IsValidAmount(request.details.amount) && InPeriodRange(request.details.period)
    ensures var r := Evaluate(profiles, request);
            r.approved ==> IsValidAmount(r.details.value.amount) && InPeriodRange(r.details.value.period)
  {
  }

  /**
   * The exact-match branch echoes the raw request, so an out-of-range request
   * can be approved with an amount below MinAmount: factor 25 and a request
   * of 50 over 8 months clamp to 200 over 8 months, which scores exactly 1.
   */
  lemma ExactMatchCanEchoOutOfRangeAmount()
    ensures var request := PurchaseRequest("c", PurchaseDetails(50.0, 8));
            var r := Evaluate(map["c" := CustomerProfile(false, 25)], request);
            r.approved && r.details == Some(PurchaseDetails(50.0, 8)) && r.details.value.amount < MinAmount
  {
  }
}
