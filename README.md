# Purchase approval: a verified model of the offer decision

This project models the offer decision of the inbank purchase approval
service. Given the customer's risk profile and a requested amount and period,
the service decides whether it can finance the purchase and on what terms:

1. an unknown customer is denied, then a flagged customer is denied;
2. the amount is clamped to [200, 5000] euros and the period to [6, 24] months;
3. the approval score `(financialFactor / amount) * period` is computed;
4. a score of exactly 1 approves the request as it was sent;
5. otherwise the maximum `min(financialFactor * period, 5000)` is offered for
   the clamped period when it is at least 200;
6. otherwise the periods after the clamped one are scanned upwards to 24, and
   the first with a valid capped amount is offered;
7. if none is found the request is denied with "No valid offer found.".

Modules:

- `Wrappers` (wrappers.dfy): `Option`.
- `Dto` (dto.dfy): `CustomerProfile`, `PurchaseDetails`, `PurchaseRequest`,
  `PurchaseResponse` and `Message`. `Message` is a tag for the reason of the
  decision. The three offer tags carry the numbers that the service formats
  into its text. `FixedText` gives the literal text of each tag.
- `ProfileStore` (profile_store.dfy): the profile lookup over a
  `map<string, CustomerProfile>` that is passed in.
- `PurchaseApproval` (purchase_approval.dfy): the constants, the clamping
  functions, the score, the capped maximum, and the nearest-period search.
  The search is a method with a `while` loop, like the Java `for` loop with
  its early return. It is proved equal to the recursive function
  `NearestFrom`. `NearestFrom`'s contract says its result is the first
  qualifying period, or none. The decision is the function `Evaluate` and the
  method `EvaluatePurchase`, which calls the search loop and is proved equal to
  `Evaluate`. The lemmas about the decision are stated over `Evaluate`.
- `PurchaseApprovalTests` (purchase_approval_tests.dfy): the unit-test
  scenarios stated as lemmas about `Evaluate`.

Numbers: amounts are exact `real`s; the financial factor and periods are
unbounded `int`s. The score test `approvalScore == 1` is exact real equality.
Because the clamped amount is positive, it holds exactly when
`financialFactor * period == amount` (`ApprovalScoreMeaning`).

Behaviour worth knowing:

- Out-of-range requests are clamped, never rejected. No request is denied
  for its amount or period alone.
- Approved offers lie in [200, 5000] and [6, 24], except in the exact-match
  branch (server/src/main/java/inbank/task/service/PurchaseApprovalService.java:49-51), which returns the request's raw details, not the
  clamped ones. So a request outside the ranges can be approved as sent.
  For example, factor 25 with a request of 50 over 8 months is approved with
  amount 50 (`ExactMatchCanEchoOutOfRangeAmount`). The bound holds for every
  other branch, and for every request that is already within range
  (`Evaluate`, `InRangeRequestGetsInRangeOffer`).
- The exact-match message carries the clamped amount while the details carry
  the raw one; `SameAsRequested` keeps the clamped amount, as the code does.

## Model

| member | source | states |
|---|---|---|
| `Dto.DenialTextsDistinct` | server/src/main/java/inbank/task/service/PurchaseApprovalService.java:37-67 | the three denial messages ("Customer is not found.", "Customer is flagged.", "No valid offer found.") have pairwise different texts |
| `ProfileStore.GetCustomerProfile` | server/src/main/java/inbank/task/dao/CustomerProfileDao.java:18-20 | the lookup is empty exactly when the identifier is not in the store, and otherwise gives the stored profile |
| `PurchaseApproval.RangeConstants` | server/src/main/java/inbank/task/service/PurchaseApprovalService.java:13-16 | the amount range is [200, 5000] and the period range is [6, 24], each with its lower bound below its upper bound |
| `PurchaseApproval.ValidAmountIsClosedInterval` | server/src/main/java/inbank/task/service/PurchaseApprovalService.java:134-136 | `IsValidAmount` is the closed interval [200, 5000]; it holds exactly for the amounts clamping leaves unchanged, and only for positive amounts (`CappedAmountValid` ties it to financialFactor * months >= 200) |
| `PurchaseApproval.SanitizeRequestAmount` | server/src/main/java/inbank/task/service/PurchaseApprovalService.java:80-82 | the amount always ends up in [200, 5000]; an in-range amount is unchanged; one below goes to 200, one above to 5000 |
| `PurchaseApproval.SanitizeRequestPeriod` | server/src/main/java/inbank/task/service/PurchaseApprovalService.java:94-96 | the period always ends up in [6, 24]; an in-range period is unchanged; one below goes to 6, one above to 24 |
| `PurchaseApproval.SanitizeIdempotent` | server/src/main/java/inbank/task/service/PurchaseApprovalService.java:80-96 | clamping an already clamped amount or period changes nothing |
| `PurchaseApproval.ApprovalScore` | server/src/main/java/inbank/task/service/PurchaseApprovalService.java:104-106 | score times amount equals financialFactor * months |
| `PurchaseApproval.ApprovalScoreMeaning` | server/src/main/java/inbank/task/service/PurchaseApprovalService.java:98-106 | for a positive amount the score is 1 iff financialFactor * months equals the amount, above 1 iff it exceeds it, below 1 iff it falls short |
| `PurchaseApproval.MaxAmountForPeriod` | server/src/main/java/inbank/task/service/PurchaseApprovalService.java:108-111 | the result is the minimum of financialFactor * months and 5000: at most both, and equal to one of them |
| `PurchaseApproval.MaxAmountCapped` | server/src/main/java/inbank/task/service/PurchaseApprovalService.java:108-111 | when financialFactor * months is at least 5000 the maximum amount is exactly 5000 |
| `PurchaseApproval.CappedAmountValid` | server/src/main/java/inbank/task/service/PurchaseApprovalService.java:126-127 | a capped amount is in [200, 5000] exactly when financialFactor * months is at least 200 |
| `PurchaseApproval.MaxAmountMonotone` | server/src/main/java/inbank/task/service/PurchaseApprovalService.java:108-111 | for a non-negative factor a longer period never gives a smaller maximum amount (used to show the search succeeds only when financialFactor * 24 reaches 200) |
| `PurchaseApproval.NearestFrom` | server/src/main/java/inbank/task/service/PurchaseApprovalService.java:124-132 | the result is the offer for the first period from the start up to 24 whose capped amount is in [200, 5000], at that capped amount; none exactly when no period in that range qualifies |
| `PurchaseApproval.FindNearestValidPurchaseDetails` | server/src/main/java/inbank/task/service/PurchaseApprovalService.java:124-132 | the loop returns the first period strictly after the given one, up to 24, with a valid capped amount, at that amount, and no earlier later period qualifies; empty exactly when none in that range qualifies; it equals `NearestFrom` from the next period |
| `PurchaseApproval.NearestFoundExactly` | server/src/main/java/inbank/task/service/PurchaseApprovalService.java:124-132 | from a positive period the search finds an offer iff the period is below 24 and financialFactor * 24 is at least 200 |
| `PurchaseApproval.Evaluate` | server/src/main/java/inbank/task/service/PurchaseApprovalService.java:24-68 | approved iff details are present iff the message is not a denial; the nearest and capped messages carry the offered numbers; every approval outside the exact-match branch has its amount in [200, 5000] and its period in [6, 24] |
| `PurchaseApproval.EvaluatePurchase` | server/src/main/java/inbank/task/service/PurchaseApprovalService.java:34-68 | the service method, with its early returns and the search loop, gives the decision `Evaluate` specifies |
| `PurchaseApproval.UnknownCustomerDenied` | server/src/main/java/inbank/task/service/PurchaseApprovalService.java:35-38 | a customer missing from the store is denied with no details and "Customer is not found.", whatever the request |
| `PurchaseApproval.FlaggedCustomerDenied` | server/src/main/java/inbank/task/service/PurchaseApprovalService.java:39-41 | a flagged customer is denied with no details and "Customer is flagged.", whatever the request and factor |
| `PurchaseApproval.ExactMatchEchoesRequest` | server/src/main/java/inbank/task/service/PurchaseApprovalService.java:49-52 | when financialFactor times the clamped period equals the clamped amount, the request is approved with its original, unclamped details |
| `PurchaseApproval.CappedOfferAtRequestedPeriod` | server/src/main/java/inbank/task/service/PurchaseApprovalService.java:54-59 | when the request is not an exact match and the capped maximum at the clamped period is at least 200, that maximum is offered for the clamped period |
| `PurchaseApproval.NearestOfferWhenTooSmall` | server/src/main/java/inbank/task/service/PurchaseApprovalService.java:56-67 | when financialFactor times the clamped period is below 200, the offer is the search result, with the nearest-offer message carrying its amount and period: the least period m from the clamped one on with financialFactor * m >= 200, at the capped amount for m; with no such m up to 24 the request is denied with "No valid offer found." |
| `PurchaseApproval.ApprovedExactlyWhenLongestPeriodSuffices` | server/src/main/java/inbank/task/service/PurchaseApprovalService.java:34-68 | a known, unflagged customer is approved iff financialFactor * 24 is at least 200, whatever the request; otherwise the message is "No valid offer found." |
| `PurchaseApproval.InRangeRequestGetsInRangeOffer` | server/src/main/java/inbank/task/service/PurchaseApprovalService.java:43-64 | a request already inside both ranges is only ever approved with an amount in [200, 5000] and a period in [6, 24] |
| `PurchaseApproval.ExactMatchCanEchoOutOfRangeAmount` | server/src/main/java/inbank/task/service/PurchaseApprovalService.java:49-51 | factor 25 with a request of 50 over 8 months is approved with details (50, 8), below the minimum amount |
| `PurchaseApprovalTests.FlaggedCustomerIsDenied` | server/src/test/java/inbank/task/service/PurchaseApprovalServiceTest.java:32-43 | a flagged profile with factor -1 asking 1000 over 12 months is denied with "Customer is flagged." |
| `PurchaseApprovalTests.HighestValidRequestIsEchoed` | server/src/test/java/inbank/task/service/PurchaseApprovalServiceTest.java:45-59 | factor 100 asking 2400 over 24 months is approved as requested |
| `PurchaseApprovalTests.LowerRequestGetsHighest` | server/src/test/java/inbank/task/service/PurchaseApprovalServiceTest.java:61-75 | factor 100 asking 800 over 12 months is offered 1200 over 12 months |
| `PurchaseApprovalTests.TooSmallAmountAdjustsPeriod` | server/src/test/java/inbank/task/service/PurchaseApprovalServiceTest.java:77-91 | factor 15 asking 50 over 6 months is offered 210 over 14 months |
| `PurchaseApprovalTests.NoValidOfferIsDenied` | server/src/test/java/inbank/task/service/PurchaseApprovalServiceTest.java:93-105 | factor 5 asking 50 over 1 month is denied with no valid offer |
| `PurchaseApprovalTests.LargestRequestIsCapped` | server/src/test/java/inbank/task/service/PurchaseApprovalServiceTest.java:108-122 | factor 500 asking the largest int amount and period is offered 5000 over 24 months |
| `PurchaseApprovalTests.SmallestRequestIsClamped` | server/src/test/java/inbank/task/service/PurchaseApprovalServiceTest.java:124-136 | factor 100 asking minus the largest int amount and period is offered 600 over 6 months |
| `PurchaseApprovalTests.UnknownCustomerIsDenied` | server/src/test/java/inbank/task/service/PurchaseApprovalServiceTest.java:138-150 | an empty store denies with "Customer is not found." |

## Left out

- The HTTP controller, CORS and Spring wiring: transport only, no decision
  logic.
- The contents of the hard-coded profile store: the store is a parameter of
  the decision.
- IEEE double arithmetic: `calculateApprovalScore` and its `== 1` test are
  exact real arithmetic here. Rounding can make the Java score differ from 1
  where the exact one equals 1, and the reverse. NaN and infinite request
  amounts are also not modelled.
- 32-bit overflow: `financialFactor * months` is unbounded here. In Java it is
  an `int` product that can wrap for very large factors.
  `period + 1` is likewise unbounded; this only matters for periods the
  decision never passes to the search, since it clamps them first.
- Message formatting: the offer messages are tags carrying their numbers.
  `FixedText` gives only the constant text before the first number. Java's
  double-to-string formatting is not modelled.
- Null values: the Java code fails with a `NullPointerException` on a null
  personal identifier (the `Map.of` store rejects a null key) or on null
  request details. Dafny datatypes have no null, so null requests,
  identifiers and details are not modelled.
- Concurrency and determinism across calls: the model is a set of pure
  functions, so repeated calls are equal by construction.
