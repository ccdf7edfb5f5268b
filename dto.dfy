/**
 * The records exchanged with the approval service: the customer's risk
 * profile, the (amount, period) pair of a request or an offer, the request
 * itself and the decision returned for it.
 */
module Dto {
  import opened Wrappers

  /** A customer's risk profile as the profile store holds it. */
  datatype CustomerProfile = CustomerProfile(flagged: bool, financialFactor: int)

  /** An amount in euros and a payment period in months. */
  datatype PurchaseDetails = PurchaseDetails(amount: real, period: int)

  datatype PurchaseRequest = PurchaseRequest(personalId: string, details: PurchaseDetails)

  /**
   * Why the decision came out as it did. The three offers carry the values
   * the service splices into its message text.
   */
  datatype Message =
    | CustomerNotFound
    | CustomerFlagged
    | SameAsRequested(amount: real)
    | MaximumOffer(offered: real)
    | NearestOffer(offered: real, months: int)
    | NoValidOffer
  {
    predicate IsDenial() {
      CustomerNotFound? || CustomerFlagged? || NoValidOffer?
    }
  }

  /**
   * The literal text of a message: all of it for a denial, and the part
   * before the first formatted number for an offer.
   */
  function FixedText(m: Message): string {
    match m
    case CustomerNotFound => "Customer is not found."
    case CustomerFlagged => "Customer is flagged."
    case SameAsRequested(_) => "The maximum available offer is the same as the requested amount €"
    case MaximumOffer(_) => "The maximum available offer is €"
    case NearestOffer(_, _) => "Nearest offer - €"
    case NoValidOffer => "No valid offer found."
  }

  /** Each denial reason has its own text, so a caller can tell them apart. */
  lemma DenialTextsDistinct(m1: Message, m2: Message)
    requires m1.IsDenial() && m2.IsDenial() && m1 != m2
    ensures FixedText(m1) != FixedText(m2)
  {
  }

  /** The decision: `details` is the offer, absent when the request is denied. */
  datatype PurchaseResponse = PurchaseResponse(approved: bool, details: Option<PurchaseDetails>, message: Message)
}
