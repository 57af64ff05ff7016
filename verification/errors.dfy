/**
 * The error codes the promotion services raise (PromotionErrorCode), each with the
 * HTTP status it is reported with.
 */
module Errors {

  datatype PromotionError =
    | PromotionNotFound
    | PromotionNotAvailable
    | PromotionAlreadyJoined
    | PromotionQueueFull
      /** Raised by the participation lookup; the enum itself does not declare it. */
    | ParticipationNotFound

  /** The HTTP status that goes with each code. */
  function HttpStatus(e: PromotionError): (status: int)
    ensures 400 <= status < 500
  {
    match e
    case PromotionNotFound => 404
    case PromotionNotAvailable => 400
    case PromotionAlreadyJoined => 409
    case PromotionQueueFull => 429
    case ParticipationNotFound => 404
  }
}
