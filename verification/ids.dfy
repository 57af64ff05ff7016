/** Identifiers shared by the whole model. */
module Ids {

  /** A promotion id as the text of its UUID; it is spliced into the Redis keys. */
  type PromotionId = string

  /**
   * The canonical text of a user's UUID: never empty and free of ':'. That is all
   * the model needs to know about it, and it is what lets the worker read the id
   * back from the front of a queue entry.
   */
  predicate IsUserIdText(s: string) {
    s != [] && ':' !in s
  }

  type UserId = s: string | IsUserIdText(s) witness "0"
}
