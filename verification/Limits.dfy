/** What both limiters answer, and what they count by. */
module Limits {
  import opened Market

  type Key = string

  /** A refusal says how long to wait. */
  datatype Answer = Allowed | Refused(retryAfter: Time)
}
