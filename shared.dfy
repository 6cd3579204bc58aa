/** Types shared by the two backends: optional values, calendar days and the
    outcome of the external token transfer. */
module Shared {

  datatype Option<+T> = None | Some(value: T)

  /** A calendar day, abstracted to its ordinal number. Both backends read the
      clock themselves; here the day is always an input. */
  type Day = int

  /** What the token network's transfer call did: it either returned a
      transaction signature or raised an error with a message. */
  datatype Transfer = Sent(signature: string) | Failed(reason: string)

  function Max(a: real, b: real): (m: real)
    ensures m >= a && m >= b
    ensures m == a || m == b
  {
    if a >= b then a else b
  }
}
