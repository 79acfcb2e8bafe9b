/** Operations on another system: what the caller learns, and what really happened. */
module Attempts {

  /** `ok`: the caller sees success.  `reached`: it took effect.  Success without effect is
      excluded wherever an attempt is used. */
  datatype Attempt = Attempt(ok: bool, reached: bool)
}
