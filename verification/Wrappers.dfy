/** What several modules share: a value that may be absent, and the chance that an access fails. */
module Wrappers {

  datatype Option<+T> = None | Some(value: T)

  /** Whether an access fails, or a check forbids to go on; in a calm run none does. */
  method Falters(calm: bool) returns (falters: bool)
    ensures calm ==> !falters
  {
    falters := *;
    if calm {
      falters := false;
    }
  }
}
