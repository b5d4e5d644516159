/** The optional value the scheduler uses for "no window", "no slot" and "no latest date yet". */
module Wrappers {
  datatype Option<+T> = None | Some(value: T)
}
