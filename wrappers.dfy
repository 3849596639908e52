/** The optional value used wherever the browser API can answer "nothing" (a missing
    storage key, NaN from parseInt, an absent JSON member). */
module Wrappers {

  datatype Option<+T> = None | Some(value: T)
}
