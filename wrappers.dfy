/** The Some/None datatype used for JavaScript's `null`/`undefined`/`NaN`
    results and for values a page field may or may not hold. */
module Wrappers {

  datatype Option<+T> = None | Some(value: T)
}
