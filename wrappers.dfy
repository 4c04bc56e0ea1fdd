/** Helper datatypes shared by the other modules. */
module Wrappers {

  /** A value that may be absent. Counters use `None` for a `NaN` input; the
      backend uses it for a JavaScript `undefined` property. */
  datatype Option<+T> = None | Some(value: T)
}
