/** The optional-value type used throughout the model, standing for the
    JavaScript `null` / `undefined` a field or parameter may hold. */
module Wrappers {

  datatype Option<+T> = None | Some(value: T)
}
