/** The optional-value datatype used for the source's nullable fields
    (`float?`) and for engine references that may be null. */
module Wrappers {

  datatype Option<+T> = None | Some(value: T)
}
