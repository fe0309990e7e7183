/** The optional-value datatype the model uses for every "may fail" step
    (a field that does not convert, a line that does not decode). */
module Wrappers {

  datatype Option<+T> = None | Some(value: T)
}
