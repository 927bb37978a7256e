/** The conventional optional value, standing for Go's nil and for the comma-ok results. */
module Wrappers {
  datatype Option<+T> = None | Some(value: T)
}
