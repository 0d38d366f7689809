/** The one failure-carrying datatype the model needs: a value that may be absent. */
module Wrappers {

  datatype Option<+T> = None | Some(value: T)

}
