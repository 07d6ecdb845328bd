/** The conventional optional value: `None` where Python would hand back `None`. */
module Wrappers {

  datatype Option<+T> = None | Some(value: T)

}
