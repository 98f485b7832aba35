/** An optional value: a command-line option that may be absent, or a last
    response that a disabled job never has. */
module Wrappers {

  datatype Option<+T> = None | Some(value: T)
}
