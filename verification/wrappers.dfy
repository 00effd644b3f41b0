/** The optional value used wherever the server may or may not have something:
    a lookup that finds nothing, a header that is absent, a token that fails to verify. */
module Wrappers {

  datatype Option<+T> = None | Some(value: T)

}
