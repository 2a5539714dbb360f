/** The optional value used for the linkifier's optional arguments and for
    "no match here" results. */
module Wrappers {
  datatype Option<+T> = None | Some(value: T)
}
