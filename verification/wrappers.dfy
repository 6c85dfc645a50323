/** The Option datatype, used for answers that may be absent (a dismissed dialog,
    a label that does not parse). */
module Wrappers {

  datatype Option<+T> = None | Some(value: T)

}
