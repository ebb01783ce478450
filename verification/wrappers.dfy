/** The optional value used for the nullable state of the pages
    (`number | null` selections and accordion indices). */
module Wrappers {

  datatype Option<+T> = None | Some(value: T)
}
