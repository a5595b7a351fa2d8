/** The optional value used for a regex search that may find nothing and for
    a geolocation lookup that may fail. */
module Wrappers {

  datatype Option<+T> = None | Some(value: T)
}
