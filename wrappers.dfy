/** Present-or-absent values: JavaScript's null and undefined both read as None. */
module Wrappers {

  datatype Option<T> = None | Some(value: T)
}
