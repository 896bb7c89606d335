/** Python's "a value or None", as used for the optional command-line arguments. */
module Optional {

  datatype Option<T> = None | Some(value: T)

}
