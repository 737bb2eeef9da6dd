/** The usual Some/None datatype, for parsers that may reject their input. */
module Options {

  datatype Option<+T> = None | Some(value: T)

}
