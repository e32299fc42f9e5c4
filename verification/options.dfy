/** The usual Some/None datatype, used for the error paths of decoding and
    construction. */
module Options {

  datatype Option<+T> = None | Some(value: T)

}
