/** The optional value that the detector's operations return where the
    source returns None. */
module Options {

  datatype Option<+T> = None | Some(value: T)
}
