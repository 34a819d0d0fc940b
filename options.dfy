/** The optional result used where the source raises or a parse can fail. */
module Options {

  datatype Option<+T> = None | Some(value: T)

}
