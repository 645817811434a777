/** The optional value that `get_pawn` returns. */
module Options {
  datatype Option<+T> = None | Some(value: T)
}
