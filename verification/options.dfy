/** The optional value used wherever the engine accepts or produces "nothing". */
module Options {
  datatype Option<+T> = None | Some(value: T)
}
