/** The optional value the source spells `X | None`. */
module Options {
  datatype Option<+T> = None | Some(value: T)
}
