/** The optional value used wherever the source has "nothing here" (an absent request, a hidden box). */
module Options {
  datatype Option<+T> = None | Some(value: T)
}
