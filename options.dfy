/** The optional value used wherever bot.py tests a list for emptiness before taking its head. */
module Options {
  datatype Option<+T> = None | Some(value: T)
}
