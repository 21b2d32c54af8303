/** The optional value used for absent close frames and for a receive that yields no envelope. */
module Options {

  datatype Option<+T> = None | Some(value: T)
}
