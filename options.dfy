/** An optional value, used where the modelled code may or may not produce one. */
module Options {

  datatype Option<+T> = None | Some(value: T)
}
