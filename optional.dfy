/** The JavaScript value `undefined` where the source may produce a number or nothing. */
module Optional {
  datatype Option<+T> = None | Some(value: T)
}
