/** The optional value used for "may be absent" results across the model. */
module Optional {

  datatype Option<+T> = None | Some(value: T)

}
