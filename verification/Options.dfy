/** An optional value: `undefined` or null in the services, a missing row in the database. */
module Options {
  datatype Option<+T> = None | Some(value: T)
}
