/** An optional value, used where the source has a missing value or a path that gives no result. */
module Optional {

  datatype Option<+T> = None | Some(value: T)
}
