/** A value that may be missing: None, NaN, or an infinity used as "nothing yet". */
module Optional {
  datatype Option<+T> = None | Some(value: T)
}
