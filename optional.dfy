/** A value that may be absent: PHP's null, a missing request field, a failed lookup. */
module Optional {
  datatype Option<+T> = None | Some(value: T)
}
