/** A value that may be absent: a null pointer, a field that was not given, a search that found nothing. */
module Options {
  datatype Option<+T> = None | Some(value: T)
}
