/** The optional value returned by the date extractor and carried by failures. */
module Optional {
  datatype Option<T> = None | Some(value: T)
}
