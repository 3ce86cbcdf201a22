/** Optional values: a nullable column, or a value JavaScript may leave undefined. */
module Options {

  datatype Option<+T> = None | Some(value: T)
}
