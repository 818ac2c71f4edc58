/** The optional value used wherever the source keeps `None` or skips an entry. */
module Options {

  datatype Option<T> = None | Some(value: T)
}
