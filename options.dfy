/** The optional value used for the dataclass's `Optional[...]` fields and for search results. */
module Options {
  datatype Option<+T> = None | Some(value: T)
}
