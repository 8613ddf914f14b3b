/** An optional value, for probes that find nothing and steps that produce nothing. */
module Options {
  datatype Option<+T> = None | Some(value: T)
}
