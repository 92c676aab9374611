/** Values that may be absent: `Option` in the kernel's own terms. */
module Options {
  datatype Option<+T> = None | Some(value: T)
}
