/** An optional value: the interval handle the timer holds, or a parse that may fail. */
module Optional {
  datatype Option<T> = None | Some(value: T)
}
