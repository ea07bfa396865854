/** An optional value: a cell that was or was not searched, a deferred call
    that was or was not scheduled. */
module Options {

  datatype Option<T> = None | Some(value: T)
}
