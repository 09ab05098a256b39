/** An optional value: the source's `null` and `undefined`. */
module Options {
  datatype Option<+T> = None | Some(value: T) {
    function GetOr(default: T): T { if Some? then value else default }
  }

  /** A value or the error the source throws instead. */
  datatype Result<+T, +E> = Ok(value: T) | Err(error: E)
}
