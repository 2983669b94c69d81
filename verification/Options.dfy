/** The optional values the daemon's fields hold. */
module Options {

  datatype Option<+T> = None | Some(value: T) {

    /** The value held, or `default` where there is none. */
    function GetOr(default: T): T {
      match this
      case Some(v) => v
      case None => default
    }
  }

  function Min(a: int, b: int): int {
    if a <= b then a else b
  }

  function Max(a: int, b: int): int {
    if a <= b then b else a
  }
}
