/** Small shared vocabulary: an optional value, used for absent DOM attributes
    and absent configuration keys. */
module Common {

  datatype Option<+T> = None | Some(value: T) {

    /** The value if present, else `default` (the `??`-style fallback). */
    function GetOr(default: T): T
    {
      match this
      case Some(v) => v
      case None => default
    }
  }
}
