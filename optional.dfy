/** An optional value: an absent record field, a `null` state value, or the
    `undefined` that `Array.prototype.find` returns when nothing matches. */
module Optional {

  datatype Option<T> = None | Some(value: T) {

    /** The value, or `default` when absent; for string fields this is the
        `x || ''` idiom, which also maps an empty string to `''`. */
    function GetOr(default: T): T {
      match this
      case Some(v) => v
      case None => default
    }
  }
}
