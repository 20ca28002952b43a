/** An optional value: the model of a field that a TypeScript `Partial<T>`
    object may or may not supply, and of the result of `Array.prototype.find`. */
module Options {

  datatype Option<T> = None | Some(value: T) {

    /** The value when present, otherwise `default`. */
    function GetOr(default: T): T {
      match this
      case Some(v) => v
      case None => default
    }
  }
}
