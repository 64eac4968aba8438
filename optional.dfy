/** An optional value: a prop that may be left `undefined`, or a parse that may fail. */
module Optional {

  datatype Option<T> = None | Some(value: T) {

    /** The value, or `default` when there is none (a destructuring default or `??`). */
    function GetOr(default: T): T {
      match this
      case Some(v) => v
      case None => default
    }
  }
}
