/** The optional value used wherever the planner works with something that may be
    missing: a JavaScript `undefined`, a `find` that matched nothing, a `NaN`. */
module Options {

  datatype Option<+T> = None | Some(value: T) {

    /** The value, or `default` when there is none (JavaScript's `x || default`
        on objects, which are always truthy). */
    function GetOr(default: T): T {
      match this
      case Some(v) => v
      case None => default
    }
  }
}
