/** The optional-value datatype shared by every module of the model:
    a JavaScript `undefined`/Python `None` on the one hand, a present value on the other. */
module Maybe {

  datatype Option<+T> = None | Some(value: T) {

    /** The present value, or `default` when there is none. */
    function GetOr(default: T): T {
      match this
      case Some(v) => v
      case None => default
    }
  }
}
