/** The optional-value datatype shared by every module of the model. */
module Options {

  /** `None` stands for a JavaScript `undefined`/`null` result or an absent entry. */
  datatype Option<+T> = None | Some(value: T) {

    /** The wrapped value, or `default` when there is none. */
    function GetOr(default: T): T {
      match this
      case Some(v) => v
      case None => default
    }
  }
}
