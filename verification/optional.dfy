/** A value that may be absent: the model of a nullable pointer or of a
    query with no answer. */
module Optional {

  datatype Option<+T> = None | Some(value: T) {

    /** The carried value, or `default` when absent. */
    function GetOr(default: T): T {
      match this
      case Some(v) => v
      case None => default
    }
  }
}
