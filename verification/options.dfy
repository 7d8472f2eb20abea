/** The optional value used wherever the tool falls back on Python's `None`:
    a dictionary lookup that finds nothing, a state fetch that yields no
    document, a configuration key that is absent. */
module Options {

  datatype Option<+T> = None | Some(value: T) {

    /** The wrapped value, or `default` when there is none (Python's
        `d.get(key, default)`). */
    function GetOr(default: T): T {
      match this
      case Some(v) => v
      case None => default
    }
  }
}
