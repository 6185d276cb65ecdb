/**
 * A value that may be missing: a dictionary key that is absent, a bucket slot
 * that is still the empty dictionary, or a check that returns `None`.
 */
module Optional {

  datatype Option<T> = None | Some(value: T) {

    /** Python's `d.get(key, fallback)`: the value when present, else `fallback`. */
    function Get(fallback: T): T {
      if Some? then value else fallback
    }
  }
}
