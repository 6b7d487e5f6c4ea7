/** A value that may be missing: a pandas NaN cell, an absent key of the info snapshot,
    a fetch that produced no record. */
module Optional {

  datatype Option<+T> = None | Some(value: T)

}
