/** A Go pointer that may be nil (`*image.Point`, a callback that may be
    unset) is modelled as an Option. */
module Optional {

  datatype Option<+T> = None | Some(value: T)
}
