/** A value that may be absent: the model's counterpart of an `undefined`
    result (`Array.prototype.find` finding nothing, `pop` on an empty array). */
module Optional {

  datatype Option<+T> = None | Some(value: T)
}
