/** A value that may be absent: used for a thrown configuration error and for
    the message window's text state, which JavaScript leaves `null` between
    messages. */
module Optional {

  datatype Option<+T> = None | Some(value: T)
}
