/** The presence-or-absence wrapper used wherever the controller holds a
    reference that may be null: the selected reminder and the form fields. */
module Optional {

  datatype Option<+T> = None | Some(value: T)
}
