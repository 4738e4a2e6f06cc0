/** The optional value used for nullable fields (`assignedTo: null`) and for
    searches that may find nothing. */
module Options {

  datatype Option<+T> = None | Some(value: T)
}
