/** Small datatypes shared by every component. */
module Common {

  datatype Option<+T> = None | Some(value: T)

  /** What the database may do with one write: commit and say so, refuse it, or
      commit and then report an error (a lost acknowledgement). */
  datatype Write = Acked | Rejected | Unacked
}
