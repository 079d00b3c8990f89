/** A value that may be absent: a text cell that is blank or holds no value
    a rubric lists, or a number that pandas holds as NaN or infinite. */
module Options {
  datatype Option<+T> = None | Some(value: T)
}
