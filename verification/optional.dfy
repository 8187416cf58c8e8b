/** A value that may be absent: the editor's `null` selection and the `NaN`
    that `parseInt` yields for text that is not a number. */
module Optional {

  datatype Option<+T> = None | Some(value: T)
}
