/** The absent-or-present value used wherever the source yields `undefined`,
    `null` or `NaN` for "nothing". */
module Optional {
  datatype Option<+T> = None | Some(value: T)
}
