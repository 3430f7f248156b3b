/** The nullable results of the source (`null`, and `undefined` where an
    empty array is indexed) as an option type. */
module Options {

  datatype Option<+T> = None | Some(value: T)
}
