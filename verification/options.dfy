/** The optional value used wherever the Kotlin code works with a nullable
    reference (`String?`, `File?`). */
module Options {

  datatype Option<+T> = None | Some(value: T)
}
