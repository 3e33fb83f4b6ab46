/** Small value types shared by the other modules. */
module Base {

  /** `T | null` in the source. */
  datatype Option<+T> = None | Some(value: T)

  /** The two interface languages, `'en' | 'ur'`. */
  datatype Language = En | Ur
}
