/** The nullable-value wrapper used throughout the model: the generator's
    `(string Namespace, string ClassName, string SectionName)?` and the
    optional results of the compiler's semantic queries are both `Option`s. */
module Wrappers {

  /** `None` plays the role of C#'s `null`. */
  datatype Option<+T> = None | Some(value: T)
}
