/** The absent-or-present wrapper used throughout the model. `None` stands for
    JavaScript's `undefined` (a missing photo, a failed `find`) and, for parsed
    numbers, for `NaN`. */
module Wrappers {

  datatype Option<+T> = None | Some(value: T)

}
