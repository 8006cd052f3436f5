/** Shared optional-value wrapper, used where the Python code returns `None`. */
module Common {

  datatype Option<+T> = None | Some(value: T)
}
