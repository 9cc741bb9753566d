/** The absent-or-present result that std::optional gives in the C++ interface. */
module Wrappers {

  datatype Option<+T> = None | Some(value: T)

}
