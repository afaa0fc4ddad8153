/** The optional-value datatype shared by the snake and the agent models. */
module Wrappers {

  datatype Option<+T> = None | Some(value: T)
}
