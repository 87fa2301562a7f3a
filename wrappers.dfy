/** The conventional optional value, used where the bot's Python code uses None. */
module Wrappers {

  datatype Option<+T> = None | Some(value: T)
}
