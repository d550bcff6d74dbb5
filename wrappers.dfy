/** The JavaScript `null` of game.js, as an option type. */
module Wrappers {

  datatype Option<+T> = None | Some(value: T)
}
