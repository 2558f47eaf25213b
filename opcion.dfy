/** The `null`-or-value results of the game code: a lookup that finds nothing
    returns `None` where the source returns `null`. */
module Opcion {

  datatype Option<+T> = None | Some(value: T)
}
