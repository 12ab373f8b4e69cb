/** The nullable state slots of the page components (`number | null`,
    `string | null`) are modelled with an Option. */
module Wrappers {
  datatype Option<+T> = None | Some(value: T)
}
