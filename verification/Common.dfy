/** What several of the modules use. */
module Common {

  datatype Option<T> = None | Some(value: T)

  /** The pieces of a message or stream put together. */
  function Joined<T>(pieces: seq<seq<T>>): seq<T> {
    if pieces == [] then [] else Joined(pieces[..|pieces| - 1]) + pieces[|pieces| - 1]
  }
}
