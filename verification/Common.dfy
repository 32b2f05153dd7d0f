/** What several modules share. */
module Common {

  datatype Option<+T> = None | Some(value: T)

  /** The pieces, one after another. */
  function Concat<T>(pieces: seq<seq<T>>): seq<T> {
    if pieces == [] then [] else Concat(pieces[..|pieces| - 1]) + pieces[|pieces| - 1]
  }
}
