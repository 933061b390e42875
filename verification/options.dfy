/** The optional value used for JavaScript's `undefined` results (d3.mean of nothing, a missing key). */
module Options {

  datatype Option<+T> = None | Some(value: T) {

    /** The wrapped value, or `default` when there is none (JavaScript's `x || default`). */
    function GetOr(default: T): T {
      match this
      case Some(v) => v
      case None => default
    }

    /** The wrapped value as a one-element sequence, or the empty sequence. */
    function ToSeq(): (s: seq<T>)
      ensures (None? ==> s == []) && (Some? ==> s == [value])
    {
      match this
      case Some(v) => [v]
      case None => []
    }
  }
}
