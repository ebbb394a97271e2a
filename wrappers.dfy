/** The optional value used where the source returns `T | null`. */
module Wrappers {

  datatype Option<+T> = None | Some(value: T)

  /** The list holding the value of `o`, or the empty list when `o` is absent. */
  function ToSeq<T>(o: Option<T>): (s: seq<T>)
    ensures s == [] <==> o.None?
    ensures o.Some? ==> s == [o.value]
  {
    match o
    case None => []
    case Some(v) => [v]
  }
}
