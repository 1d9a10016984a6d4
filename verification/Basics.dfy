/** Notions that several parts share. */
module Basics {
  datatype Option<+T> = None | Some(value: T)

  ghost predicate Distinct<T>(s: seq<T>) { forall i, j :: 0 <= i < j < |s| ==> s[i] != s[j] }

  function Elements<T(==)>(s: seq<T>): set<T> { set x | x in s }

  /** The power of two, as the size of a transform and as the value of a mask bit. */
  function Exp2(m: nat): (r: nat)
    ensures r > 0
  {
    if m == 0 then 1 else 2 * Exp2(m - 1)
  }
}
