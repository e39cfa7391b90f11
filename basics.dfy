/** Optional values, the Python exceptions the modelled code can raise, and
    list reversal. */
module Basics {

  datatype Option<+T> = None | Some(value: T)

  /** The exceptions that reach a caller of the modelled code. */
  datatype Error =
    | KeyError(key: string)   // a dictionary lookup with an unknown key
    | IndexError              // indexing an empty list
    | AttributeError          // an attribute read on None

  /** The value a Python call returns, or the exception it raises. */
  datatype Result<+T> = Ok(value: T) | Err(error: Error)

  /** A call that returns nothing useful, or the exception it raises. */
  datatype Outcome = Pass | Fail(error: Error)

  /** The list s in reverse order: list(reversed(s)) and s.reverse(). */
  function Reversed<T>(s: seq<T>): (r: seq<T>)
    ensures |r| == |s|
    ensures forall i :: 0 <= i < |s| ==> r[i] == s[|s| - 1 - i]
  {
    if |s| == 0 then [] else Reversed(s[1..]) + [s[0]]
  }
}
