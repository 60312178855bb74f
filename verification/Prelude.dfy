/** Options, results and the two extremes of a pair, shared by the modules of the model. */
module Prelude {

  datatype Option<+T> = None | Some(value: T)

  datatype Result<+T, +E> = Ok(value: T) | Err(error: E)

  function Min(a: int, b: int): int {
    if a < b then a else b
  }

  function Max(a: int, b: int): int {
    if a < b then b else a
  }

  ghost predicate Distinct<T>(list: seq<T>) {
    forall i, j :: 0 <= i < j < |list| ==> list[i] != list[j]
  }

  /** The last `count` of a list, or all of it. */
  function LastOf<T>(list: seq<T>, count: nat): (last: seq<T>)
    ensures |last| == if |list| <= count then |list| else count
  {
    if |list| <= count then list else list[|list| - count..]
  }
}
