/** Option, Result and Write values and two bounds, shared by every component. */
module Wrappers {
  datatype Option<+T> = None | Some(value: T)

  /** What became of a write, and what its caller is told. */
  datatype Write = Committed | CommittedWithError | Lost

  datatype Result<+T, +E> = Success(value: T) | Failure(error: E)

  function Min(a: nat, b: nat): nat {
    if a < b then a else b
  }

  /** i brought into 0..n. */
  function Clip(i: int, n: nat): nat {
    if i < 0 then 0 else if i > n then n else i
  }
}
