/** Shared result types and small sequence notions used by every component of the model. */
module Common {

  /** Python's `None` / a present value. */
  datatype Option<+T> = None | Some(value: T)
  {
    /** `d.get(key, default)` on a key that may be absent. */
    function UnwrapOr(default: T): T
    {
      if Some? then value else default
    }
  }

  /** The outcome of an operation that can fail with an error the caller sees. */
  datatype Result<+T, +E> = Ok(value: T) | Err(error: E)

  function Min(a: int, b: int): int
  {
    if a <= b then a else b
  }

  /** No element occurs twice. */
  predicate NoDup<T(==)>(s: seq<T>)
  {
    forall i, j :: 0 <= i < j < |s| ==> s[i] != s[j]
  }

  /** `sub` keeps some of the elements of `s`, in their order in `s`. */
  predicate Subsequence<T(==)>(sub: seq<T>, s: seq<T>)
    decreases |s|
  {
    if sub == [] then true
    else if s == [] then false
    else (sub[0] == s[0] && Subsequence(sub[1..], s[1..])) || Subsequence(sub, s[1..])
  }
}
