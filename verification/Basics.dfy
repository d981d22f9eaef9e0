/** Shared by all modules: Python's optional values, and a little arithmetic. */
module Basics {
  datatype Option<+T> = None | Some(value: T)

  function Max(a: real, b: real): real { if a < b then b else a }

  function Min(a: real, b: real): real { if b < a then b else a }

  function Pow2(k: nat): (p: int)
    ensures p >= 1
  {
    if k == 0 then 1 else 2 * Pow2(k - 1)
  }

  lemma Reassociate<T>(a: seq<T>, b: seq<T>, c: seq<T>)
    ensures a + b + c == a + (b + c)
  {
  }

  lemma CountOneMore<T>(all: seq<T>, front: seq<T>, last: T, x: T)
    requires all == front + [last]
    ensures multiset(all)[x] == multiset(front)[x] + if last == x then 1 else 0
  {
  }
}
