/** Option and Result, used where the source returns `None` or raises, the larger and smaller of two
    integers, and names not yet in use. */
module Common {
  datatype Option<+T> = None | Some(value: T)

  datatype Result<+T, +E> = Ok(value: T) | Err(error: E)

  function Max(a: int, b: int): int
  {
    if a < b then b else a
  }

  function Min(a: int, b: int): int
  {
    if a < b then a else b
  }

  ghost function Unused(used: set<nat>): (n: nat)
    ensures n !in used
  {
    Largest(used) + 1
  }

  ghost function Largest(used: set<nat>): (n: nat)
    ensures forall m :: m in used ==> m <= n
  {
    if used == {} then 0
    else
      var m :| m in used;
      var rest := Largest(used - {m});
      assert forall k :: k in used ==> k == m || k in used - {m};
      if m < rest then rest else m
  }
}
