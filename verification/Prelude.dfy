/** Small shared vocabulary. */
module Prelude {

  datatype Option<+T> = None | Some(value: T)

  function Max(a: int, b: int): int {
    if a < b then b else a
  }

  function Min(a: int, b: int): int {
    if a < b then a else b
  }

  /** An identifier that is not in use. */
  method Fresh(used: set<nat>) returns (id: nat)
    ensures id !in used
  {
    id := 0;
    var rest := used;
    while rest != {}
      invariant rest <= used
      invariant forall x | x in used && x !in rest :: x < id
      decreases |rest|
    {
      var x :| x in rest;
      id := Max(id, x + 1);
      rest := rest - {x};
    }
  }

  /** The elements of a set, in some order. */
  method Enumerate(s: set<nat>) returns (q: seq<nat>)
    ensures (set x | x in q) == s
    ensures forall i, j | 0 <= i < j < |q| :: q[i] != q[j]
  {
    q := [];
    var rest := s;
    while rest != {}
      invariant (set x | x in q) + rest == s && (set x | x in q) !! rest
      invariant forall i, j | 0 <= i < j < |q| :: q[i] != q[j]
      decreases |rest|
    {
      var x :| x in rest;
      assert x !in (set y | y in q);
      q := q + [x];
      rest := rest - {x};
    }
  }
}
