/** Order-keeping sub-lists: what `Array.prototype.filter` returns relative to its input. */
module Sequences {

  /** `a` is `b` with some elements left out and the rest in their order. */
  predicate IsSublist<T(==)>(a: seq<T>, b: seq<T>)
    decreases |b|
  {
    if a == [] then true
    else if b == [] then false
    else (a[0] == b[0] && IsSublist(a[1..], b[1..])) || IsSublist(a, b[1..])
  }

  lemma {:induction false} SublistReflexive<T>(a: seq<T>)
    ensures IsSublist(a, a)
    decreases |a|
  {
    if a != [] { SublistReflexive(a[1..]); }
  }
}
