/** Facts about sequence concatenation and slicing, stated once for any
    element type so that the proofs about strings, fragment lists and rows
    can cite them instead of re-deriving them. */
module Seqs {

  /** Concatenation is associative. */
  lemma Assoc<T>(a: seq<T>, b: seq<T>, c: seq<T>)
    ensures a + (b + c) == (a + b) + c
  {
  }

  /** The head and the tail of `a + b` when `a` is not empty. */
  lemma ConsAppend<T>(a: seq<T>, b: seq<T>)
    requires a != []
    ensures (a + b)[0] == a[0]
    ensures (a + b)[1..] == a[1..] + b
  {
  }

  /** The last element and the rest of `a + b` when `b` is not empty. */
  lemma SnocAppend<T>(a: seq<T>, b: seq<T>)
    requires b != []
    ensures (a + b)[..|a + b| - 1] == a + b[..|b| - 1]
    ensures (a + b)[|a + b| - 1] == b[|b| - 1]
  {
  }

  /** `(p + q) + r` is `p + (q + r)`, named piece by piece. */
  lemma RegroupRight<T>(x: seq<T>, y: seq<T>, z: seq<T>, p: seq<T>, q: seq<T>, r: seq<T>)
    requires x == y + r && y == p + q && z == q + r
    ensures x == p + z
  {
  }

  /** `p + (q + r)` is `(p + q) + r`, named piece by piece. */
  lemma RegroupLeft<T>(x: seq<T>, y: seq<T>, z: seq<T>, p: seq<T>, q: seq<T>, r: seq<T>)
    requires x == p + y && y == q + r && z == p + q
    ensures x == z + r
  {
  }

  /** A two-element list is its elements one after the other. */
  lemma Pair<T>(x: T, y: T)
    ensures [x, y] == [x] + [y]
  {
  }

  /** A concatenation is empty exactly when both of its pieces are. */
  lemma EmptyAppend<T>(x: seq<T>, a: seq<T>, b: seq<T>)
    requires x == a + b
    ensures x == [] <==> a == [] && b == []
  {
    if x == [] {
      assert |a| + |b| == 0;
    }
  }
}
