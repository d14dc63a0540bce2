/**
 * Regrouping lemmas for sequence concatenation. They are proved once, for
 * any element type, so that proofs about commands, marks and strokes can
 * cite them instead of rediscovering associativity in a context full of
 * other facts.
 */
module Seqs {
  /** Concatenation is associative. */
  lemma AppendAssoc<T>(a: seq<T>, b: seq<T>, c: seq<T>)
    ensures (a + b) + c == a + (b + c)
  {
  }

  /** Regrouping a concatenation of four sequences. */
  lemma AppendAssoc4<T>(w: seq<T>, x: seq<T>, y: seq<T>, z: seq<T>)
    ensures w + (x + y) + z == w + x + y + z
  {
  }
}
