/**
 * The part of Rust's `Vec<T>` that the mesh wrappers use: creation filled with one
 * value (`vec![x; n]`) and `resize(n, fill)`, which changes the vector in place.
 */
module RustVec {

  /**
   * The contents of a vector holding `s` after `resize(n, fill)`: the first `n`
   * elements of `s` when it is long enough, otherwise `s` padded with `fill` up to `n`.
   */
  function Resized<T>(s: seq<T>, n: nat, fill: T): (r: seq<T>)
    ensures |r| == n
    ensures forall i :: 0 <= i < n ==> r[i] == if i < |s| then s[i] else fill
  {
    if n <= |s| then s[..n] else s + seq(n - |s|, _ => fill)
  }

  /** Shrinking keeps exactly the prefix. */
  lemma ResizedShrinksToPrefix<T>(s: seq<T>, n: nat, fill: T)
    requires n <= |s|
    ensures Resized(s, n, fill) == s[..n]
  {
  }

  /** Resizing twice to the same length is resizing once. */
  lemma ResizedIdempotent<T>(s: seq<T>, n: nat, fill: T)
    ensures Resized(Resized(s, n, fill), n, fill) == Resized(s, n, fill)
  {
  }

  /** A growable buffer whose whole state is its sequence of elements. */
  class Vec<T> {
    var elems: seq<T>

    /** `vec![x; n]`: `n` copies of `x`. */
    constructor Filled(n: nat, x: T)
      ensures elems == seq(n, _ => x)
    {
      elems := seq(n, _ => x);
    }

    /** `Vec::resize(n, fill)`. */
    method Resize(n: nat, fill: T)
      modifies this
      ensures elems == Resized(old(elems), n, fill)
    {
      if n <= |elems| {
        elems := elems[..n];
      } else {
        elems := elems + seq(n - |elems|, _ => fill);
      }
    }
  }
}
