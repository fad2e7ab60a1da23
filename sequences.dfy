/** Facts about sequences stated for any element type, so that the solver reasons about
    positions and never about the contents of the elements (quotes, predictions). */
module Sequences {

  /** A sequence built from n indices is the one built from n - 1 indices extended by the
      last index's value. */
  lemma Extend<T>(n: int, f: int -> T)
    requires n >= 1
    ensures seq(n, f) == seq(n - 1, f) + [f(n - 1)]
  {
    assert forall k :: 0 <= k < n - 1 ==> seq(n, f)[k] == seq(n - 1, f)[k];
  }

  /** Appending one element after a concatenation. */
  lemma AppendAfter<T>(done: seq<T>, row: seq<T>, x: T)
    ensures done + (row + [x]) == (done + row) + [x]
  {
  }

  /** ys holds f of the first |ys| elements of xs, in order. */
  ghost predicate MapsOver<A, B>(f: A -> B, xs: seq<A>, ys: seq<B>)
  {
    |ys| <= |xs| && forall i :: 0 <= i < |ys| ==> ys[i] == f(xs[i])
  }

  /** Appending f of the next element of xs keeps ys mapped over xs. */
  lemma MapsOverAppend<A, B>(f: A -> B, xs: seq<A>, ys: seq<B>, y: B)
    requires MapsOver(f, xs, ys) && |ys| < |xs| && y == f(xs[|ys|])
    ensures MapsOver(f, xs, ys + [y])
  {
    assert forall i :: 0 <= i < |ys| ==> (ys + [y])[i] == ys[i];
  }
}
