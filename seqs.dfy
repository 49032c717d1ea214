/** Concatenating the lists produced for each element of a list, which is
    what a loop of List.addAll calls builds. */
module Seqs {

  /** f(xs[0]) + f(xs[1]) + ... + f(xs[|xs| - 1]). */
  function Concat<T, U>(xs: seq<T>, f: T -> seq<U>): seq<U>
    decreases |xs|
  {
    if xs == [] then [] else Concat(xs[..|xs| - 1], f) + f(xs[|xs| - 1])
  }

  lemma AppendAssociative<T>(a: seq<T>, b: seq<T>, c: seq<T>)
    ensures (a + b) + c == a + (b + c)
  {
  }

  /** Past the prefix, a concatenation holds the elements of its second
      part. */
  lemma AppendedTail<T>(a: seq<T>, b: seq<T>)
    ensures forall k :: |a| <= k < |a + b| ==> (a + b)[k] == b[k - |a|]
  {
  }

  /** Extending the prefix by one element extends the result by that
      element's list. */
  lemma ConcatSnoc<T, U>(xs: seq<T>, i: nat, f: T -> seq<U>)
    requires i < |xs|
    ensures Concat(xs[..i + 1], f) == Concat(xs[..i], f) + f(xs[i])
  {
    assert xs[..i + 1][..i] == xs[..i];
  }

  /** Concatenation distributes over splitting the input list. */
  lemma {:induction false} ConcatAppend<T, U>(xs: seq<T>, ys: seq<T>, f: T -> seq<U>)
    ensures Concat(xs + ys, f) == Concat(xs, f) + Concat(ys, f)
    decreases |ys|
  {
    if ys == [] {
      assert xs + ys == xs;
    } else {
      var init := ys[..|ys| - 1];
      assert (xs + ys)[..|xs + ys| - 1] == xs + init;
      ConcatAppend(xs, init, f);
    }
  }

  /** An element of the result comes from exactly the elements whose list
      contains it. */
  lemma {:induction false} ConcatMembers<T, U>(xs: seq<T>, f: T -> seq<U>, u: U)
    ensures u in Concat(xs, f) <==> exists i :: 0 <= i < |xs| && u in f(xs[i])
    decreases |xs|
  {
    if xs != [] {
      var init := xs[..|xs| - 1];
      ConcatMembers(init, f, u);
      if exists i :: 0 <= i < |init| && u in f(init[i]) {
        var i :| 0 <= i < |init| && u in f(init[i]);
        assert xs[i] == init[i];
      }
      if exists i :: 0 <= i < |xs| && u in f(xs[i]) {
        var i :| 0 <= i < |xs| && u in f(xs[i]);
        if i < |init| { assert init[i] == xs[i]; }
      }
    }
  }

  /** When every element yields at most one item, the result is no longer
      than the input, and exactly as long when every element yields one. */
  lemma {:induction false} ConcatLength<T, U>(xs: seq<T>, f: T -> seq<U>)
    requires forall i :: 0 <= i < |xs| ==> |f(xs[i])| <= 1
    ensures |Concat(xs, f)| <= |xs|
    ensures (forall i :: 0 <= i < |xs| ==> |f(xs[i])| == 1) ==> |Concat(xs, f)| == |xs|
    decreases |xs|
  {
    if xs != [] {
      var init := xs[..|xs| - 1];
      assert forall i :: 0 <= i < |init| ==> init[i] == xs[i];
      ConcatLength(init, f);
    }
  }
}
