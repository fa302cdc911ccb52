/** Sequence helpers shared by the caption pipeline. */
module Seqs {

  /** The last element of a non-empty sequence. */
  function Last<T>(s: seq<T>): T
    requires s != []
  {
    s[|s| - 1]
  }

  /** The concatenation of a list of lists, in order. */
  function Flatten<T>(xss: seq<seq<T>>): (r: seq<T>)
  {
    if xss == [] then [] else xss[0] + Flatten(xss[1..])
  }

  /** Every part of a partition is non-empty. */
  predicate NonEmptyParts<T>(xss: seq<seq<T>>) {
    forall k :: 0 <= k < |xss| ==> xss[k] != []
  }

  /** A list of non-empty parts has no more parts than its concatenation has elements. */
  lemma {:induction false} FlattenNonEmpty<T>(xss: seq<seq<T>>)
    requires NonEmptyParts(xss)
    ensures |xss| <= |Flatten(xss)|
    ensures xss == [] <==> Flatten(xss) == []
  {
    if xss != [] {
      FlattenNonEmpty(xss[1..]);
    }
  }

  lemma {:induction false} FlattenAppend<T>(a: seq<seq<T>>, b: seq<seq<T>>)
    ensures Flatten(a + b) == Flatten(a) + Flatten(b)
  {
    if a == [] {
      assert a + b == b;
    } else {
      assert (a + b)[1..] == a[1..] + b;
      FlattenAppend(a[1..], b);
    }
  }

  lemma FlattenSnoc<T>(a: seq<seq<T>>, x: seq<T>)
    ensures Flatten(a + [x]) == Flatten(a) + x
  {
    FlattenAppend(a, [x]);
    assert Flatten([x]) == x + Flatten([x][1..]);
  }
}
