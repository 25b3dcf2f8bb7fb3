/** Generic sequence helpers shared by the word splitter and the chunker. */
module Seqs {

  function Min(a: int, b: int): int
  {
    if a <= b then a else b
  }

  /** Concatenation of a sequence of sequences, in order. */
  function Flatten<T>(xss: seq<seq<T>>): seq<T>
  {
    if xss == [] then [] else xss[0] + Flatten(xss[1..])
  }

  lemma FlattenCons<T>(x: seq<T>, xs: seq<seq<T>>)
    ensures Flatten([x] + xs) == x + Flatten(xs)
  {
    assert ([x] + xs)[1..] == xs;
  }

  /** Flattening distributes over concatenation of the outer sequence. */
  lemma {:induction false} FlattenAppend<T>(a: seq<seq<T>>, b: seq<seq<T>>)
    ensures Flatten(a + b) == Flatten(a) + Flatten(b)
  {
    if a == [] {
      assert a + b == b;
    } else {
      assert (a + b)[1..] == a[1..] + b;
      FlattenAppend(a[1..], b);
    }
  }

  /** A flattened sequence is at least as long as the number of its parts when
      no part is empty. */
  lemma {:induction false} FlattenLengthAtLeastCount<T>(xss: seq<seq<T>>)
    requires forall i :: 0 <= i < |xss| ==> |xss[i]| > 0
    ensures |Flatten(xss)| >= |xss|
  {
    if xss != [] {
      FlattenLengthAtLeastCount(xss[1..]);
    }
  }

  /** A slice that lies inside the second operand of a concatenation. */
  lemma SliceOfAppend<T>(a: seq<T>, b: seq<T>, lo: nat, hi: nat)
    requires lo <= hi <= |b|
    ensures (a + b)[|a| + lo .. |a| + hi] == b[lo..hi]
  {
    assert forall k :: 0 <= k < hi - lo ==> (a + b)[|a| + lo .. |a| + hi][k] == b[lo..hi][k];
  }

  /** A slice that lies inside the last of three concatenated pieces. */
  lemma SliceOfThird<T>(a: seq<T>, b: seq<T>, c: seq<T>, lo: nat, hi: nat)
    requires lo <= hi <= |c|
    ensures |a| + |b| + hi <= |a + (b + c)|
    ensures (a + (b + c))[|a| + |b| + lo .. |a| + |b| + hi] == c[lo..hi]
  {
    SliceOfAppend(b, c, lo, hi);
    SliceOfAppend(a, b + c, |b| + lo, |b| + hi);
  }

  lemma EmptyAppend<T>(s: seq<T>)
    ensures [] + s == s
  {
  }

  /** A slice that lies inside the first operand of a concatenation. */
  lemma SliceOfPrefix<T>(a: seq<T>, b: seq<T>, lo: nat, hi: nat)
    requires lo <= hi <= |a|
    ensures (a + b)[lo..hi] == a[lo..hi]
  {
    assert forall k :: 0 <= k < hi - lo ==> (a + b)[lo..hi][k] == a[lo..hi][k];
  }

  /** Slicing after a drop is slicing the original further along. */
  lemma SliceOfDrop<T>(xs: seq<T>, d: nat, lo: nat, hi: nat)
    requires d <= |xs| && lo <= hi <= |xs| - d
    ensures xs[d..][lo..hi] == xs[d + lo..d + hi]
  {
    assert forall k :: 0 <= k < hi - lo ==> xs[d..][lo..hi][k] == xs[d + lo..d + hi][k];
  }
}
