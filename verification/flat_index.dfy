/** An exact L2 index in the manner of faiss's `IndexFlatL2`: a dimension fixed
    at creation, an append-only list of vectors whose positions are their
    labels, and a k-nearest search by squared Euclidean distance. Vector
    components are integers, so distances are exact. */
module FlatIndex {
  import opened Seqs

  type Vector = seq<int>

  /** Label faiss writes into a result slot it has no vector for. */
  const Missing: int := -1

  /** Distance faiss writes beside a `Missing` label: the largest finite
      32-bit float, 3.4028235e38, as an integer. */
  const MissingDistance: int := 340282346638528859811704183484516925440

  /** Squared Euclidean distance, the quantity `IndexFlatL2` reports. */
  function SqDist(a: Vector, b: Vector): (d: int)
    requires |a| == |b|
    ensures d >= 0
  {
    if |a| == 0 then 0
    else (a[0] - b[0]) * (a[0] - b[0]) + SqDist(a[1..], b[1..])
  }

  /** The distance is zero exactly for identical vectors. */
  lemma {:induction false} SqDistZeroIff(a: Vector, b: Vector)
    requires |a| == |b|
    ensures SqDist(a, b) == 0 <==> a == b
  {
    if |a| > 0 {
      SqDistZeroIff(a[1..], b[1..]);
      if a[0] != b[0] {
        assert (a[0] - b[0]) * (a[0] - b[0]) > 0;
      }
      if a[1..] == b[1..] && a[0] == b[0] {
        assert a == [a[0]] + a[1..];
        assert b == [b[0]] + b[1..];
      }
    }
  }

  datatype Index = Index(dim: nat, vectors: seq<Vector>)

  /** Every stored vector has the index's dimension. */
  predicate Valid(ix: Index)
  {
    forall i :: 0 <= i < |ix.vectors| ==> |ix.vectors[i]| == ix.dim
  }

  predicate FitsDim(dim: nat, batch: seq<Vector>)
  {
    forall i :: 0 <= i < |batch| ==> |batch[i]| == dim
  }

  /** `IndexFlatL2(dim)`: a new, empty index. */
  function Empty(dim: nat): (ix: Index)
    ensures Valid(ix) && ix.dim == dim && |ix.vectors| == 0
  {
    Index(dim, [])
  }

  /** `index.add(batch)`: the batch is appended, so its vectors receive the
      labels `|vectors|`, `|vectors| + 1`, ... in order, and every earlier
      label keeps its vector. */
  function Add(ix: Index, batch: seq<Vector>): (r: Index)
    requires Valid(ix) && FitsDim(ix.dim, batch)
    ensures Valid(r) && r.dim == ix.dim
    ensures |r.vectors| == |ix.vectors| + |batch|
    ensures forall p :: 0 <= p < |ix.vectors| ==> r.vectors[p] == ix.vectors[p]
    ensures forall i :: 0 <= i < |batch| ==> r.vectors[|ix.vectors| + i] == batch[i]
  {
    Index(ix.dim, ix.vectors + batch)
  }

  function Dist(ix: Index, q: Vector, p: int): int
    requires Valid(ix) && |q| == ix.dim && 0 <= p < |ix.vectors|
  {
    SqDist(q, ix.vectors[p])
  }

  /** One row of `index.search(query, k)`: `k` distances and `k` labels. */
  datatype SearchOutput = SearchOutput(distances: seq<int>, labels: seq<int>)

  /** What an exact k-nearest search promises for one query. faiss's
      `search` asserts `k > 0`, so only a positive `k` returns at all; the first
      `min(k, size)` slots hold distinct labels of stored vectors with their
      true distances, in non-decreasing distance order, and no unreturned
      vector is closer than a returned one; the remaining slots are empty.
      The order among equal distances is left open, as faiss leaves it. */
  predicate IsExactKnn(ix: Index, q: Vector, k: nat, out: SearchOutput)
    requires Valid(ix) && |q| == ix.dim
  {
    var n := |ix.vectors|;
    var m := Min(k, n);
    && k > 0
    && |out.distances| == k && |out.labels| == k
    && (forall i :: 0 <= i < m ==>
          0 <= out.labels[i] < n && out.distances[i] == Dist(ix, q, out.labels[i]))
    && (forall i :: m <= i < k ==>
          out.labels[i] == Missing && out.distances[i] == MissingDistance)
    && (forall i, j :: 0 <= i < j < m ==> out.labels[i] != out.labels[j])
    && (forall i, j :: 0 <= i < j < m ==> out.distances[i] <= out.distances[j])
    && (forall p, i :: 0 <= p < n && 0 <= i < m && p !in out.labels[..m] ==>
          out.distances[i] <= Dist(ix, q, p))
  }

  // ---------------------------------------------------------------------------
  // One concrete exact search: order every label by (distance, label).

  datatype Key = Key(dist: int, pos: int)

  predicate Before(a: Key, b: Key)
  {
    a.dist < b.dist || (a.dist == b.dist && a.pos < b.pos)
  }

  predicate SortedKeys(s: seq<Key>)
  {
    forall i, j :: 0 <= i < j < |s| ==> Before(s[i], s[j])
  }

  predicate DistinctKeys(s: seq<Key>)
  {
    forall i, j :: 0 <= i < j < |s| ==> s[i] != s[j]
  }

  function InsertKey(x: Key, s: seq<Key>): (r: seq<Key>)
    requires SortedKeys(s) && x !in s
    ensures |r| == |s| + 1
    ensures forall e :: e in r <==> e == x || e in s
    ensures SortedKeys(r)
  {
    if s == [] then [x]
    else if Before(x, s[0]) then [x] + s
    else
      var t := InsertKey(x, s[1..]);
      assert Before(s[0], x);
      assert forall e :: e in s[1..] ==> Before(s[0], e);
      [s[0]] + t
  }

  function SortKeys(ks: seq<Key>): (r: seq<Key>)
    requires DistinctKeys(ks)
    ensures |r| == |ks|
    ensures forall e :: e in r <==> e in ks
    ensures SortedKeys(r)
  {
    if ks == [] then []
    else
      var init := ks[..|ks| - 1];
      assert ks[|ks| - 1] !in init;
      InsertKey(ks[|ks| - 1], SortKeys(init))
  }

  function Keys(ix: Index, q: Vector): (ks: seq<Key>)
    requires Valid(ix) && |q| == ix.dim
    ensures |ks| == |ix.vectors| && DistinctKeys(ks)
    ensures forall p :: 0 <= p < |ks| ==> ks[p] == Key(Dist(ix, q, p), p)
  {
    seq(|ix.vectors|, p requires 0 <= p < |ix.vectors| => Key(Dist(ix, q, p), p))
  }

  /** An exact search that breaks distance ties by the smaller label. */
  function ExactSearch(ix: Index, q: Vector, k: nat): (out: SearchOutput)
    requires Valid(ix) && |q| == ix.dim
    ensures |out.distances| == k && |out.labels| == k
  {
    var s := SortKeys(Keys(ix, q));
    var m := Min(k, |ix.vectors|);
    SearchOutput(
      seq(k, i requires 0 <= i < k => if i < m then s[i].dist else MissingDistance),
      seq(k, i requires 0 <= i < k => if i < m then s[i].pos else Missing))
  }

  lemma ExactSearchSlots(ix: Index, q: Vector, k: nat)
    requires Valid(ix) && |q| == ix.dim
    ensures var out := ExactSearch(ix, q, k);
            var m := Min(k, |ix.vectors|);
            && |out.distances| == k && |out.labels| == k
            && (forall i :: 0 <= i < m ==>
                  0 <= out.labels[i] < |ix.vectors| && out.distances[i] == Dist(ix, q, out.labels[i]))
            && (forall i :: m <= i < k ==>
                  out.labels[i] == Missing && out.distances[i] == MissingDistance)
  {
    var ks := Keys(ix, q);
    var s := SortKeys(ks);
    var out := ExactSearch(ix, q, k);
    forall i | 0 <= i < Min(k, |ix.vectors|)
      ensures 0 <= out.labels[i] < |ix.vectors| && out.distances[i] == Dist(ix, q, out.labels[i])
    {
      assert s[i] in ks;
    }
  }

  lemma ExactSearchOrdered(ix: Index, q: Vector, k: nat)
    requires Valid(ix) && |q| == ix.dim
    ensures var out := ExactSearch(ix, q, k);
            forall i, j :: 0 <= i < j < Min(k, |ix.vectors|) ==>
              Before(Key(out.distances[i], out.labels[i]), Key(out.distances[j], out.labels[j]))
  {
    var s := SortKeys(Keys(ix, q));
    var out := ExactSearch(ix, q, k);
    forall i, j | 0 <= i < j < Min(k, |ix.vectors|)
      ensures Before(Key(out.distances[i], out.labels[i]), Key(out.distances[j], out.labels[j]))
    {
      assert Before(s[i], s[j]);
    }
  }

  lemma ExactSearchNearest(ix: Index, q: Vector, k: nat)
    requires Valid(ix) && |q| == ix.dim
    ensures var out := ExactSearch(ix, q, k);
            var m := Min(k, |ix.vectors|);
            forall p, i :: 0 <= p < |ix.vectors| && 0 <= i < m && p !in out.labels[..m] ==>
              Before(Key(out.distances[i], out.labels[i]), Key(Dist(ix, q, p), p))
  {
    var ks := Keys(ix, q);
    var s := SortKeys(ks);
    var m := Min(k, |ix.vectors|);
    var out := ExactSearch(ix, q, k);
    forall p, i | 0 <= p < |ix.vectors| && 0 <= i < m && p !in out.labels[..m]
      ensures Before(Key(out.distances[i], out.labels[i]), Key(Dist(ix, q, p), p))
    {
      assert ks[p] in s;
      var j :| 0 <= j < |s| && s[j] == ks[p];
      assert forall t :: 0 <= t < m ==> out.labels[..m][t] == s[t].pos;
      assert j >= m;
      assert Before(s[i], s[j]);
    }
  }

  /** Among equal distances the smaller label wins, both in the order of the
      slots and in the choice of which labels to return. */
  predicate PrefersSmallerLabel(ix: Index, q: Vector, k: nat, out: SearchOutput)
    requires Valid(ix) && |q| == ix.dim && IsExactKnn(ix, q, k, out)
  {
    var m := Min(k, |ix.vectors|);
    && (forall i, j :: 0 <= i < j < m && out.distances[i] == out.distances[j] ==>
          out.labels[i] < out.labels[j])
    && (forall p, i :: 0 <= p < |ix.vectors| && 0 <= i < m && p !in out.labels[..m]
                       && out.distances[i] == Dist(ix, q, p) ==>
          out.labels[i] < p)
  }

  /** The concrete search meets the exact-search contract and breaks distance
      ties towards the smaller label. */
  lemma ExactSearchIsExact(ix: Index, q: Vector, k: nat)
    requires Valid(ix) && |q| == ix.dim && k > 0
    ensures IsExactKnn(ix, q, k, ExactSearch(ix, q, k))
    ensures PrefersSmallerLabel(ix, q, k, ExactSearch(ix, q, k))
  {
    ExactSearchSlots(ix, q, k);
    ExactSearchOrdered(ix, q, k);
    ExactSearchNearest(ix, q, k);
  }

  // ---------------------------------------------------------------------------
  // Three unit vectors, searched from the first with k = 2.

  function UnitIndex(): (ix: Index)
    ensures Valid(ix) && ix.dim == 3
  {
    Index(3, [[1, 0, 0], [0, 1, 0], [0, 0, 1]])
  }

  lemma UnitDistances()
    ensures Dist(UnitIndex(), [1, 0, 0], 0) == 0
    ensures Dist(UnitIndex(), [1, 0, 0], 1) == 2
    ensures Dist(UnitIndex(), [1, 0, 0], 2) == 2
  {
    var ix := UnitIndex();
    assert SqDist([1, 0, 0], ix.vectors[0]) == 0;
    assert SqDist([1, 0, 0], ix.vectors[1]) == 2;
    assert SqDist([1, 0, 0], ix.vectors[2]) == 2;
  }

  /** Any exact search returns label 0 at distance 0 first and then one of
      labels 1 and 2 at squared distance 2; which of the two is left open. */
  lemma UnitSearchAnyExact(ix: Index, q: Vector, out: SearchOutput)
    requires ix == UnitIndex() && q == [1, 0, 0]
    requires IsExactKnn(ix, q, 2, out)
    ensures out.labels[0] == 0 && out.distances[0] == 0
    ensures (out.labels[1] == 1 || out.labels[1] == 2) && out.distances[1] == 2
  {
    UnitDistances();
    assert out.labels[..2] == [out.labels[0], out.labels[1]];
  }

  /** An exact search that prefers the smaller label returns labels 0 and 1. */
  lemma UnitSearchTieBreak(ix: Index, q: Vector, out: SearchOutput)
    requires ix == UnitIndex() && q == [1, 0, 0]
    requires IsExactKnn(ix, q, 2, out) && PrefersSmallerLabel(ix, q, 2, out)
    ensures out.labels == [0, 1] && out.distances == [0, 2]
  {
    UnitSearchAnyExact(ix, q, out);
    UnitDistances();
    assert out.labels[..2] == [out.labels[0], out.labels[1]];
  }

  /** The concrete search breaks the tie towards label 1. */
  lemma UnitSearchConcrete(ix: Index, q: Vector)
    requires ix == UnitIndex() && q == [1, 0, 0]
    ensures ExactSearch(ix, q, 2).labels == [0, 1]
    ensures ExactSearch(ix, q, 2).distances == [0, 2]
  {
    ExactSearchIsExact(ix, q, 2);
    UnitSearchTieBreak(ix, q, ExactSearch(ix, q, 2));
  }
}
