/** Fixed-size partition of a sequence, the list comprehension
    `[xs[i:i + n] for i in range(0, len(xs), n)]` for a positive step `n`. */
module Chunking {
  import opened Seqs

  /** Consecutive pieces of `xs`, each of `n` elements except possibly the last. */
  function Chunks<T>(xs: seq<T>, n: nat): (cs: seq<seq<T>>)
    requires n > 0
    ensures forall i :: 0 <= i < |cs| ==> 0 < |cs[i]| <= n
    ensures |cs| <= |xs|
    decreases |xs|
  {
    if |xs| == 0 then []
    else if |xs| <= n then [xs]
    else [xs[..n]] + Chunks(xs[n..], n)
  }

  /** Nothing is lost, duplicated or reordered: the pieces concatenate back to
      the input. */
  lemma {:induction false} ChunksFlatten<T>(xs: seq<T>, n: nat)
    requires n > 0
    ensures Flatten(Chunks(xs, n)) == xs
    decreases |xs|
  {
    if |xs| == 0 {
    } else if |xs| <= n {
      assert Flatten([xs]) == xs + Flatten([]);
    } else {
      ChunksFlatten(xs[n..], n);
      assert Flatten(Chunks(xs, n)) == xs[..n] + Flatten(Chunks(xs[n..], n));
      assert xs[..n] + xs[n..] == xs;
    }
  }

  /** Piece `i` is exactly the slice `xs[i*n : i*n + n]` (clamped at the end,
      as Python slicing is), the expression the comprehension evaluates. */
  lemma {:induction false} ChunkAt<T>(xs: seq<T>, n: nat, i: nat)
    requires n > 0
    requires i < |Chunks(xs, n)|
    ensures i * n < |xs|
    ensures Chunks(xs, n)[i] == xs[i * n .. Min(i * n + n, |xs|)]
    decreases |xs|, 1
  {
    if |xs| <= n {
      assert i == 0;
      assert xs[0..|xs|] == xs;
    } else if i > 0 {
      ChunkAtLater(xs, n, i);
    } else {
      assert xs[..n] == xs[0..Min(n, |xs|)];
    }
  }

  lemma {:induction false} ChunkAtLater<T>(xs: seq<T>, n: nat, i: nat)
    requires n > 0 && |xs| > n
    requires 0 < i < |Chunks(xs, n)|
    ensures i * n < |xs|
    ensures Chunks(xs, n)[i] == xs[i * n .. Min(i * n + n, |xs|)]
    decreases |xs|, 0
  {
    var rest := xs[n..];
    assert Chunks(xs, n)[i] == Chunks(rest, n)[i - 1];
    ChunkAt(rest, n, i - 1);
    var k := (i - 1) * n;
    MulStep(i, n);
    assert k < |rest|;
    var hi: nat := if k + n <= |rest| then k + n else |rest|;
    assert hi == Min(k + n, |rest|);
    SliceOfDrop(xs, n, k, hi);
    assert n + hi == Min(i * n + n, |xs|);
  }

  /** Every piece but the last is full. */
  lemma {:induction false} ChunksFullExceptLast<T>(xs: seq<T>, n: nat)
    requires n > 0
    ensures forall i :: 0 <= i < |Chunks(xs, n)| - 1 ==> |Chunks(xs, n)[i]| == n
    decreases |xs|
  {
    if |xs| > n {
      ChunksFullExceptLast(xs[n..], n);
      var cs := Chunks(xs, n);
      forall i | 0 <= i < |cs| - 1
        ensures |cs[i]| == n
      {
        if i > 0 {
          assert cs[i] == Chunks(xs[n..], n)[i - 1];
        }
      }
    }
  }

  /** The number of pieces is the ceiling of `|xs| / n`: `(c - 1) * n < |xs| <= c * n`,
      and there are none exactly when `xs` is empty. */
  lemma {:induction false} ChunksCount<T>(xs: seq<T>, n: nat)
    requires n > 0
    ensures |Chunks(xs, n)| == 0 <==> |xs| == 0
    ensures |xs| > 0 ==> (|Chunks(xs, n)| - 1) * n < |xs| <= |Chunks(xs, n)| * n
    decreases |xs|
  {
    if |xs| > n {
      ChunksCount(xs[n..], n);
      var c := |Chunks(xs[n..], n)|;
      assert |Chunks(xs, n)| == c + 1;
      assert (c + 1) * n == c * n + n;
    }
  }

  /** The same count in the division form `ceil(len / n)`. */
  lemma ChunksCountDiv<T>(xs: seq<T>, n: nat)
    requires n > 0
    ensures |Chunks(xs, n)| == (|xs| + n - 1) / n
  {
    ChunksCount(xs, n);
    var c := |Chunks(xs, n)|;
    if |xs| > 0 {
      CeilDiv(|xs|, n, c);
    }
  }

  lemma CeilDiv(len: nat, n: nat, c: nat)
    requires n > 0 && len > 0
    requires (c - 1) * n < len <= c * n
    ensures c == (len + n - 1) / n
  {
    var q := (len + n - 1) / n;
    var r := (len + n - 1) % n;
    assert q * n + r == len + n - 1;
    assert 0 <= r < n;
    MulMonotone(q, c - 1, n);
    MulMonotone(c + 1, q, n);
    assert (c + 1) * n == c * n + n;
  }

  lemma MulStep(i: nat, n: nat)
    requires i > 0
    ensures i * n == (i - 1) * n + n
  {
  }

  lemma MulMonotone(a: int, b: int, n: nat)
    ensures a <= b ==> a * n <= b * n
  {
    if a <= b {
      assert b * n == a * n + (b - a) * n;
    }
  }
}
