/** `add_to_faiss`, `query_faiss_index` and `get_embedding`: the bookkeeping
    that keeps a list of metadata records beside a faiss index and maps search
    labels back to those records. Generic in the metadata record type `M`. */
module VectorDatabase {
  import opened Wrappers
  import opened Seqs
  import opened FlatIndex

  /** The pair `add_to_faiss` mutates: the faiss index and the Python list of
      metadata records kept beside it. */
  datatype Db<M> = Db(index: Index, metadata: seq<M>)

  /** One element of `query_faiss_index`'s result,
      `{"score": distance, "metadata": record}`. */
  datatype Hit<M> = Hit(score: int, metadata: M)

  /** `metadata_store[idx]` raised `IndexError` for this label. */
  datatype QueryError = IndexError(idx: int)

  /** One logical record: a vector and the metadata describing it. */
  datatype Entry<M> = Entry(vector: Vector, metadata: M)

  /** The central invariant: index and store have one slot per logical record
      of `ledger`, and position `p` of each describes record `p`. */
  ghost predicate Aligned<M>(db: Db<M>, ledger: seq<Entry<M>>)
  {
    && |db.index.vectors| == |ledger|
    && |db.metadata| == |ledger|
    && forall p :: 0 <= p < |ledger| ==>
         db.index.vectors[p] == ledger[p].vector && db.metadata[p] == ledger[p].metadata
  }

  function Zip<M>(vectors: seq<Vector>, records: seq<M>): (es: seq<Entry<M>>)
    requires |vectors| == |records|
    ensures |es| == |vectors|
    ensures forall i :: 0 <= i < |es| ==> es[i] == Entry(vectors[i], records[i])
  {
    seq(|vectors|, i requires 0 <= i < |vectors| => Entry(vectors[i], records[i]))
  }

  /** Python's `xs[idx]` on a list: a negative index counts from the end, and
      an index outside `-len(xs) .. len(xs) - 1` raises `IndexError` (`None`). */
  function PyIndex<M>(xs: seq<M>, idx: int): (r: Option<M>)
    ensures r.Some? <==> -|xs| <= idx < |xs|
    ensures 0 <= idx < |xs| ==> r == Some(xs[idx])
  {
    if 0 <= idx < |xs| then Some(xs[idx])
    else if -|xs| <= idx < 0 then Some(xs[|xs| + idx])
    else None
  }

  // ---------------------------------------------------------------------------
  // add_to_faiss

  /** `add_to_faiss(index, metadata_store, embeddings, metadata_list)`: both
      sides are appended to, the index by `index.add` and the store by
      `list.extend`, and nothing already stored changes. The dimension check
      is faiss's own, so it is a precondition here. */
  function AddToFaiss<M>(db: Db<M>, embeddings: seq<Vector>, batch: seq<M>): (r: Db<M>)
    requires Valid(db.index) && FitsDim(db.index.dim, embeddings)
    ensures Valid(r.index) && r.index.dim == db.index.dim
    ensures |r.index.vectors| == |db.index.vectors| + |embeddings|
    ensures |r.metadata| == |db.metadata| + |batch|
    ensures forall p :: 0 <= p < |db.index.vectors| ==> r.index.vectors[p] == db.index.vectors[p]
    ensures forall p :: 0 <= p < |db.metadata| ==> r.metadata[p] == db.metadata[p]
    ensures forall i :: 0 <= i < |embeddings| ==> r.index.vectors[|db.index.vectors| + i] == embeddings[i]
    ensures forall i :: 0 <= i < |batch| ==> r.metadata[|db.metadata| + i] == batch[i]
  {
    Db(Add(db.index, embeddings), db.metadata + batch)
  }

  /** With a distinct store and a batch whose records correspond one-to-one
      to the embeddings, an aligned pair stays aligned: the new records are
      appended to the ledger, vector `i` beside record `i`. */
  lemma AddKeepsAlignment<M>(db: Db<M>, ledger: seq<Entry<M>>, embeddings: seq<Vector>, batch: seq<M>)
    requires Valid(db.index) && FitsDim(db.index.dim, embeddings)
    requires Aligned(db, ledger)
    requires |embeddings| == |batch|
    ensures Aligned(AddToFaiss(db, embeddings, batch), ledger + Zip(embeddings, batch))
  {
    var r := AddToFaiss(db, embeddings, batch);
    var l := ledger + Zip(embeddings, batch);
    forall p | 0 <= p < |l|
      ensures r.index.vectors[p] == l[p].vector && r.metadata[p] == l[p].metadata
    {
      if p >= |ledger| {
        assert r.index.vectors[|db.index.vectors| + (p - |ledger|)] == embeddings[p - |ledger|];
      }
    }
  }

  /** The call as both call sites write it, `add_to_faiss(index, metadata,
      embeddings, metadata)`: store and batch are one list, and a list
      extended by itself doubles. */
  function AddToFaissAliased<M>(db: Db<M>, embeddings: seq<Vector>): (r: Db<M>)
    requires Valid(db.index) && FitsDim(db.index.dim, embeddings)
    ensures |r.metadata| == 2 * |db.metadata|
    ensures |r.index.vectors| == |db.index.vectors| + |embeddings|
  {
    AddToFaiss(db, embeddings, db.metadata)
  }

  /** Even when the batch matches the embeddings in length, the aliased call
      leaves the two sides of equal length only if they already were of
      equal length before it. */
  lemma AliasedAddLengthsIff<M>(db: Db<M>, embeddings: seq<Vector>)
    requires Valid(db.index) && FitsDim(db.index.dim, embeddings)
    requires |embeddings| == |db.metadata|
    ensures var r := AddToFaissAliased(db, embeddings);
            |r.index.vectors| == |r.metadata| <==> |db.index.vectors| == |db.metadata|
  {
  }

  /** From a fresh index, as at both call sites, the aliased call of a
      non-empty batch leaves more metadata records than vectors, so no ledger
      describes the result. */
  lemma AliasedAddFromEmptyMisaligns<M>(db: Db<M>, embeddings: seq<Vector>)
    requires Valid(db.index) && FitsDim(db.index.dim, embeddings)
    requires |db.index.vectors| == 0
    requires |embeddings| == |db.metadata| > 0
    ensures var r := AddToFaissAliased(db, embeddings);
            |r.index.vectors| < |r.metadata|
    ensures forall ledger :: !Aligned(AddToFaissAliased(db, embeddings), ledger)
  {
  }

  // ---------------------------------------------------------------------------
  // query_faiss_index

  /** The result list after the loop over the first `n` result slots:
      `-1` slots are skipped, every other slot appends its distance and
      `metadata_store[idx]`, and an out-of-range `idx` raises at once. */
  function Collect<M>(store: seq<M>, out: SearchOutput, n: nat): (r: Result<seq<Hit<M>>, QueryError>)
    requires |out.distances| == |out.labels| && n <= |out.labels|
    ensures r.Success? ==> |r.value| <= n
  {
    if n == 0 then Success([])
    else
      var prev :- Collect(store, out, n - 1);
      var idx := out.labels[n - 1];
      if idx == Missing then Success(prev)
      else
        match PyIndex(store, idx)
        case None => Failure(IndexError(idx))
        case Some(m) => Success(prev + [Hit(out.distances[n - 1], m)])
  }

  /** `query_faiss_index(index, metadata_store, query, k)`, given the row
      `(distances, labels)` that `index.search(query, k)` returned. */
  function QueryFaissIndex<M>(store: seq<M>, out: SearchOutput): (r: Result<seq<Hit<M>>, QueryError>)
    requires |out.distances| == |out.labels|
    ensures r.Success? ==> |r.value| <= |out.labels|
  {
    Collect(store, out, |out.labels|)
  }

  /** The slots among the first `n` that carry a label, in slot order. */
  function KeptSlots(labels: seq<int>, n: nat): (ks: seq<nat>)
    requires n <= |labels|
    ensures forall j :: 0 <= j < |ks| ==> ks[j] < n && labels[ks[j]] != Missing
    ensures forall j, j' :: 0 <= j < j' < |ks| ==> ks[j] < ks[j']
    ensures forall i :: 0 <= i < n && labels[i] != Missing ==> i in ks
  {
    if n == 0 then []
    else KeptSlots(labels, n - 1) + (if labels[n - 1] == Missing then [] else [n - 1])
  }

  predicate Resolvable<M>(store: seq<M>, labels: seq<int>, n: nat)
    requires n <= |labels|
  {
    forall i :: 0 <= i < n && labels[i] != Missing ==> PyIndex(store, labels[i]).Some?
  }

  /** The loop fails exactly when some labelled slot names no store position;
      otherwise it returns one entry per labelled slot, in slot order, pairing
      the slot's distance with the record at the slot's label. */
  lemma {:induction false} CollectMatchesSlots<M>(store: seq<M>, out: SearchOutput, n: nat)
    requires |out.distances| == |out.labels| && n <= |out.labels|
    ensures Collect(store, out, n).Success? <==> Resolvable(store, out.labels, n)
    ensures Collect(store, out, n).Success? ==>
              var r := Collect(store, out, n).value;
              var ks := KeptSlots(out.labels, n);
              && |r| == |ks|
              && forall j :: 0 <= j < |r| ==>
                   r[j] == Hit(out.distances[ks[j]], PyIndex(store, out.labels[ks[j]]).value)
  {
    if n > 0 {
      CollectMatchesSlots(store, out, n - 1);
    }
  }

  /** Over the output of an exact search and a store at least as long as the
      index (always so for an aligned pair), the query never fails, returns
      `min(k, size)` entries in search order, each with the record at its
      label and its true distance; scores never decrease, and no record left
      out is nearer than one returned. An empty index gives an empty list. */
  lemma QueryExactSearch<M>(ix: Index, store: seq<M>, q: Vector, k: nat, out: SearchOutput)
    requires Valid(ix) && |q| == ix.dim
    requires IsExactKnn(ix, q, k, out)
    requires |store| >= |ix.vectors|
    ensures QueryFaissIndex(store, out).Success?
    ensures var r := QueryFaissIndex(store, out).value;
            var m := Min(k, |ix.vectors|);
            && |r| == m
            && (forall j :: 0 <= j < m ==>
                  r[j] == Hit(Dist(ix, q, out.labels[j]), store[out.labels[j]]))
            && (forall j, j' :: 0 <= j < j' < m ==> r[j].score <= r[j'].score)
            && (forall p, j :: 0 <= p < |ix.vectors| && 0 <= j < m && p !in out.labels[..m] ==>
                  r[j].score <= Dist(ix, q, p))
  {
    var m := Min(k, |ix.vectors|);
    CollectMatchesSlots(store, out, k);
    KeptSlotsOfPrefix(out.labels, k, m);
  }

  /** When exactly the first `m` slots are labelled, the kept slots are
      `0 .. m - 1`. */
  lemma {:induction false} KeptSlotsOfPrefix(labels: seq<int>, n: nat, m: nat)
    requires n <= |labels| && m <= |labels|
    requires forall i :: 0 <= i < m ==> labels[i] != Missing
    requires forall i :: m <= i < |labels| ==> labels[i] == Missing
    ensures |KeptSlots(labels, n)| == Min(n, m)
    ensures forall j :: 0 <= j < Min(n, m) ==> KeptSlots(labels, n)[j] == j
  {
    if n > 0 {
      KeptSlotsOfPrefix(labels, n - 1, m);
    }
  }

  /** Over an aligned pair, each returned entry is one logical record: its
      metadata and its score come from the same ledger position. */
  lemma QueryAlignedRecords<M>(db: Db<M>, ledger: seq<Entry<M>>, q: Vector, k: nat, out: SearchOutput)
    requires Valid(db.index) && |q| == db.index.dim
    requires Aligned(db, ledger)
    requires IsExactKnn(db.index, q, k, out)
    ensures QueryFaissIndex(db.metadata, out).Success?
    ensures var r := QueryFaissIndex(db.metadata, out).value;
            forall j :: 0 <= j < |r| ==>
              0 <= out.labels[j] < |ledger|
              && r[j].metadata == ledger[out.labels[j]].metadata
              && |ledger[out.labels[j]].vector| == |q|
              && r[j].score == SqDist(q, ledger[out.labels[j]].vector)
  {
    QueryExactSearch(db.index, db.metadata, q, k, out);
  }

  // ---------------------------------------------------------------------------
  // get_embedding

  datatype EmbeddingError = UnsupportedDataType(message: string)

  /** `get_embedding(data, data_type)`: `"text"` encodes a one-element batch,
      `"image"` falls through to `None`, and anything else raises
      `ValueError`. The text encoder is a parameter. */
  function GetEmbedding(data: string, dataType: string, encode: string -> Vector)
    : (r: Result<Option<seq<Vector>>, EmbeddingError>)
    ensures r.Failure? <==> dataType != "text" && dataType != "image"
    ensures r.Failure? ==> r.error.message == "Unsupported data type: " + dataType
    ensures dataType == "image" ==> r == Success(None)
    ensures dataType == "text" ==> r.Success? && r.value.Some? && |r.value.value| == 1
                                   && r.value.value[0] == encode(data)
  {
    if dataType == "text" then Success(Some([encode(data)]))
    else if dataType == "image" then Success(None)
    else Failure(UnsupportedDataType("Unsupported data type: " + dataType))
  }
}
