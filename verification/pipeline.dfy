/** The two paths `main.py` wires together: building the index from the
    processed audio chunks, and answering one query against it. */
module Pipeline {
  import opened Wrappers
  import opened Seqs
  import opened Records
  import opened FlatIndex
  import opened VectorDatabase
  import opened ProcessAudio
  import opened Rag

  /** `query_faiss_index(..., k=10)` in `run_query`. */
  const QueryK: nat := 10

  /** A processed result whose records each carry the text of the chunk at the
      same position, as `process_audio` builds them. */
  predicate Consistent(p: Processed)
  {
    && |p.transcription| == |p.metadata|
    && forall j :: 0 <= j < |p.metadata| ==> TextField(p.metadata[j]) == Some(p.transcription[j])
  }

  lemma ProcessAudioConsistent(
    path: string, fileSize: int, transcript: Transcript,
    encode: string -> Vector, chunkSize: int)
    requires chunkSize != 0
    ensures Consistent(ProcessAudio.ProcessAudio(path, fileSize, transcript, encode, chunkSize).value)
  {
  }

  /** Every processed video in `ps` is consistent. */
  predicate AllConsistent(ps: seq<Processed>)
  {
    forall i :: 0 <= i < |ps| ==> Consistent(ps[i])
  }

  /** `texts += processed_data["transcription"]` over every processed video. */
  function AllTexts(ps: seq<Processed>): seq<string>
  {
    if ps == [] then [] else ps[0].transcription + AllTexts(ps[1..])
  }

  /** `metadata += processed_data["metadata"]` over every processed video;
      over consistent results it is as long as the accumulated texts. */
  function AllMetadata(ps: seq<Processed>): (ms: seq<Metadata>)
    ensures AllConsistent(ps) ==> |ms| == |AllTexts(ps)|
  {
    if ps == [] then [] else ps[0].metadata + AllMetadata(ps[1..])
  }

  /** The accumulated lists stay parallel: record `i` carries text `i`. */
  lemma {:induction false} AccumulatedParallel(ps: seq<Processed>)
    requires AllConsistent(ps)
    ensures forall i :: 0 <= i < |AllTexts(ps)| ==> TextField(AllMetadata(ps)[i]) == Some(AllTexts(ps)[i])
  {
    if ps != [] {
      AccumulatedParallel(ps[1..]);
      var t0 := ps[0].transcription;
      forall i | 0 <= i < |AllTexts(ps)|
        ensures TextField(AllMetadata(ps)[i]) == Some(AllTexts(ps)[i])
      {
        if i >= |t0| {
          assert AllTexts(ps)[i] == AllTexts(ps[1..])[i - |t0|];
          assert AllMetadata(ps)[i] == AllMetadata(ps[1..])[i - |t0|];
        }
      }
    }
  }

  /** `embedding_model.encode(texts)`: one vector per text, in order. */
  function EncodeAll(texts: seq<string>, encode: string -> Vector): (vs: seq<Vector>)
    ensures |vs| == |texts|
    ensures forall i :: 0 <= i < |texts| ==> vs[i] == encode(texts[i])
  {
    seq(|texts|, i requires 0 <= i < |texts| => encode(texts[i]))
  }

  ghost predicate EncoderFits(dim: nat, encode: string -> Vector)
  {
    forall t :: |encode(t)| == dim
  }

  /** The build as `main.py` writes it: a fresh index, and the accumulated
      metadata list passed as both the store and the batch. */
  function BuildIndexAsWritten(dim: nat, ps: seq<Processed>, encode: string -> Vector): (db: Db<Metadata>)
    requires EncoderFits(dim, encode)
    ensures |db.index.vectors| == |AllTexts(ps)|
    ensures |db.metadata| == 2 * |AllMetadata(ps)|
  {
    var embeddings := EncodeAll(AllTexts(ps), encode);
    AddToFaissAliased(Db(Empty(dim), AllMetadata(ps)), embeddings)
  }

  /** The build with a separate, initially empty store. */
  function BuildIndex(dim: nat, ps: seq<Processed>, encode: string -> Vector): (db: Db<Metadata>)
    requires EncoderFits(dim, encode)
    ensures Valid(db.index) && db.index.dim == dim
  {
    var embeddings := EncodeAll(AllTexts(ps), encode);
    AddToFaiss(Db(Empty(dim), []), embeddings, AllMetadata(ps))
  }

  /** The chunks' ledger: embedding `i` beside record `i`. */
  function Ledger(ps: seq<Processed>, encode: string -> Vector): (l: seq<Entry<Metadata>>)
    requires AllConsistent(ps)
    ensures |l| == |AllTexts(ps)|
  {
    Zip(EncodeAll(AllTexts(ps), encode), AllMetadata(ps))
  }

  /** The corrected build is aligned with the chunks' ledger. */
  lemma BuildIndexAligned(dim: nat, ps: seq<Processed>, encode: string -> Vector)
    requires EncoderFits(dim, encode)
    requires AllConsistent(ps)
    ensures Aligned(BuildIndex(dim, ps, encode), Ledger(ps, encode))
  {
    var embeddings := EncodeAll(AllTexts(ps), encode);
    var db0: Db<Metadata> := Db(Empty(dim), []);
    var ledger := Zip(embeddings, AllMetadata(ps));
    AddKeepsAlignment(db0, [], embeddings, AllMetadata(ps));
    EmptyAppend(ledger);
  }

  /** Every record the corrected build stores carries a text, and sits
      beside the embedding of that text. */
  lemma BuildIndexRecordsText(dim: nat, ps: seq<Processed>, encode: string -> Vector)
    requires EncoderFits(dim, encode)
    requires AllConsistent(ps)
    ensures var db := BuildIndex(dim, ps, encode);
            forall p :: 0 <= p < |db.metadata| ==>
              && p < |db.index.vectors|
              && TextField(db.metadata[p]).Some?
              && db.index.vectors[p] == encode(TextField(db.metadata[p]).value)
  {
    BuildIndexAligned(dim, ps, encode);
    AccumulatedParallel(ps);
  }

  /** The build as written stores every record twice: the first half is still
      beside the right vectors, but the second half has no vectors at all, so
      no ledger describes the pair. */
  lemma BuildIndexAsWrittenMisaligned(dim: nat, ps: seq<Processed>, encode: string -> Vector)
    requires EncoderFits(dim, encode)
    requires AllConsistent(ps)
    requires |AllTexts(ps)| > 0
    ensures var db := BuildIndexAsWritten(dim, ps, encode);
            && |db.metadata| == 2 * |db.index.vectors|
            && (forall ledger :: !Aligned(db, ledger))
            && (forall p :: 0 <= p < |db.index.vectors| ==>
                  TextField(db.metadata[p]).Some?
                  && db.index.vectors[p] == encode(TextField(db.metadata[p]).value))
  {
    AccumulatedParallel(ps);
  }

  // ---------------------------------------------------------------------------
  // run_query

  datatype Answer = Answer(prompt: string, grounded: string, ungrounded: string)

  datatype RunError = QueryFailed(queryError: QueryError) | PromptFailed(promptError: PromptError)

  /** `get_embedding(query_text, "text")` in `run_query`: the single row of
      the one-element batch the query encoder returns. The query encoder is
      the one `vector_database.py` loads for itself, which need not be the
      model `main.py` builds the index with. */
  function QueryVector(query: string, queryEncode: string -> Vector): (v: Vector)
    ensures v == queryEncode(query)
  {
    GetEmbedding(query, "text", queryEncode).value.value[0]
  }

  /** `run_query(query_text)`: embed the query, search with `k = 10`, build the
      prompt from the hits, then ask the provider once with the prompt and once
      with the bare query. `out` is the search row for the query's
      embedding. The call fails exactly when the lookup of a label or of a
      record's text fails, with that error; otherwise the prompt is the one
      `build_prompt` makes from the hits. */
  function RunQuery(
    db: Db<Metadata>, query: string, queryEncode: string -> Vector, out: SearchOutput,
    model: string, provider: (string, string) -> Outcome)
    : (r: Result<Answer, RunError>)
    requires Valid(db.index) && |queryEncode(query)| == db.index.dim
    requires IsExactKnn(db.index, QueryVector(query, queryEncode), QueryK, out)
    ensures QueryFaissIndex(db.metadata, out).Failure? ==>
              r == Failure(QueryFailed(QueryFaissIndex(db.metadata, out).error))
    ensures r.Success? <==>
              && QueryFaissIndex(db.metadata, out).Success?
              && BuildPrompt(query, QueryFaissIndex(db.metadata, out).value).Success?
    ensures r.Success? ==> r.value.prompt == BuildPrompt(query, QueryFaissIndex(db.metadata, out).value).value
    ensures r.Success? ==> r.value.ungrounded == GenerateResponse(query, model, provider)
    ensures r.Success? ==> r.value.grounded == GenerateResponse(r.value.prompt, model, provider)
  {
    match QueryFaissIndex(db.metadata, out)
    case Failure(e) => Failure(QueryFailed(e))
    case Success(results) =>
      match BuildPrompt(query, results)
      case Failure(e) => Failure(PromptFailed(e))
      case Success(prompt) =>
        Success(Answer(prompt, GenerateResponse(prompt, model, provider), GenerateResponse(query, model, provider)))
  }

  /** The texts of the records at the first `m` labels, in slot order. */
  function LabelTexts(store: seq<Metadata>, labels: seq<int>, m: nat): (ts: seq<string>)
    requires m <= |labels|
    requires forall j :: 0 <= j < m ==> 0 <= labels[j] < |store| && TextField(store[labels[j]]).Some?
    ensures |ts| == m
    ensures forall j :: 0 <= j < m ==> ts[j] == TextField(store[labels[j]]).value
  {
    seq(m, j requires 0 <= j < m => TextField(store[labels[j]]).value)
  }

  /** Over any pair whose store covers the index and whose records at
      indexed positions all carry a text, a query succeeds, and its prompt
      lists the texts of the records at the labels the search returned, in
      search order. */
  lemma RunQueryPrompt(
    db: Db<Metadata>, query: string, queryEncode: string -> Vector, out: SearchOutput,
    model: string, provider: (string, string) -> Outcome)
    requires Valid(db.index) && |queryEncode(query)| == db.index.dim
    requires IsExactKnn(db.index, QueryVector(query, queryEncode), QueryK, out)
    requires |db.metadata| >= |db.index.vectors|
    requires forall p :: 0 <= p < |db.index.vectors| ==> TextField(db.metadata[p]).Some?
    ensures var m := Min(QueryK, |db.index.vectors|);
            && (forall j :: 0 <= j < m ==>
                  0 <= out.labels[j] < |db.metadata| && TextField(db.metadata[out.labels[j]]).Some?)
            && RunQuery(db, query, queryEncode, out, model, provider).Success?
            && RunQuery(db, query, queryEncode, out, model, provider).value.prompt
               == PromptFromTexts(query, LabelTexts(db.metadata, out.labels, m))
  {
    var m := Min(QueryK, |db.index.vectors|);
    QueryExactSearch(db.index, db.metadata, QueryVector(query, queryEncode), QueryK, out);
    var results := QueryFaissIndex(db.metadata, out).value;
    assert forall j :: 0 <= j < m ==> results[j].metadata == db.metadata[out.labels[j]];
    var ts := LabelTexts(db.metadata, out.labels, m);
    assert Texts(results).Some?;
    assert Texts(results).value == ts;
  }

  /** Against an index built by the corrected build, a query always succeeds,
      and its prompt lists, in search order, the texts of the `min(10, size)`
      chunks whose embeddings are nearest the query's. The chunks are
      embedded with `encode` and the query with `queryEncode`, which need
      only agree on the dimension. */
  lemma RunQueryOnBuiltIndex(
    dim: nat, ps: seq<Processed>, query: string,
    encode: string -> Vector, queryEncode: string -> Vector, out: SearchOutput,
    model: string, provider: (string, string) -> Outcome)
    requires EncoderFits(dim, encode)
    requires AllConsistent(ps)
    requires |queryEncode(query)| == dim
    requires IsExactKnn(BuildIndex(dim, ps, encode).index, QueryVector(query, queryEncode), QueryK, out)
    ensures var db := BuildIndex(dim, ps, encode);
            var m := Min(QueryK, |db.index.vectors|);
            && (forall j :: 0 <= j < m ==>
                  0 <= out.labels[j] < |db.metadata| && TextField(db.metadata[out.labels[j]]).Some?)
            && RunQuery(db, query, queryEncode, out, model, provider).Success?
            && RunQuery(db, query, queryEncode, out, model, provider).value.prompt
               == PromptFromTexts(query, LabelTexts(db.metadata, out.labels, m))
  {
    BuildIndexRecordsText(dim, ps, encode);
    RunQueryPrompt(BuildIndex(dim, ps, encode), query, queryEncode, out, model, provider);
  }

  /** The two generation calls are isolated: the bare-query answer depends
      only on what the provider does for the bare query, whatever it does
      for the prompt. */
  lemma UngroundedIsolated(
    db: Db<Metadata>, query: string, queryEncode: string -> Vector, out: SearchOutput,
    model: string, p1: (string, string) -> Outcome, p2: (string, string) -> Outcome)
    requires Valid(db.index) && |queryEncode(query)| == db.index.dim
    requires IsExactKnn(db.index, QueryVector(query, queryEncode), QueryK, out)
    requires p1(query, model) == p2(query, model)
    ensures RunQuery(db, query, queryEncode, out, model, p1).Success?
            <==> RunQuery(db, query, queryEncode, out, model, p2).Success?
    ensures RunQuery(db, query, queryEncode, out, model, p1).Success? ==>
              RunQuery(db, query, queryEncode, out, model, p1).value.ungrounded
              == RunQuery(db, query, queryEncode, out, model, p2).value.ungrounded
  {
  }
}
