# grace retrieval core, modelled in Dafny

grace answers questions about YouTube videos with retrieval-augmented
generation. The model covers five pieces of that pipeline:

- `process_audio` cuts a transcript into chunks of `chunk_size` words and gives each chunk one metadata record.
- `process_text_data` rejects blank text and records the source, length and word count of the rest.
- The build in `main.py` embeds every chunk and adds the embeddings and records to a faiss `IndexFlatL2`.
- `run_query` embeds the question, finds the ten nearest chunks, builds a numbered-context prompt and asks the language model twice: once with the prompt and once with the bare question.
- The vector-store helpers `add_to_faiss`, `query_faiss_index` and `get_embedding` keep a Python list of metadata records beside the faiss index.

Modules, one per concern:

- `Wrappers`: `Option` and `Result`.
- `Seqs`: flattening and slice facts.
- `Words`: Python's `str.split()`, `str.strip()` emptiness, `sep.join` and one-character `str.split(c)`.
- `Chunking`: the comprehension `[xs[i:i+n] for i in range(0, len(xs), n)]`.
- `Records`: the metadata dictionaries.
- `FlatIndex`: `IndexFlatL2`, specified by an exact k-nearest predicate, plus one concrete search that satisfies it.
- `VectorDatabase`, `ProcessAudio`, `ProcessText`, `Rag` and `Pipeline`: one module each for the Python files.

Transcription, the sentence encoders, the file-size lookup and the
chat-completion service are all parameters. There are two encoders, each a
function from text to vector, because the source loads two models:

- `encode` embeds the chunks. It is the configured `EMBEDDING_MODEL` of main.py.
- `queryEncode` embeds the question through `get_embedding`. It is the `all-MiniLM-L6-v2` model that vector_database.py loads for itself.

The two need only agree on the dimension. The chat service is a function from
prompt and model to an `Outcome`: either content or an exception message.

Integer vectors stand in for float32 embeddings, so every distance is exact.
`IndexFlatL2` reports squared Euclidean distance, so a search from
`[1, 0, 0]` reports 2 for `[0, 1, 0]` (`FlatIndex.UnitSearchAnyExact`).

## Model

| member | source | states |
|---|---|---|
| Words.IsBlank | code/input_processing/process_text.py:26 | `not text.strip()`: every character is Python whitespace, the empty string included; blank exactly when `str.split()` yields nothing (`Words.SplitEmptyIffBlank`) |
| Words.Split | code/input_processing/process_audio.py:77 | `transcription.split()` yields only non-empty, whitespace-free words |
| Words.SplitEmptyIffBlank | code/input_processing/process_text.py:26-27 | `text.split()` is empty exactly when `text.strip()` is empty, so the blank-text rejection and the word count agree |
| Words.SplitKeepsAllNonSpace | code/input_processing/process_audio.py:77 | splitting drops only whitespace: the words, concatenated, are the transcript's non-whitespace characters in order |
| Words.WordCountAtMostLength | code/input_processing/process_text.py:35-36 | `word_count` never exceeds the non-whitespace character count, which never exceeds `text_length` |
| Words.SplitAfterSpace | code/input_processing/process_audio.py:77 | leading whitespace does not change the words |
| Words.SplitWordThen | code/input_processing/process_audio.py:77 | a word followed by whitespace or the end splits off as the first element |
| Words.SplitOfWord | code/input_processing/process_audio.py:77 | a single word splits to itself |
| Words.SplitJoinRoundTrip | code/input_processing/process_audio.py:77-78 | `' '.join` of words, split again, gives back exactly those words |
| Words.JoinWith | code/input_processing/process_audio.py:78 | `sep.join(parts)`, also used for `"\n".join` at rag.py:51: no parts give the empty string, and otherwise the result is at least as long as the first part plus one separator per later part (`Words.JoinWithPartAt` places every part, `Words.JoinWithLength` gives the exact length) |
| Words.JoinWithLength | code/rag.py:51 | the joined string's length is the start of the last part plus that part's length |
| Words.JoinWithPartAt | code/rag.py:51 | each part sits unchanged at its computed offset inside the joined string |
| Words.PartStartIncreasing | code/rag.py:51 | with a non-empty separator, an earlier part ends strictly before a later one begins |
| Words.SplitOnJoinRoundTrip | code/rag.py:51 | splitting a `"\n".join` on newline gives the parts back when no part contains a newline |
| Chunking.Chunks | code/input_processing/process_audio.py:78 | every piece holds between 1 and `n` elements, and there are no more pieces than elements |
| Chunking.ChunksFlatten | code/input_processing/process_audio.py:78 | the pieces concatenate back to the word list: nothing is lost, duplicated or reordered |
| Chunking.ChunkAt | code/input_processing/process_audio.py:78 | piece `i` is the Python slice `words[i*n : i*n + n]`, clamped at the end |
| Chunking.ChunksFullExceptLast | code/input_processing/process_audio.py:78 | every piece except the last holds exactly `n` elements |
| Chunking.ChunksCount | code/input_processing/process_audio.py:78 | with `c` pieces, `(c-1)*n < len <= c*n`, and there are no pieces exactly when the list is empty |
| Chunking.ChunksCountDiv | code/input_processing/process_audio.py:78 | the piece count is `ceil(len / n)`, the length of `range(0, len, n)` |
| Records.TextField | code/rag.py:51 | `record['text']` is found on every audio-chunk record, and on a dictionary record exactly when the key is present; the value found is the record's `text` |
| FlatIndex.SqDist | code/vector_database.py:24 | the `IndexFlatL2` metric: the sum of squared component differences, never negative |
| FlatIndex.SqDistZeroIff | code/vector_database.py:24 | the L2 distance of the index is zero exactly for identical vectors |
| FlatIndex.Empty | main.py:53 | `IndexFlatL2(dim)` is a valid, empty index of that dimension |
| FlatIndex.Add | code/vector_database.py:90 | `index.add` appends: earlier labels keep their vectors and batch vector `i` receives label `size + i` |
| FlatIndex.IsExactKnn | code/vector_database.py:111 | what `index.search(query, k)` returns: `k > 0`; the first `min(k, size)` slots hold distinct stored labels with their true squared distances, in non-decreasing order; no unreturned vector is nearer than a returned one; the remaining slots hold -1 and FLT_MAX; the order among equal distances is left open (`FlatIndex.ExactSearchIsExact` shows the search meets it) |
| FlatIndex.ExactSearch | code/vector_database.py:111 | a reference search returning `k` distances and `k` labels; `FlatIndex.ExactSearchIsExact` proves it meets `IsExactKnn` |
| FlatIndex.InsertKey | code/vector_database.py:111 | inserting into the sorted candidate list keeps it sorted and adds exactly the one key |
| FlatIndex.SortKeys | code/vector_database.py:111 | sorting the (distance, label) keys is a sorted permutation of them |
| FlatIndex.Keys | code/vector_database.py:111 | there is one candidate per stored vector, carrying its label and its true distance to the query |
| FlatIndex.ExactSearchSlots | code/vector_database.py:111 | the concrete search fills `min(k, size)` slots with stored labels and their true distances, and the rest with label -1 and distance FLT_MAX |
| FlatIndex.ExactSearchOrdered | code/vector_database.py:111 | the filled slots are in increasing (distance, label) order |
| FlatIndex.ExactSearchNearest | code/vector_database.py:111 | no unreturned vector precedes a returned one in (distance, label) order |
| FlatIndex.ExactSearchIsExact | code/vector_database.py:111 | the concrete search satisfies the exact k-nearest contract that faiss promises, and breaks ties towards the smaller label |
| FlatIndex.UnitDistances | code/vector_database.py:111 | from `[1,0,0]`, the three unit vectors lie at squared distances 0, 2 and 2 |
| FlatIndex.UnitSearchAnyExact | code/vector_database.py:111 | any exact search with k = 2 returns label 0 at distance 0 first, then label 1 or 2 at squared distance 2 |
| FlatIndex.UnitSearchTieBreak | code/vector_database.py:111 | an exact search that prefers smaller labels returns labels `[0, 1]` with distances `[0, 2]` |
| FlatIndex.UnitSearchConcrete | code/vector_database.py:111 | the concrete search returns labels `[0, 1]` and distances `[0, 2]` on that example |
| VectorDatabase.PyIndex | code/vector_database.py:118 | `metadata_store[idx]` succeeds exactly for `-len <= idx < len`, and gives element `idx` for a non-negative index |
| VectorDatabase.AddToFaiss | code/vector_database.py:90-93 | both the index and the store are appended to, nothing already stored changes, and each batch element lands at the old length plus its position |
| VectorDatabase.AddKeepsAlignment | code/vector_database.py:90-93 | with a separate store and a batch that matches the embeddings one-to-one, an aligned index/store pair stays aligned with the ledger extended by the batch |
| VectorDatabase.AddToFaissAliased | code/vector_database.py:144 | passing the store as its own batch doubles the store while the index grows only by the embeddings |
| VectorDatabase.AliasedAddLengthsIff | code/vector_database.py:144 | after the aliased call, index and store have equal lengths only if they already did before it |
| VectorDatabase.AliasedAddFromEmptyMisaligns | code/vector_database.py:144 | from a fresh index, the aliased call of a non-empty batch leaves more records than vectors, so no ledger is aligned with the result |
| VectorDatabase.Collect | code/vector_database.py:114-119 | the loop never returns more entries than it visited slots |
| VectorDatabase.QueryFaissIndex | code/vector_database.py:111-119 | a query returns at most `k` entries |
| VectorDatabase.KeptSlots | code/vector_database.py:115-117 | the labelled slots, and only those, in increasing slot order |
| VectorDatabase.CollectMatchesSlots | code/vector_database.py:114-119 | the loop fails exactly when a labelled slot names no store position; otherwise it returns one entry per labelled slot, in slot order, with that slot's distance and record |
| VectorDatabase.KeptSlotsOfPrefix | code/vector_database.py:115-117 | when exactly the first `m` slots are labelled, the kept slots are `0 .. m-1` |
| VectorDatabase.QueryExactSearch | code/vector_database.py:111-119 | over an exact search and a store covering the index, the query succeeds and returns `min(k, size)` entries in search order, each with its label's record and true distance, with non-decreasing scores and no omitted record nearer |
| VectorDatabase.QueryAlignedRecords | code/vector_database.py:111-118 | over an aligned pair, each entry's record and score come from the same logical record |
| VectorDatabase.GetEmbedding | code/vector_database.py:38-44 | `"text"` encodes a one-element batch, `"image"` gives `None`, and any other type raises `ValueError` with its message |
| ProcessAudio.Basename | code/input_processing/process_audio.py:88 | `os.path.basename` is the suffix after the last `/`, and contains no `/` |
| ProcessAudio.BasenameOfJoin | code/input_processing/process_audio.py:88 | the basename of `dir + "/" + name` is `name` whenever `name` contains no `/` |
| ProcessAudio.ChunkTexts | code/input_processing/process_audio.py:78 | a chunk size of 0 raises, as `range` with step 0 does, and a negative chunk size gives no chunks |
| ProcessAudio.ProcessAudio | code/input_processing/process_audio.py:77-100 | the three returned lists are parallel; record `j` carries chunk `j`'s text with the file's basename, size and duration; embedding `j` encodes chunk `j` |
| ProcessAudio.ChunkTextSplitsBack | code/input_processing/process_audio.py:77-78 | chunk text `i`, split again, is exactly the `i`-th slice of words |
| ProcessAudio.ChunkTextsRoundTrip | code/input_processing/process_audio.py:77-78 | the chunk texts' words, concatenated, are the transcript's words |
| ProcessAudio.ChunkTextsWordCounts | code/input_processing/process_audio.py:78 | each chunk text holds 1 to `chunk_size` words, and exactly `chunk_size` for all but the last |
| ProcessAudio.ChunkTextsCount | code/input_processing/process_audio.py:78 | there are `ceil(len(words) / chunk_size)` chunk texts |
| ProcessAudio.ChunkTextsNoneIffBlank | code/input_processing/process_audio.py:77-78 | a transcript gives no chunks exactly when it is blank |
| ProcessAudio.ChunkTextsNonBlank | code/input_processing/process_audio.py:78 | no chunk text is blank |
| ProcessAudio.ProcessAudioTranscription | code/input_processing/process_audio.py:96-97 | the returned transcription list is the list of chunk texts |
| ProcessAudio.ProcessAudioChunks | code/input_processing/process_audio.py:77-100 | the returned transcription list splits back into the transcript's words, with at most `chunk_size` words per entry and exactly that many in all but the last |
| ProcessText.SourceOrUnknown | code/input_processing/process_text.py:34 | `source or "unknown"`: a missing or empty source becomes `"unknown"`, and any other source is kept |
| ProcessText.ProcessTextData | code/input_processing/process_text.py:26-46 | blank text, and only blank text, raises; otherwise the text comes back unchanged with its encoding, its length, its `split()` word count and the source label `source or "unknown"` |
| ProcessText.ProcessTextCounts | code/input_processing/process_text.py:35-36 | accepted text has at least one word and no more words than characters |
| Rag.Decimal | code/rag.py:51 | `str(i+1)` is a non-empty string of decimal digits |
| Rag.DecimalRoundTrip | code/rag.py:51 | reading the numeral back gives the number |
| Rag.NumberedLine | code/rag.py:51 | `f"{n}. {text}"`: the text is the suffix after at least three characters (the numeral, `.` and a space) |
| Rag.NumberedLineRoundTrip | code/rag.py:51 | `f"{n}. {text}"` parses back to `n` and `text` |
| Rag.ContextLines | code/rag.py:51 | line `i` is `f"{i+1}. {text_i}"`, one line per result |
| Rag.Context | code/rag.py:51 | the `"\n".join` of the numbered lines: empty exactly when there are no results (`Rag.ContextRoundTrip` reads every line back) |
| Rag.PromptFromTexts | code/rag.py:53-58 | the template: the instruction, `Context:\n`, the context block, `\n\nQuery: `, the query and `\n\nAnswer:`, in that order (`Rag.PromptPieces`) |
| Rag.Texts | code/rag.py:51 | every result's `['metadata']['text']` is found, in order, or the lookup fails exactly when some record lacks the key |
| Rag.BuildPrompt | code/rag.py:40-59 | `build_prompt` fails exactly when some retrieved record has no `text`; otherwise it is the template filled with the records' texts, in retrieval order, and the query |
| Rag.PromptShape | code/rag.py:53-58 | the prompt is the instruction and context label, then the context block, then the query section, and each part can be read back at its offset |
| Rag.QueryInPrompt | code/rag.py:56 | the query appears verbatim right after `Query: ` |
| Rag.LineInPrompt | code/rag.py:51-55 | numbered line `i` appears verbatim in the context block, before the query |
| Rag.PromptLinesInOrder | code/rag.py:51-58 | every numbered line and the query appear verbatim at increasing offsets: context in retrieval order, then the query |
| Rag.NumberedLineHasNoBreak | code/rag.py:51 | a numbered line adds no line break of its own |
| Rag.ContextRoundTrip | code/rag.py:51 | for texts without line breaks, the context splits back into one numbered line per result, each parsing to `(i+1, text_i)` |
| Rag.OnlyTextMatters | code/rag.py:40-59 | the prompt depends only on the records' `text` fields, not on scores or other fields |
| Rag.TextsAgree | code/rag.py:51 | results with equal text fields give equal text lists |
| Rag.EmptyResultsPrompt | code/rag.py:51-58 | with no results, the context block is empty and the prompt is the fixed template around the query |
| Rag.ExampleTexts | code/rag.py:51 | two results with texts X and Y give the text list `["X", "Y"]` |
| Rag.ExampleContext | code/rag.py:51 | texts X and Y give the context `1. X\n2. Y` |
| Rag.PromptPieces | code/rag.py:53-58 | the prompt is the concatenation of the six template pieces in source order |
| Rag.TwoResultPrompt | code/rag.py:40-59 | the two-result prompt is the template around `1. X\n2. Y` and the query |
| Rag.GenerateResponse | code/rag.py:79-103 | on success the answer is the message content; on any exception it is `Error generating response: ` followed by the exception text |
| Rag.ErrorStringIsAmbiguous | code/rag.py:62-76 | a failing call and a call whose content starts with the error prefix can return the same string |
| Pipeline.ProcessAudioConsistent | code/input_processing/process_audio.py:84-93 | every processed result's record `j` carries transcription entry `j` as its text |
| Pipeline.AllTexts | main.py:49 | `texts += processed_data["transcription"]` over every processed video, in order; record `i` of the accumulated metadata carries text `i` (`Pipeline.AccumulatedParallel`) |
| Pipeline.AllMetadata | main.py:49-51 | over consistent results, the accumulated metadata list is as long as the accumulated texts |
| Pipeline.AccumulatedParallel | main.py:49-51 | after the `+=` accumulation, record `i` still carries text `i` |
| Pipeline.EncodeAll | main.py:55 | `encode(texts)` gives one vector per text, in order |
| Pipeline.BuildIndexAsWritten | main.py:53-56 | the build as written indexes one vector per text but stores twice the accumulated records |
| Pipeline.BuildIndex | main.py:53-56 | the corrected build gives a valid index of the configured dimension |
| Pipeline.BuildIndexAligned | main.py:53-56 | the corrected build is aligned with the ledger: label `p` holds the embedding of text `p`, and store position `p` holds record `p` |
| Pipeline.BuildIndexRecordsText | main.py:43-56 | every stored record has a text and sits beside the embedding of that text |
| Pipeline.BuildIndexAsWrittenMisaligned | main.py:56 | the build as written stores twice as many records as vectors, so no ledger is aligned with it; only its first half matches the vectors |
| Pipeline.QueryVector | main.py:65 | `get_embedding(query_text, "text")` yields the query encoder's vector for the query |
| Pipeline.RunQuery | main.py:64-78 | a failing label lookup fails the call with that error. Otherwise the call succeeds exactly when `build_prompt` does, and then the prompt is `build_prompt`'s output for the hits. The grounded answer is the model's answer to that prompt; the ungrounded answer is its answer to the bare query |
| Pipeline.RunQueryPrompt | main.py:65-68 | over a store that covers the index with text-bearing records, the query succeeds and the prompt lists the texts at the labels of the `k = 10` search, in search order |
| Pipeline.RunQueryOnBuiltIndex | main.py:64-68 | against the corrected build, a query always succeeds, and its prompt lists, in search order, the texts of the `min(10, size)` chunks nearest the query |
| Pipeline.UngroundedIsolated | main.py:73-76 | the no-context answer depends only on the service's reply to the bare query |

## Left out

- Downloading with `yt_dlp`, Whisper transcription, the `os.path.getsize` lookup, the sentence-transformer encoder and the OpenAI client are external calls. They appear only as parameters: the transcript, the file size, `encode` and `provider`.
- Pickling, `faiss.write_index`, the `config.json` reads and the interactive `input()` loop are file and console I/O. `initialize_faiss_index` and `save_index` are left out for the same reason.
- Embeddings are float32 in the source and integers here. Float rounding and its effect on distance ties are not modelled.
- faiss's Python wrappers raise `AssertionError` when an embedding's dimension does not match the index, or, in `search`, when `k` is not positive. The model does not model those raises. Preconditions exclude them:
  - the dimension check, through `FitsDim` on `Add` and `AddToFaiss` and the query-dimension requires of `RunQuery`;
  - `k > 0`, as a conjunct of `IsExactKnn`, which every query lemma requires.
- FlatIndex.IsExactKnn: faiss leaves the order among equal distances unspecified, so the predicate leaves it open. `ExactSearch` picks the smaller label, which shows the predicate can be met.
- The `duration` field's type is whatever Whisper returns. The model uses `Option<real>`, and the field is never read.
- Rag.GenerateResponse: `message.content` can be `None` in the OpenAI client. The model's `Outcome` always carries a string.
- process_text.py reads `config.json` without importing `json`, and loads a model literally named `'embedding_model'`. Both fail at import time. The model covers `process_text_data` as if the module loaded.
- The module-level chat-completion call in rag.py that runs at import is left out.
- `get_embedding` returns a `1 x D` batch. `Pipeline.QueryVector` takes its single row as the query vector, and `RunQuery` receives the search row `out` for that vector.
- The `print` calls are dropped. `run_query` prints the prompt, the grounded answer and the ungrounded answer; the model returns these as the fields of `Answer`. The message `add_to_faiss` prints is left out.

## Findings

| source | as written | input that shows it | evidently intended | confidence | as-written member | corrected member |
|---|---|---|---|---|---|---|
| main.py:56 | `add_to_faiss(faiss_index, metadata, embeddings, metadata)` passes one list as both the store and the batch, so `metadata_store.extend(metadata_list)` doubles it; code/vector_database.py:144 does the same | one processed video with a single chunk: the index holds 1 vector and the store 2 records | a separate, initially empty store extended by the accumulated records, so that label `p` and record `p` describe the same chunk | not executed | Pipeline.BuildIndexAsWrittenMisaligned | Pipeline.BuildIndexAligned |

The first half of the doubled store still lines up with the vectors.
`query_faiss_index` only reads labels below the index size, so queries
against the doubled store return the right records. The doubling wastes
space, and it breaks any code that pairs records with vectors by position
over the whole store (`VectorDatabase.AliasedAddFromEmptyMisaligns`). The
corrected build (`Pipeline.BuildIndex`) is the one that
`Pipeline.RunQueryOnBuiltIndex` reasons about.
