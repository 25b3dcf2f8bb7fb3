/** The pure part of `process_audio`: split the transcript into words, cut
    the words into chunks of `chunk_size`, join each chunk with single spaces,
    embed each chunk and give each one a metadata record. Transcription,
    embedding and the file-size lookup are parameters. */
module ProcessAudio {
  import opened Wrappers
  import opened Seqs
  import opened Words
  import opened Chunking
  import opened Records
  import FlatIndex

  /** What the transcriber returned: `result['text']` and
      `result.get('duration')`. */
  datatype Transcript = Transcript(text: string, duration: Option<real>)

  /** The dictionary `process_audio` returns: three parallel lists. */
  datatype Processed = Processed(
    transcription: seq<string>,
    embeddings: seq<FlatIndex.Vector>,
    metadata: seq<Metadata>)

  /** `range(0, len(words), 0)` raises `ValueError`. */
  datatype AudioError = ZeroChunkSize

  /** Where the last path component of `path[..j]` begins: just after the
      last `/` before `j`, or at 0. */
  function NameStart(path: string, j: nat): (k: nat)
    requires j <= |path|
    ensures k <= j
    ensures k == 0 || path[k - 1] == '/'
    decreases j
  {
    if j == 0 || path[j - 1] == '/' then j else NameStart(path, j - 1)
  }

  lemma {:induction false} NameStartHasNoSlash(path: string, j: nat)
    requires j <= |path|
    ensures forall i :: NameStart(path, j) <= i < j ==> path[i] != '/'
    decreases j
  {
    if j > 0 && path[j - 1] != '/' {
      NameStartHasNoSlash(path, j - 1);
    }
  }

  /** `os.path.basename(path)` on POSIX: everything after the last `/`. */
  function Basename(path: string): (name: string)
    ensures |name| <= |path| && name == path[|path| - |name|..]
    ensures forall i :: 0 <= i < |name| ==> name[i] != '/'
    ensures |name| < |path| ==> path[|path| - |name| - 1] == '/'
  {
    var k := NameStart(path, |path|);
    NameStartHasNoSlash(path, |path|);
    assert forall i :: 0 <= i < |path| - k ==> path[k..][i] == path[k + i];
    path[k..]
  }

  lemma {:induction false} NameStartAfterSlash(path: string, m: nat, j: nat)
    requires 0 < m <= j <= |path|
    requires path[m - 1] == '/'
    requires forall i :: m <= i < j ==> path[i] != '/'
    ensures NameStart(path, j) == m
    decreases j
  {
    if j > m {
      NameStartAfterSlash(path, m, j - 1);
    }
  }

  /** Round trip with `os.path.join`: the basename of `dir + "/" + name` is
      `name` whenever `name` has no `/` of its own. */
  lemma BasenameOfJoin(dir: string, name: string)
    requires '/' !in name
    ensures Basename(dir + "/" + name) == name
  {
    var path := dir + "/" + name;
    var m := |dir| + 1;
    assert path[m - 1] == '/';
    assert forall i :: m <= i < |path| ==> path[i] == name[i - m];
    NameStartAfterSlash(path, m, |path|);
    assert path[m..] == name;
  }

  /** `[' '.join(words[i:i + chunk_size]) for i in range(0, len(words), chunk_size)]`.
      A step of zero raises; a negative step makes the range, and so the
      list, empty. */
  function ChunkTexts(words: seq<string>, chunkSize: int): (r: Result<seq<string>, AudioError>)
    ensures r.Failure? <==> chunkSize == 0
    ensures chunkSize < 0 ==> r == Success([])
  {
    if chunkSize == 0 then Failure(ZeroChunkSize)
    else if chunkSize < 0 then Success([])
    else
      var pieces := Chunks(words, chunkSize);
      Success(seq(|pieces|, i requires 0 <= i < |pieces| => JoinWith(" ", pieces[i])))
  }

  /** `process_audio(audio_file_path, chunk_size)` after transcription: the
      three lists are parallel, record `j` carries chunk `j`'s text and the
      file's name, size and duration, and embedding `j` is chunk `j`'s. */
  function ProcessAudio(
    path: string, fileSize: int, transcript: Transcript,
    encode: string -> FlatIndex.Vector, chunkSize: int)
    : (r: Result<Processed, AudioError>)
    ensures r.Failure? <==> chunkSize == 0
    ensures r.Success? ==>
      var p := r.value;
      && |p.transcription| == |p.embeddings| == |p.metadata|
      && forall j :: 0 <= j < |p.metadata| ==>
           && p.metadata[j] == AudioChunk(Basename(path), fileSize, transcript.duration, p.transcription[j])
           && p.embeddings[j] == encode(p.transcription[j])
  {
    var texts :- ChunkTexts(Split(transcript.text), chunkSize);
    var name := Basename(path);
    Success(Processed(
      texts,
      seq(|texts|, j requires 0 <= j < |texts| => encode(texts[j])),
      seq(|texts|, j requires 0 <= j < |texts| =>
        AudioChunk(name, fileSize, transcript.duration, texts[j]))))
  }

  lemma PieceIsWords(words: seq<string>, n: nat, i: nat)
    requires n > 0 && AllWords(words) && i < |Chunks(words, n)|
    ensures AllWords(Chunks(words, n)[i])
  {
    ChunkAt(words, n, i);
  }

  /** Chunk `i`, read back with `str.split()`, is exactly the `i`-th slice of
      words. */
  lemma ChunkTextSplitsBack(words: seq<string>, chunkSize: int, i: nat)
    requires chunkSize > 0 && AllWords(words)
    requires i < |Chunks(words, chunkSize)|
    ensures i < |ChunkTexts(words, chunkSize).value|
    ensures Split(ChunkTexts(words, chunkSize).value[i]) == Chunks(words, chunkSize)[i]
  {
    PieceIsWords(words, chunkSize, i);
    SplitJoinRoundTrip(Chunks(words, chunkSize)[i]);
  }

  /** The words of the chunks, read back with `str.split()` and concatenated,
      are the words of the transcript: nothing lost, duplicated or reordered. */
  lemma ChunkTextsRoundTrip(text: string, chunkSize: int)
    requires chunkSize > 0
    ensures var texts := ChunkTexts(Split(text), chunkSize).value;
            Flatten(SplitEach(texts)) == Split(text)
  {
    var words := Split(text);
    var pieces := Chunks(words, chunkSize);
    var texts := ChunkTexts(words, chunkSize).value;
    var back := SplitEach(texts);
    forall i | 0 <= i < |pieces|
      ensures back[i] == pieces[i]
    {
      ChunkTextSplitsBack(words, chunkSize, i);
    }
    assert back == pieces;
    ChunksFlatten(words, chunkSize);
  }

  /** Each chunk holds between 1 and `chunk_size` words, exactly
      `chunk_size` for all but the last. */
  lemma ChunkTextsWordCounts(words: seq<string>, chunkSize: int)
    requires chunkSize > 0 && AllWords(words)
    ensures var texts := ChunkTexts(words, chunkSize).value;
            && (forall i :: 0 <= i < |texts| ==> 1 <= |Split(texts[i])| <= chunkSize)
            && (forall i :: 0 <= i < |texts| - 1 ==> |Split(texts[i])| == chunkSize)
  {
    var texts := ChunkTexts(words, chunkSize).value;
    ChunksFullExceptLast(words, chunkSize);
    forall i | 0 <= i < |texts|
      ensures Split(texts[i]) == Chunks(words, chunkSize)[i]
    {
      ChunkTextSplitsBack(words, chunkSize, i);
    }
  }

  /** There are `ceil(len(words) / chunk_size)` chunks. */
  lemma ChunkTextsCount(words: seq<string>, chunkSize: int)
    requires chunkSize > 0
    ensures |ChunkTexts(words, chunkSize).value| == (|words| + chunkSize - 1) / chunkSize
  {
    ChunksCountDiv(words, chunkSize);
  }

  /** A blank transcript, and only a blank one, gives no chunks. */
  lemma ChunkTextsNoneIffBlank(text: string, chunkSize: int)
    requires chunkSize > 0
    ensures |ChunkTexts(Split(text), chunkSize).value| == 0 <==> IsBlank(text)
  {
    ChunksCount(Split(text), chunkSize);
    SplitEmptyIffBlank(text);
  }

  /** No chunk text is blank. */
  lemma ChunkTextsNonBlank(words: seq<string>, chunkSize: int)
    requires chunkSize > 0 && AllWords(words)
    ensures var texts := ChunkTexts(words, chunkSize).value;
            forall i :: 0 <= i < |texts| ==> !IsBlank(texts[i])
  {
    var texts := ChunkTexts(words, chunkSize).value;
    ChunkTextsWordCounts(words, chunkSize);
    forall i | 0 <= i < |texts|
      ensures !IsBlank(texts[i])
    {
      SplitEmptyIffBlank(texts[i]);
    }
  }

  lemma ProcessAudioTranscription(
    path: string, fileSize: int, transcript: Transcript,
    encode: string -> FlatIndex.Vector, chunkSize: int)
    requires chunkSize > 0
    ensures ProcessAudio(path, fileSize, transcript, encode, chunkSize).value.transcription
         == ChunkTexts(Split(transcript.text), chunkSize).value
  {
  }

  /** The transcription list `process_audio` returns splits back into the
      transcript's words, and each of its entries holds at most `chunk_size`
      of them (exactly that many for all but the last). */
  lemma ProcessAudioChunks(
    path: string, fileSize: int, transcript: Transcript,
    encode: string -> FlatIndex.Vector, chunkSize: int)
    requires chunkSize > 0
    ensures var p := ProcessAudio(path, fileSize, transcript, encode, chunkSize).value;
            && Flatten(SplitEach(p.transcription)) == Split(transcript.text)
            && (forall i :: 0 <= i < |p.transcription| ==> 1 <= |Split(p.transcription[i])| <= chunkSize)
            && (forall i :: 0 <= i < |p.transcription| - 1 ==> |Split(p.transcription[i])| == chunkSize)
  {
    ProcessAudioTranscription(path, fileSize, transcript, encode, chunkSize);
    ChunkTextsRoundTrip(transcript.text, chunkSize);
    ChunkTextsWordCounts(Split(transcript.text), chunkSize);
  }
}
