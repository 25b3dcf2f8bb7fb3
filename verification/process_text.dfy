/** The pure body of `process_text_data`: reject blank text, embed it, and
    enrich it with a source label, its length and its word count. The encoder
    is a parameter. */
module ProcessText {
  import opened Wrappers
  import opened Words
  import FlatIndex

  /** `{"source": ..., "text_length": ..., "word_count": ...}` */
  datatype TextMetadata = TextMetadata(source: string, textLength: nat, wordCount: nat)

  /** `{"text": ..., "embeddings": ..., "metadata": ...}` */
  datatype ProcessedText = ProcessedText(text: string, embedding: FlatIndex.Vector, metadata: TextMetadata)

  /** `ValueError("Text input is empty. Please provide valid text.")` */
  datatype TextError = EmptyText

  const UnknownSource := "unknown"

  /** `source or "unknown"`: `None` and `""` are falsy. */
  function SourceOrUnknown(source: Option<string>): (s: string)
    ensures s == UnknownSource <==> source == None || source == Some("") || source == Some(UnknownSource)
    ensures source.Some? && source.value != "" ==> s == source.value
  {
    match source
    case Some(s) => if s != "" then s else UnknownSource
    case None => UnknownSource
  }

  /** `process_text_data(text, source)`: blank text raises; otherwise the text
      comes back unchanged with its embedding, its length in characters, the
      number of `str.split()` words in it, and the source label. */
  function ProcessTextData(text: string, source: Option<string>, encode: string -> FlatIndex.Vector)
    : (r: Result<ProcessedText, TextError>)
    ensures r.Failure? <==> IsBlank(text)
    ensures r.Success? ==>
      && r.value.text == text
      && r.value.embedding == encode(text)
      && r.value.metadata.textLength == |text|
      && r.value.metadata.wordCount == |Split(text)|
      && r.value.metadata.source == SourceOrUnknown(source)
  {
    if IsBlank(text) then Failure(EmptyText)
    else
      Success(ProcessedText(
        text,
        encode(text),
        TextMetadata(SourceOrUnknown(source), |text|, |Split(text)|)))
  }

  /** Any accepted text has at least one word and no more words than
      characters. */
  lemma ProcessTextCounts(text: string, source: Option<string>, encode: string -> FlatIndex.Vector)
    requires ProcessTextData(text, source, encode).Success?
    ensures var m := ProcessTextData(text, source, encode).value.metadata;
            1 <= m.wordCount <= m.textLength
  {
    SplitEmptyIffBlank(text);
    WordCountAtMostLength(text);
  }
}
