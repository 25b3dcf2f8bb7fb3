/** The metadata dictionaries the system stores beside its vectors. */
module Records {
  import opened Wrappers

  /** A metadata record in the store.
      - `AudioChunk`: the record `process_audio` builds per transcript chunk,
        `{"filename", "filesize", "duration", "text"}`.
      - `Fields`: any other dictionary of string fields, such as the
        `{"type", "source", "timestamp", "version", "text"}` records of the
        vector database's own demonstration. */
  datatype Metadata =
    | AudioChunk(filename: string, filesize: int, duration: Option<real>, text: string)
    | Fields(entries: map<string, string>)

  /** `record["text"]`, or `None` where that lookup raises `KeyError`. */
  function TextField(m: Metadata): (t: Option<string>)
    ensures m.AudioChunk? ==> t == Some(m.text)
    ensures m.Fields? ==> (t.Some? <==> "text" in m.entries)
    ensures m.Fields? && "text" in m.entries ==> t == Some(m.entries["text"])
  {
    match m
    case AudioChunk(_, _, _, text) => Some(text)
    case Fields(entries) => if "text" in entries then Some(entries["text"]) else None
  }
}
