/** Prompt assembly and the two generation wrappers. The chat-completion
    service is a parameter returning an outcome. */
module Rag {
  import opened Wrappers
  import opened Seqs
  import opened Words
  import opened Records
  import opened VectorDatabase

  // ---------------------------------------------------------------------------
  // Decimal numerals, as `str(n)` writes a non-negative integer.

  predicate IsDigit(c: char)
  {
    '0' <= c <= '9'
  }

  function DigitChar(d: nat): (c: char)
    requires d < 10
    ensures IsDigit(c)
  {
    ['0', '1', '2', '3', '4', '5', '6', '7', '8', '9'][d]
  }

  function DigitValue(c: char): (d: nat)
    requires IsDigit(c)
    ensures d < 10
  {
    (c as int) - ('0' as int)
  }

  /** `str(n)` for `n >= 0`. */
  function Decimal(n: nat): (s: string)
    ensures |s| > 0
    ensures forall i :: 0 <= i < |s| ==> IsDigit(s[i])
  {
    if n < 10 then [DigitChar(n)] else Decimal(n / 10) + [DigitChar(n % 10)]
  }

  /** `int(s)` for a non-empty string of decimal digits. */
  function ParseDecimal(s: string): nat
    requires forall i :: 0 <= i < |s| ==> IsDigit(s[i])
  {
    if s == [] then 0 else ParseDecimal(s[..|s| - 1]) * 10 + DigitValue(s[|s| - 1])
  }

  lemma {:induction false} DecimalRoundTrip(n: nat)
    ensures ParseDecimal(Decimal(n)) == n
  {
    if n >= 10 {
      DecimalRoundTrip(n / 10);
      var s := Decimal(n);
      assert s[..|s| - 1] == Decimal(n / 10);
    }
  }

  /** The leading run of digits of `s`. */
  function TakeDigits(s: string): (d: string)
    ensures |d| <= |s| && d == s[..|d|]
    ensures forall i :: 0 <= i < |d| ==> IsDigit(d[i])
    ensures |d| == |s| || !IsDigit(s[|d|])
  {
    if s == [] || !IsDigit(s[0]) then [] else [s[0]] + TakeDigits(s[1..])
  }

  lemma {:induction false} TakeDigitsOfDigits(d: string, r: string)
    requires forall i :: 0 <= i < |d| ==> IsDigit(d[i])
    requires r == [] || !IsDigit(r[0])
    ensures TakeDigits(d + r) == d
  {
    if d == [] {
      assert d + r == r;
    } else {
      assert (d + r)[1..] == d[1..] + r;
      TakeDigitsOfDigits(d[1..], r);
    }
  }

  // ---------------------------------------------------------------------------
  // build_prompt

  const Instruction := "Use the provided context to answer the user's query accurately.\n\n"
  const ContextLabel := "Context:\n"
  const QueryLabel := "\n\nQuery: "
  const AnswerLabel := "\n\nAnswer:"

  /** `f"{n}. {text}"` */
  function NumberedLine(n: nat, text: string): (line: string)
    ensures |line| >= |text| + 3
    ensures line[|line| - |text|..] == text
  {
    Decimal(n) + ". " + text
  }

  /** Reads a line written by `NumberedLine` back into its number and text. */
  function ParseNumberedLine(line: string): Option<(nat, string)>
  {
    var d := TakeDigits(line);
    if |d| > 0 && |line| >= |d| + 2 && line[|d|] == '.' && line[|d| + 1] == ' '
    then Some((ParseDecimal(d), line[|d| + 2..]))
    else None
  }

  lemma NumberedLineRoundTrip(n: nat, text: string)
    ensures ParseNumberedLine(NumberedLine(n, text)) == Some((n, text))
  {
    var line := NumberedLine(n, text);
    assert line == Decimal(n) + (". " + text);
    TakeDigitsOfDigits(Decimal(n), ". " + text);
    DecimalRoundTrip(n);
    assert line[|Decimal(n)| + 2..] == text;
  }

  /** The lines of the context block: entry `i` numbered `i + 1`. */
  function ContextLines(texts: seq<string>): (lines: seq<string>)
    ensures |lines| == |texts|
    ensures forall i :: 0 <= i < |texts| ==> lines[i] == NumberedLine(i + 1, texts[i])
  {
    seq(|texts|, i requires 0 <= i < |texts| => NumberedLine(i + 1, texts[i]))
  }

  /** `"\n".join(f"{i+1}. {text}" for ...)` */
  function Context(texts: seq<string>): (c: string)
    ensures |c| == 0 <==> |texts| == 0
  {
    JoinWith("\n", ContextLines(texts))
  }

  /** The fixed text before the context block. */
  const Head := Instruction + ContextLabel

  /** The text after the context block: the query between its label and the
      answer cue. */
  function Tail(query: string): string
  {
    QueryLabel + query + AnswerLabel
  }

  /** The prompt template filled with a context block and a query. */
  function PromptFromTexts(query: string, texts: seq<string>): string
  {
    Head + (Context(texts) + Tail(query))
  }

  /** The `result['metadata']['text']` of every retrieved result, or `None`
      where one of those lookups raises `KeyError`. */
  function Texts(results: seq<Hit<Metadata>>): (r: Option<seq<string>>)
    ensures r.Some? <==> forall j :: 0 <= j < |results| ==> TextField(results[j].metadata).Some?
    ensures r.Some? ==> |r.value| == |results|
                        && forall j :: 0 <= j < |results| ==> r.value[j] == TextField(results[j].metadata).value
  {
    if results == [] then Some([])
    else
      match TextField(results[0].metadata)
      case None => None
      case Some(t) =>
        match Texts(results[1..])
        case None => None
        case Some(rest) => Some([t] + rest)
  }

  datatype PromptError = MissingTextKey

  /** `build_prompt(query_text, retrieved_results)`. */
  function BuildPrompt(query: string, results: seq<Hit<Metadata>>): (r: Result<string, PromptError>)
    ensures r.Failure? <==> exists j :: 0 <= j < |results| && TextField(results[j].metadata).None?
    ensures r.Success? ==> r.value == PromptFromTexts(query, Texts(results).value)
  {
    match Texts(results)
    case None => Failure(MissingTextKey)
    case Some(texts) => Success(PromptFromTexts(query, texts))
  }

  /** The prompt is the fixed instruction and `Context:` label, then the
      context block, then `Query: ` and the query, and ends with `Answer:`. */
  lemma PromptShape(query: string, texts: seq<string>)
    ensures var p := PromptFromTexts(query, texts);
            && |p| == |Head| + |Context(texts)| + |Tail(query)|
            && p[..|Head|] == Head
            && p[|Head|..|Head| + |Context(texts)|] == Context(texts)
            && p[|p| - |Tail(query)|..] == Tail(query)
  {
    var ctx := Context(texts);
    var tail := Tail(query);
    SliceOfPrefix(Head, ctx + tail, 0, |Head|);
    SliceOfAppend(Head, ctx + tail, 0, |ctx|);
    SliceOfPrefix(ctx, tail, 0, |ctx|);
    SliceOfAppend(Head, ctx + tail, |ctx|, |ctx| + |tail|);
    SliceOfAppend(ctx, tail, 0, |tail|);
    assert Head[0..|Head|] == Head && ctx[0..|ctx|] == ctx && tail[0..|tail|] == tail;
  }

  /** Context line `i` is `"{i+1}. {text_i}"` and appears in the prompt at
      `LineOffset(texts, i)`; lines appear in result order, and every line
      ends before the query begins. */
  function LineOffset(texts: seq<string>, i: nat): nat
    requires i < |texts|
  {
    |Head| + PartStart("\n", ContextLines(texts), i)
  }

  function QueryOffset(query: string, texts: seq<string>): nat
  {
    |Head| + |Context(texts)| + |QueryLabel|
  }

  /** The query sits right after its label in the tail. */
  lemma QueryInTail(query: string)
    ensures Tail(query)[|QueryLabel|..|QueryLabel| + |query|] == query
  {
    var q := QueryLabel + query;
    SliceOfPrefix(q, AnswerLabel, |QueryLabel|, |q|);
    SliceOfAppend(QueryLabel, query, 0, |query|);
    assert query[0..|query|] == query;
  }

  /** The query sits at `QueryOffset` in the prompt. */
  lemma QueryInPrompt(query: string, texts: seq<string>)
    ensures var p := PromptFromTexts(query, texts);
            && QueryOffset(query, texts) + |query| <= |p|
            && p[QueryOffset(query, texts) .. QueryOffset(query, texts) + |query|] == query
  {
    QueryInTail(query);
    SliceOfThird(Head, Context(texts), Tail(query), |QueryLabel|, |QueryLabel| + |query|);
  }

  /** Context line `i` sits `PartStart` characters into the context block,
      whatever surrounds the block. */
  lemma LineInTemplate(head: string, tail: string, texts: seq<string>, i: nat)
    requires i < |texts|
    ensures var off := |head| + PartStart("\n", ContextLines(texts), i);
            var line := NumberedLine(i + 1, texts[i]);
            && off + |line| <= |head| + |Context(texts)|
            && (head + (Context(texts) + tail))[off .. off + |line|] == line
  {
    var ctx := Context(texts);
    var lines := ContextLines(texts);
    JoinWithPartAt("\n", lines, i);
    var start := PartStart("\n", lines, i);
    SliceOfAppend(head, ctx + tail, start, start + |lines[i]|);
    SliceOfPrefix(ctx, tail, start, start + |lines[i]|);
  }

  /** Context line `i` sits at `LineOffset(texts, i)`, inside the context
      block. */
  lemma LineInPrompt(query: string, texts: seq<string>, i: nat)
    requires i < |texts|
    ensures var p := PromptFromTexts(query, texts);
            var line := NumberedLine(i + 1, texts[i]);
            && LineOffset(texts, i) + |line| < QueryOffset(query, texts)
            && p[LineOffset(texts, i) .. LineOffset(texts, i) + |line|] == line
  {
    LineInTemplate(Head, Tail(query), texts, i);
  }

  lemma PromptLinesInOrder(query: string, texts: seq<string>)
    ensures var p := PromptFromTexts(query, texts);
            && QueryOffset(query, texts) + |query| <= |p|
            && p[QueryOffset(query, texts) .. QueryOffset(query, texts) + |query|] == query
            && (forall i :: 0 <= i < |texts| ==>
                  && LineOffset(texts, i) + |NumberedLine(i + 1, texts[i])| < QueryOffset(query, texts)
                  && p[LineOffset(texts, i) .. LineOffset(texts, i) + |NumberedLine(i + 1, texts[i])|]
                     == NumberedLine(i + 1, texts[i]))
            && (forall i, j :: 0 <= i < j < |texts| ==> LineOffset(texts, i) < LineOffset(texts, j))
  {
    QueryInPrompt(query, texts);
    forall i | 0 <= i < |texts|
      ensures LineOffset(texts, i) + |NumberedLine(i + 1, texts[i])| < QueryOffset(query, texts)
      ensures PromptFromTexts(query, texts)[LineOffset(texts, i) .. LineOffset(texts, i) + |NumberedLine(i + 1, texts[i])|]
              == NumberedLine(i + 1, texts[i])
    {
      LineInPrompt(query, texts, i);
    }
    forall i, j | 0 <= i < j < |texts|
      ensures LineOffset(texts, i) < LineOffset(texts, j)
    {
      PartStartIncreasing("\n", ContextLines(texts), i, j);
    }
  }

  lemma NumberedLineHasNoBreak(n: nat, text: string)
    requires '\n' !in text
    ensures '\n' !in NumberedLine(n, text)
  {
    var d := Decimal(n);
    assert forall k | 0 <= k < |d| :: d[k] != '\n';
    assert NumberedLine(n, text) == d + (". " + text);
  }

  /** Inverse of the context block: when no text contains a line break,
      splitting the block on `"\n"` and parsing each line gives back the
      numbers `1 .. n` and the texts, in order. */
  lemma ContextRoundTrip(texts: seq<string>)
    requires |texts| > 0
    requires forall i :: 0 <= i < |texts| ==> '\n' !in texts[i]
    ensures |SplitOn('\n', Context(texts))| == |texts|
    ensures forall i :: 0 <= i < |texts| ==>
              ParseNumberedLine(SplitOn('\n', Context(texts))[i]) == Some((i + 1, texts[i]))
  {
    var lines := ContextLines(texts);
    forall i | 0 <= i < |lines|
      ensures '\n' !in lines[i]
    {
      NumberedLineHasNoBreak(i + 1, texts[i]);
    }
    SplitOnJoinRoundTrip('\n', lines);
    forall i | 0 <= i < |texts|
      ensures ParseNumberedLine(lines[i]) == Some((i + 1, texts[i]))
    {
      NumberedLineRoundTrip(i + 1, texts[i]);
    }
  }

  /** Only the `text` field of each result reaches the prompt: results that
      agree on it give the same prompt, whatever their scores and other
      fields. */
  lemma {:induction false} OnlyTextMatters(query: string, a: seq<Hit<Metadata>>, b: seq<Hit<Metadata>>)
    requires |a| == |b|
    requires forall j :: 0 <= j < |a| ==> TextField(a[j].metadata) == TextField(b[j].metadata)
    ensures BuildPrompt(query, a) == BuildPrompt(query, b)
  {
    TextsAgree(a, b);
  }

  lemma {:induction false} TextsAgree(a: seq<Hit<Metadata>>, b: seq<Hit<Metadata>>)
    requires |a| == |b|
    requires forall j :: 0 <= j < |a| ==> TextField(a[j].metadata) == TextField(b[j].metadata)
    ensures Texts(a) == Texts(b)
  {
    if a != [] {
      TextsAgree(a[1..], b[1..]);
    }
  }

  /** No results: the context block is empty, and the prompt still carries
      the query and ends with `Answer:`. */
  lemma EmptyResultsPrompt(query: string)
    ensures BuildPrompt(query, []) == Success(Instruction + "Context:\n\n\nQuery: " + query + "\n\nAnswer:")
  {
    assert Context([]) == "";
    assert PromptFromTexts(query, [])
        == Instruction + ContextLabel + "" + QueryLabel + query + AnswerLabel;
    assert Instruction + ContextLabel + "" + QueryLabel == Instruction + "Context:\n\n\nQuery: ";
    assert Texts([]) == Some([]);
  }

  function ExampleResults(): seq<Hit<Metadata>>
  {
    [Hit(0, Fields(map["text" := "X"])), Hit(1, Fields(map["text" := "Y"]))]
  }

  lemma ExampleTexts()
    ensures Texts(ExampleResults()) == Some(["X", "Y"])
  {
    var results := ExampleResults();
    assert TextField(results[0].metadata) == Some("X");
    assert TextField(results[1].metadata) == Some("Y");
    var t := Texts(results);
    assert t.Some? && |t.value| == 2;
    assert t.value[0] == "X" && t.value[1] == "Y";
    assert t.value == ["X", "Y"];
  }

  lemma ExampleContext()
    ensures Context(["X", "Y"]) == "1. X\n2. Y"
  {
    assert Decimal(1) == "1" && Decimal(2) == "2";
    var lines := ContextLines(["X", "Y"]);
    assert lines[0] == "1. X" && lines[1] == "2. Y";
    assert lines == ["1. X", "2. Y"];
    assert JoinWith("\n", ["1. X", "2. Y"]) == "1. X" + "\n" + "2. Y";
  }

  /** The prompt is the six template pieces, concatenated in order. */
  lemma PromptPieces(query: string, texts: seq<string>)
    ensures PromptFromTexts(query, texts)
            == Instruction + ContextLabel + Context(texts) + QueryLabel + query + AnswerLabel
  {
  }

  /** The two-result example: lines `1. X` and `2. Y`, then the query. */
  lemma TwoResultPrompt()
    ensures BuildPrompt("Q?", ExampleResults())
            == Success(Instruction + ContextLabel + "1. X\n2. Y" + QueryLabel + "Q?" + AnswerLabel)
  {
    ExampleTexts();
    ExampleContext();
    PromptPieces("Q?", ["X", "Y"]);
  }

  // ---------------------------------------------------------------------------
  // generate_response and generate_response_no_context

  /** What one chat-completion call did: returned a message content, or raised
      an exception whose text is `message`. */
  datatype Outcome = Completed(content: string) | Failed(message: string)

  const ErrorPrefix := "Error generating response: "

  /** `generate_response(prompt, model)`, and `generate_response_no_context`,
      whose body is the same: the provider's content on success, and on any
      failure a string carrying the failure text instead of an exception. */
  function GenerateResponse(prompt: string, model: string, provider: (string, string) -> Outcome): (r: string)
    ensures provider(prompt, model).Completed? ==> r == provider(prompt, model).content
    ensures provider(prompt, model).Failed? ==>
              && |r| == |ErrorPrefix| + |provider(prompt, model).message|
              && r[..|ErrorPrefix|] == ErrorPrefix
              && r[|ErrorPrefix|..] == provider(prompt, model).message
  {
    match provider(prompt, model)
    case Completed(content) => content
    case Failed(message) => ErrorPrefix + message
  }

  /** The caller cannot tell a failure from a success whose content happens to
      begin with the error prefix. */
  lemma ErrorStringIsAmbiguous(prompt: string, model: string)
    ensures var failing := (p: string, m: string) => Failed("timeout");
            var answering := (p: string, m: string) => Completed(ErrorPrefix + "timeout");
            GenerateResponse(prompt, model, failing) == GenerateResponse(prompt, model, answering)
  {
  }
}
