/** Python's argument-less `str.split()` and `str.strip()`, and `sep.join(...)`,
    over an explicit whitespace predicate. Both the transcript chunker and the
    text validator use this one `Split`. */
module Words {
  import opened Seqs

  /** The characters CPython treats as whitespace in `str.isspace()`,
      `str.split()` and `str.strip()` (its `Py_UNICODE_ISSPACE` table):
      U+0009..U+000D, U+001C..U+0020, U+0085, U+00A0, U+1680, U+2000..U+200A,
      U+2028, U+2029, U+202F, U+205F and U+3000. */
  const Whitespace: set<char> :=
    {'\t', '\n', '\U{000B}', '\U{000C}', '\r',
     '\U{001C}', '\U{001D}', '\U{001E}', '\U{001F}', ' ',
     '\U{0085}', '\U{00A0}', '\U{1680}',
     '\U{2000}', '\U{2001}', '\U{2002}', '\U{2003}', '\U{2004}', '\U{2005}',
     '\U{2006}', '\U{2007}', '\U{2008}', '\U{2009}', '\U{200A}',
     '\U{2028}', '\U{2029}', '\U{202F}', '\U{205F}', '\U{3000}'}

  predicate IsSpace(c: char)
  {
    c in Whitespace
  }

  /** `not s.strip()`: the string is empty or whitespace only. */
  predicate IsBlank(s: string)
  {
    forall i :: 0 <= i < |s| ==> IsSpace(s[i])
  }

  /** What `str.split()` can produce as one element: a non-empty run of
      non-whitespace characters. */
  predicate IsWord(w: string)
  {
    |w| > 0 && forall i :: 0 <= i < |w| ==> !IsSpace(w[i])
  }

  predicate AllWords(ws: seq<string>)
  {
    forall i :: 0 <= i < |ws| ==> IsWord(ws[i])
  }

  /** The characters of `s` that are not whitespace, in order. */
  function NonSpace(s: string): (r: string)
    ensures |r| <= |s|
  {
    if s == [] then []
    else (if IsSpace(s[0]) then [] else [s[0]]) + NonSpace(s[1..])
  }

  /** The first position at or after `i` that is not whitespace, or `|s|`. */
  function SkipSpaces(s: string, i: nat): (j: nat)
    requires i <= |s|
    ensures i <= j <= |s|
    ensures j == |s| || !IsSpace(s[j])
    decreases |s| - i
  {
    if i == |s| || !IsSpace(s[i]) then i else SkipSpaces(s, i + 1)
  }

  /** The first position at or after `i` that is whitespace, or `|s|`. */
  function WordEnd(s: string, i: nat): (j: nat)
    requires i <= |s|
    ensures i <= j <= |s|
    ensures j == |s| || IsSpace(s[j])
    decreases |s| - i
  {
    if i == |s| || IsSpace(s[i]) then i else WordEnd(s, i + 1)
  }

  lemma {:induction false} SkipSpacesSkipsSpace(s: string, i: nat)
    requires i <= |s|
    ensures forall k :: i <= k < SkipSpaces(s, i) ==> IsSpace(s[k])
    decreases |s| - i
  {
    if i < |s| && IsSpace(s[i]) {
      SkipSpacesSkipsSpace(s, i + 1);
    }
  }

  lemma {:induction false} WordEndInWord(s: string, i: nat)
    requires i <= |s|
    ensures forall k :: i <= k < WordEnd(s, i) ==> !IsSpace(s[k])
    decreases |s| - i
  {
    if i < |s| && !IsSpace(s[i]) {
      WordEndInWord(s, i + 1);
    }
  }

  /** The words of `s` from position `i` on: skip whitespace, cut the word
      that follows, repeat. */
  function SplitFrom(s: string, i: nat): seq<string>
    requires i <= |s|
    decreases |s| - i
  {
    var n := SkipSpaces(s, i);
    if n == |s| then []
    else [s[n..WordEnd(s, n)]] + SplitFrom(s, WordEnd(s, n))
  }

  /** Python's `s.split()`: the maximal whitespace-free runs of `s`, in order. */
  function Split(s: string): (ws: seq<string>)
    ensures AllWords(ws)
  {
    SplitFromWords(s, 0);
    SplitFrom(s, 0)
  }

  /** One step of `SplitFrom`, with its two positions named. */
  lemma SplitFromStep(s: string, i: nat, n: nat, m: nat)
    requires i <= |s| && n == SkipSpaces(s, i) < |s| && m == WordEnd(s, n)
    ensures SplitFrom(s, i) == [s[n..m]] + SplitFrom(s, m)
  {
  }

  lemma SplitFromBlank(s: string, i: nat)
    requires i <= |s| && SkipSpaces(s, i) == |s|
    ensures SplitFrom(s, i) == []
  {
  }

  lemma AllWordsCons(w: string, ws: seq<string>)
    requires IsWord(w) && AllWords(ws)
    ensures AllWords([w] + ws)
  {
    assert forall i :: 1 <= i < |ws| + 1 ==> ([w] + ws)[i] == ws[i - 1];
  }

  /** Every piece `SplitFrom` cuts is a word. */
  lemma {:induction false} SplitFromWords(s: string, i: nat)
    requires i <= |s|
    ensures AllWords(SplitFrom(s, i))
    decreases |s| - i
  {
    var n := SkipSpaces(s, i);
    if n < |s| {
      var m := WordEnd(s, n);
      WordEndInWord(s, n);
      assert m > n;
      var w := s[n..m];
      assert forall k :: 0 <= k < |w| ==> w[k] == s[n + k];
      SplitFromWords(s, m);
      SplitFromStep(s, i, n, m);
      AllWordsCons(w, SplitFrom(s, m));
    }
  }

  /** `[t.split() for t in texts]` */
  function SplitEach(texts: seq<string>): (r: seq<seq<string>>)
    ensures |r| == |texts|
    ensures forall i :: 0 <= i < |r| ==> r[i] == Split(texts[i])
  {
    seq(|texts|, i requires 0 <= i < |texts| => Split(texts[i]))
  }

  /** Python's `sep.join(parts)`. */
  function JoinWith(sep: string, parts: seq<string>): (r: string)
    ensures |parts| == 0 ==> r == []
    ensures |parts| > 0 ==> |r| >= |parts[0]| + (|parts| - 1) * |sep|
  {
    if |parts| == 0 then ""
    else if |parts| == 1 then parts[0]
    else parts[0] + sep + JoinWith(sep, parts[1..])
  }

  /** `str.split()` yields nothing exactly when the string is blank, which is
      also exactly when `str.strip()` yields the empty string. */
  lemma SplitEmptyIffBlank(s: string)
    ensures Split(s) == [] <==> IsBlank(s)
  {
    var n := SkipSpaces(s, 0);
    SkipSpacesSkipsSpace(s, 0);
    if n < |s| {
      SplitFromStep(s, 0, n, WordEnd(s, n));
      assert !IsSpace(s[n]);
    } else {
      SplitFromBlank(s, 0);
    }
  }

  lemma {:induction false} NonSpaceAppend(a: string, b: string)
    ensures NonSpace(a + b) == NonSpace(a) + NonSpace(b)
  {
    if a == [] {
      assert a + b == b;
    } else {
      assert (a + b)[1..] == a[1..] + b;
      NonSpaceAppend(a[1..], b);
    }
  }

  lemma {:induction false} NonSpaceOfBlank(s: string)
    requires IsBlank(s)
    ensures NonSpace(s) == []
  {
    if s != [] {
      NonSpaceOfBlank(s[1..]);
    }
  }

  lemma {:induction false} NonSpaceOfWordChars(s: string)
    requires forall i :: 0 <= i < |s| ==> !IsSpace(s[i])
    ensures NonSpace(s) == s
  {
    if s != [] {
      NonSpaceOfWordChars(s[1..]);
    }
  }

  /** The whitespace skipped before a word contributes nothing to `NonSpace`. */
  lemma NonSpaceAfterSkip(s: string, i: nat)
    requires i <= |s|
    ensures NonSpace(s[i..]) == NonSpace(s[SkipSpaces(s, i)..])
  {
    var n := SkipSpaces(s, i);
    SkipSpacesSkipsSpace(s, i);
    var blank := s[i..n];
    assert forall k :: 0 <= k < |blank| ==> blank[k] == s[i + k];
    assert s[i..] == blank + s[n..];
    NonSpaceAppend(blank, s[n..]);
    NonSpaceOfBlank(blank);
  }

  /** A word keeps all its characters in `NonSpace`. */
  lemma NonSpaceOfWordThen(s: string, n: nat)
    requires n <= |s|
    ensures NonSpace(s[n..]) == s[n..WordEnd(s, n)] + NonSpace(s[WordEnd(s, n)..])
  {
    var m := WordEnd(s, n);
    WordEndInWord(s, n);
    var w := s[n..m];
    assert forall k :: 0 <= k < |w| ==> w[k] == s[n + k];
    assert s[n..] == w + s[m..];
    NonSpaceAppend(w, s[m..]);
    NonSpaceOfWordChars(w);
  }

  lemma {:induction false} SplitFromKeepsNonSpace(s: string, i: nat)
    requires i <= |s|
    ensures Flatten(SplitFrom(s, i)) == NonSpace(s[i..])
    decreases |s| - i, 1
  {
    NonSpaceAfterSkip(s, i);
    var n := SkipSpaces(s, i);
    if n < |s| {
      SplitFromKeepsNonSpaceWord(s, i);
    } else {
      SplitFromBlank(s, i);
      assert s[n..] == [];
    }
  }

  lemma {:induction false} SplitFromKeepsNonSpaceWord(s: string, i: nat)
    requires i <= |s| && SkipSpaces(s, i) < |s|
    ensures Flatten(SplitFrom(s, i)) == NonSpace(s[i..])
    decreases |s| - i, 0
  {
    NonSpaceAfterSkip(s, i);
    var n := SkipSpaces(s, i);
    var m := WordEnd(s, n);
    NonSpaceOfWordThen(s, n);
    SplitFromStep(s, i, n, m);
    SplitFromKeepsNonSpace(s, m);
    FlattenCons(s[n..m], SplitFrom(s, m));
  }

  /** Splitting loses only whitespace: the words, concatenated, are exactly the
      non-whitespace characters of the input, in order. */
  lemma SplitKeepsAllNonSpace(s: string)
    ensures Flatten(Split(s)) == NonSpace(s)
  {
    SplitFromKeepsNonSpace(s, 0);
    assert s[0..] == s;
  }

  /** There are never more words than characters (each word is non-empty). */
  lemma WordCountAtMostLength(s: string)
    ensures |Split(s)| <= |NonSpace(s)| <= |s|
  {
    FlattenLengthAtLeastCount(Split(s));
    SplitKeepsAllNonSpace(s);
  }

  lemma {:induction false} SkipSpacesAppend(a: string, b: string, i: nat)
    requires i <= |b|
    ensures SkipSpaces(a + b, |a| + i) == |a| + SkipSpaces(b, i)
    decreases |b| - i
  {
    if i < |b| {
      assert (a + b)[|a| + i] == b[i];
      if IsSpace(b[i]) {
        SkipSpacesAppend(a, b, i + 1);
      }
    }
  }

  lemma {:induction false} WordEndAppend(a: string, b: string, i: nat)
    requires i <= |b|
    ensures WordEnd(a + b, |a| + i) == |a| + WordEnd(b, i)
    decreases |b| - i
  {
    if i < |b| {
      assert (a + b)[|a| + i] == b[i];
      if !IsSpace(b[i]) {
        WordEndAppend(a, b, i + 1);
      }
    }
  }

  /** Splitting `a + b` from inside `b` does not see `a`. */
  lemma {:induction false} SplitFromAppend(a: string, b: string, i: nat)
    requires i <= |b|
    ensures SplitFrom(a + b, |a| + i) == SplitFrom(b, i)
    decreases |b| - i, 1
  {
    SkipSpacesAppend(a, b, i);
    if SkipSpaces(b, i) < |b| {
      SplitFromAppendWord(a, b, i);
    } else {
      SplitFromBlank(a + b, |a| + i);
      SplitFromBlank(b, i);
    }
  }

  lemma {:induction false} SplitFromAppendWord(a: string, b: string, i: nat)
    requires i <= |b| && SkipSpaces(b, i) < |b|
    ensures SplitFrom(a + b, |a| + i) == SplitFrom(b, i)
    decreases |b| - i, 0
  {
    SkipSpacesAppend(a, b, i);
    var n := SkipSpaces(b, i);
    WordEndAppend(a, b, n);
    var m := WordEnd(b, n);
    SliceOfAppend(a, b, n, m);
    SplitFromAppend(a, b, m);
    SplitFromStep(a + b, |a| + i, |a| + n, |a| + m);
    SplitFromStep(b, i, n, m);
  }

  /** Leading whitespace does not change the split. */
  lemma SplitAfterSpace(c: char, s: string)
    requires IsSpace(c)
    ensures Split([c] + s) == Split(s)
  {
    var cs := [c] + s;
    assert SkipSpaces(cs, 0) == SkipSpaces(cs, 1);
    assert SplitFrom(cs, 0) == SplitFrom(cs, 1);
    SplitFromAppend([c], s, 0);
  }

  lemma {:induction false} WordEndOfWord(w: string, r: string, i: nat)
    requires i <= |w|
    requires forall k :: 0 <= k < |w| ==> !IsSpace(w[k])
    requires r == [] || IsSpace(r[0])
    ensures WordEnd(w + r, i) == |w|
    decreases |w| - i
  {
    if i < |w| {
      assert (w + r)[i] == w[i];
      WordEndOfWord(w, r, i + 1);
    } else if r != [] {
      assert (w + r)[i] == r[0];
    }
  }

  /** A word followed by whitespace (or nothing) splits off as the first word. */
  lemma SplitWordThen(w: string, r: string)
    requires IsWord(w)
    requires r == [] || IsSpace(r[0])
    ensures Split(w + r) == [w] + Split(r)
  {
    var s := w + r;
    assert s[0] == w[0];
    assert SkipSpaces(s, 0) == 0;
    WordEndOfWord(w, r, 0);
    assert s[0..|w|] == w;
    SplitFromStep(s, 0, 0, |w|);
    SplitFromAppend(w, r, 0);
  }

  lemma SplitOfWord(w: string)
    requires IsWord(w)
    ensures Split(w) == [w]
  {
    assert w + "" == w;
    SplitWordThen(w, "");
    SplitFromBlank("", 0);
  }

  lemma JoinWithCons(ws: seq<string>)
    requires |ws| > 1
    ensures JoinWith(" ", ws) == ws[0] + ([' '] + JoinWith(" ", ws[1..]))
  {
  }

  lemma SplitWordSpaceThen(w: string, rest: string)
    requires IsWord(w)
    ensures Split(w + ([' '] + rest)) == [w] + Split(rest)
  {
    SplitWordThen(w, [' '] + rest);
    SplitAfterSpace(' ', rest);
  }

  lemma SplitJoinStep(ws: seq<string>)
    requires |ws| > 1 && IsWord(ws[0])
    requires Split(JoinWith(" ", ws[1..])) == ws[1..]
    ensures Split(JoinWith(" ", ws)) == ws
  {
    var rest := JoinWith(" ", ws[1..]);
    var joined := JoinWith(" ", ws);
    JoinWithCons(ws);
    assert joined == ws[0] + ([' '] + rest);
    SplitWordSpaceThen(ws[0], rest);
    assert Split(joined) == [ws[0]] + ws[1..];
  }

  /** Round trip: joining words with a single space and splitting again gives
      the words back. */
  lemma {:induction false} SplitJoinRoundTrip(ws: seq<string>)
    requires AllWords(ws)
    ensures Split(JoinWith(" ", ws)) == ws
  {
    if |ws| == 0 {
      SplitFromBlank("", 0);
    } else if |ws| == 1 {
      SplitOfWord(ws[0]);
    } else {
      SplitJoinRoundTrip(ws[1..]);
      SplitJoinStep(ws);
    }
  }

  // ---------------------------------------------------------------------------
  // Joining with a separator, and splitting on one character.

  /** Where part `i` begins inside `JoinWith(sep, parts)`. */
  function PartStart(sep: string, parts: seq<string>, i: nat): nat
    requires i < |parts|
  {
    if i == 0 then 0 else |parts[0]| + |sep| + PartStart(sep, parts[1..], i - 1)
  }

  lemma {:induction false} JoinWithLength(sep: string, parts: seq<string>)
    requires |parts| > 0
    ensures |JoinWith(sep, parts)| == PartStart(sep, parts, |parts| - 1) + |parts[|parts| - 1]|
  {
    if |parts| > 1 {
      var tail := parts[1..];
      JoinWithLength(sep, tail);
      assert tail[|tail| - 1] == parts[|parts| - 1];
      assert PartStart(sep, parts, |parts| - 1) == |parts[0]| + |sep| + PartStart(sep, tail, |tail| - 1);
      assert |JoinWith(sep, parts)| == |parts[0]| + |sep| + |JoinWith(sep, tail)|;
    }
  }

  /** Part `i` sits, unchanged, at `PartStart(sep, parts, i)` in the joined
      string; later parts start strictly later when the separator is not
      empty. */
  lemma {:induction false} JoinWithPartAt(sep: string, parts: seq<string>, i: nat)
    requires i < |parts|
    ensures PartStart(sep, parts, i) + |parts[i]| <= |JoinWith(sep, parts)|
    ensures JoinWith(sep, parts)[PartStart(sep, parts, i) .. PartStart(sep, parts, i) + |parts[i]|] == parts[i]
  {
    if |parts| == 1 {
      assert JoinWith(sep, parts) == parts[0];
    } else if i == 0 {
      var joined := JoinWith(sep, parts);
      assert joined == parts[0] + (sep + JoinWith(sep, parts[1..]));
      assert joined[..|parts[0]|] == parts[0];
    } else {
      var tail := parts[1..];
      var start := PartStart(sep, tail, i - 1);
      JoinWithPartAt(sep, tail, i - 1);
      assert tail[i - 1] == parts[i];
      var head := parts[0] + sep;
      assert JoinWith(sep, parts) == head + JoinWith(sep, tail);
      assert PartStart(sep, parts, i) == |head| + start;
      SliceOfAppend(head, JoinWith(sep, tail), start, start + |parts[i]|);
    }
  }

  lemma {:induction false} PartStartIncreasing(sep: string, parts: seq<string>, i: nat, j: nat)
    requires i < j < |parts| && |sep| > 0
    ensures PartStart(sep, parts, i) + |parts[i]| < PartStart(sep, parts, j)
  {
    if i > 0 {
      PartStartIncreasing(sep, parts[1..], i - 1, j - 1);
    } else if j > 1 {
      PartStartIncreasing(sep, parts[1..], 0, j - 1);
    }
  }

  /** Python's `s.split(c)` for a one-character separator: the pieces between
      separators, empty ones included; `"".split(c)` is `[""]`. */
  function SplitOn(c: char, s: string): (r: seq<string>)
    ensures |r| >= 1
  {
    if s == [] then [""]
    else
      var rest := SplitOn(c, s[1..]);
      if s[0] == c then [""] + rest
      else [[s[0]] + rest[0]] + rest[1..]
  }

  lemma {:induction false} SplitOnNoSeparator(c: char, p: string, s: string)
    requires c !in p
    ensures SplitOn(c, p + s) == [p + SplitOn(c, s)[0]] + SplitOn(c, s)[1..]
  {
    if p == [] {
      assert p + s == s;
      assert p + SplitOn(c, s)[0] == SplitOn(c, s)[0];
      assert [SplitOn(c, s)[0]] + SplitOn(c, s)[1..] == SplitOn(c, s);
    } else {
      assert (p + s)[1..] == p[1..] + s;
      SplitOnNoSeparator(c, p[1..], s);
      assert [p[0]] + (p[1..] + SplitOn(c, s)[0]) == p + SplitOn(c, s)[0];
    }
  }

  /** Round trip: splitting on a separator that occurs in no part gives the
      parts back. */
  lemma {:induction false} SplitOnJoinRoundTrip(c: char, parts: seq<string>)
    requires |parts| > 0
    requires forall i :: 0 <= i < |parts| ==> c !in parts[i]
    ensures SplitOn(c, JoinWith([c], parts)) == parts
  {
    if |parts| == 1 {
      SplitOnNoSeparator(c, parts[0], "");
      assert parts[0] + "" == parts[0];
    } else {
      var rest := JoinWith([c], parts[1..]);
      assert JoinWith([c], parts) == parts[0] + ([c] + rest);
      SplitOnNoSeparator(c, parts[0], [c] + rest);
      assert ([c] + rest)[1..] == rest;
      SplitOnJoinRoundTrip(c, parts[1..]);
      assert parts[0] + "" == parts[0];
      assert [parts[0]] + parts[1..] == parts;
    }
  }
}
