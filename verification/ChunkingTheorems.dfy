/**
 What the chunker promises: chunks read back as the normalised text, a sentence
 that fits is never split, every chunk is within the bound or one oversized
 word, and greedy packing is optimal among order-preserving packings.
 */
module ChunkingTheorems {
  import opened Chunking

  function Concat(groups: seq<seq<string>>): seq<string> {
    if groups == [] then [] else groups[0] + Concat(groups[1..])
  }

  function JoinEach(groups: seq<seq<string>>): seq<string> {
    seq(|groups|, i requires 0 <= i < |groups| => Join(groups[i]))
  }

  /** What packing may not split: a fitting sentence, or a word of one that does not fit. */
  function Units(sentences: seq<string>, max: nat): seq<string> {
    if sentences == [] then []
    else (if |sentences[0]| > max then Words(sentences[0]) else [sentences[0]]) + Units(sentences[1..], max)
  }

  /** Within the bound, or a single unit nothing can be done about. */
  predicate Bounded(group: seq<string>, max: nat) {
    group != [] && (|Join(group)| <= max || |group| == 1)
  }

  predicate AllBounded(groups: seq<seq<string>>, max: nat) {
    forall i :: 0 <= i < |groups| ==> Bounded(groups[i], max)
  }

  predicate NonEmpty(items: seq<string>) {
    forall i :: 0 <= i < |items| ==> items[i] != ""
  }

  // ----- joining -----

  lemma {:induction false} JoinAppend(a: seq<string>, b: seq<string>)
    ensures Join(a + b) == if a == [] then Join(b) else if b == [] then Join(a) else Join(a) + " " + Join(b)
    decreases |a|
  {
    if a == [] {
      assert a + b == b;
    } else if b == [] {
      assert a + b == a;
    } else {
      assert (a + b)[1..] == a[1..] + b;
      JoinAppend(a[1..], b);
      if |a| > 1 {
        assert Join(a) == a[0] + " " + Join(a[1..]);
        assert a[0] + " " + (Join(a[1..]) + " " + Join(b)) == (a[0] + " " + Join(a[1..])) + " " + Join(b);
      }
    }
  }

  lemma {:induction false} ConcatAppend(a: seq<seq<string>>, b: seq<seq<string>>)
    ensures Concat(a + b) == Concat(a) + Concat(b)
    decreases |a|
  {
    if a == [] {
      assert a + b == b;
    } else {
      assert (a + b)[1..] == a[1..] + b;
      ConcatAppend(a[1..], b);
      assert a[0] + (Concat(a[1..]) + Concat(b)) == (a[0] + Concat(a[1..])) + Concat(b);
    }
  }

  /** Joining the joined groups is joining everything. */
  lemma {:induction false} JoinOfJoins(groups: seq<seq<string>>)
    requires forall i :: 0 <= i < |groups| ==> groups[i] != []
    ensures Join(JoinEach(groups)) == Join(Concat(groups))
    decreases |groups|
  {
    if groups != [] {
      JoinOfJoins(groups[1..]);
      JoinAppend([Join(groups[0])], JoinEach(groups[1..]));
      JoinAppend(groups[0], Concat(groups[1..]));
      assert JoinEach(groups) == [Join(groups[0])] + JoinEach(groups[1..]);
      if |groups| > 1 { assert Concat(groups[1..])[0] == groups[1][0]; }
    }
  }

  // ----- grouping -----

  /** The groups behind `Pack`, with `open` the group whose join is `current`. */
  lemma {:induction false} PackGroups(items: seq<string>, open: seq<string>, max: nat) returns (groups: seq<seq<string>>)
    requires NonEmpty(items) && (open != [] ==> Join(open) != "" && Bounded(open, max))
    ensures JoinEach(groups) == Pack(items, Join(open), max)
    ensures Concat(groups) == open + items
    ensures AllBounded(groups, max)
    decreases |items|
  {
    if items == [] {
      groups := if open == [] then [] else [open];
      assert open != [] ==> Concat([open]) == open + Concat([]);
    } else if open == [] {
      groups := PackGroups(items[1..], [items[0]], max);
      assert [items[0]] + items[1..] == items;
    } else if |Join(open)| + 1 + |items[0]| <= max {
      JoinAppend(open, [items[0]]);
      groups := PackGroups(items[1..], open + [items[0]], max);
      assert open + [items[0]] + items[1..] == open + items;
    } else {
      var rest := PackGroups(items[1..], [items[0]], max);
      groups := GroupBefore(open, rest, max);
      assert [items[0]] + items[1..] == items;
    }
  }

  lemma FlushGroups(open: seq<string>, max: nat) returns (groups: seq<seq<string>>)
    requires open != [] ==> Join(open) != "" && Bounded(open, max)
    ensures JoinEach(groups) == Flush(Join(open)) && Concat(groups) == open && AllBounded(groups, max)
  {
    groups := if open == [] then [] else [open];
    assert open != [] ==> Concat([open]) == open + Concat([]);
  }

  lemma JoinEachAppend(a: seq<seq<string>>, b: seq<seq<string>>)
    ensures JoinEach(a + b) == JoinEach(a) + JoinEach(b)
  {
  }

  lemma ThreeGroups(a: seq<seq<string>>, b: seq<seq<string>>, c: seq<seq<string>>) returns (groups: seq<seq<string>>)
    ensures groups == a + b + c
    ensures JoinEach(groups) == JoinEach(a) + JoinEach(b) + JoinEach(c)
    ensures Concat(groups) == Concat(a) + (Concat(b) + Concat(c))
  {
    groups := a + b + c;
    JoinEachAppend(a + b, c);
    JoinEachAppend(a, b);
    ConcatAppend(a + b, c);
    ConcatAppend(a, b);
    assert Concat(a) + Concat(b) + Concat(c) == Concat(a) + (Concat(b) + Concat(c));
  }

  /** One more group in front. */
  lemma {:induction false} GroupBefore(open: seq<string>, rest: seq<seq<string>>, max: nat) returns (groups: seq<seq<string>>)
    ensures groups == [open] + rest
    ensures JoinEach(groups) == [Join(open)] + JoinEach(rest) && Concat(groups) == open + Concat(rest)
    ensures Bounded(open, max) && AllBounded(rest, max) ==> AllBounded(groups, max)
  {
    groups := [open] + rest;
    assert groups[1..] == rest;
  }

  /** Nothing is split but oversized sentences: chunks are joins of whole units, in order. */
  lemma {:induction false} ChunkGroups(sentences: seq<string>, open: seq<string>, max: nat) returns (groups: seq<seq<string>>)
    requires NonEmpty(sentences) && (open != [] ==> Join(open) != "" && Bounded(open, max))
    ensures JoinEach(groups) == Chunks(sentences, Join(open), max)
    ensures Concat(groups) == open + Units(sentences, max)
    ensures AllBounded(groups, max)
    decreases |sentences|, 1
  {
    if sentences == [] {
      groups := FlushGroups(open, max);
    } else if |sentences[0]| > max {
      groups := OversizedGroups(sentences, open, max);
    } else if open == [] || |Join(open)| + 1 + |sentences[0]| <= max {
      groups := FittingGroups(sentences, open, max);
    } else {
      groups := ClosedGroups(sentences, open, max);
    }
  }

  lemma {:induction false} OversizedGroups(sentences: seq<string>, open: seq<string>, max: nat) returns (groups: seq<seq<string>>)
    requires NonEmpty(sentences) && (open != [] ==> Join(open) != "" && Bounded(open, max))
    requires sentences != [] && |sentences[0]| > max
    ensures JoinEach(groups) == Chunks(sentences, Join(open), max)
    ensures Concat(groups) == open + Units(sentences, max)
    ensures AllBounded(groups, max)
    decreases |sentences|, 0
  {
    var first := FlushGroups(open, max);
    var middle := PackGroups(Words(sentences[0]), [], max);
    var rest := ChunkGroups(sentences[1..], [], max);
    groups := ThreeGroups(first, middle, rest);
    assert [] + Words(sentences[0]) == Words(sentences[0]);
    assert [] + Units(sentences[1..], max) == Units(sentences[1..], max);
  }

  lemma {:induction false} FittingGroups(sentences: seq<string>, open: seq<string>, max: nat) returns (groups: seq<seq<string>>)
    requires NonEmpty(sentences) && (open != [] ==> Join(open) != "" && Bounded(open, max))
    requires sentences != [] && |sentences[0]| <= max && (open == [] || |Join(open)| + 1 + |sentences[0]| <= max)
    ensures JoinEach(groups) == Chunks(sentences, Join(open), max)
    ensures Concat(groups) == open + Units(sentences, max)
    ensures AllBounded(groups, max)
    decreases |sentences|, 0
  {
    var unit := [sentences[0]];
    if open == [] {
      groups := ChunkGroups(sentences[1..], unit, max);
    } else {
      JoinAppend(open, unit);
      groups := ChunkGroups(sentences[1..], open + unit, max);
      assert open + unit + Units(sentences[1..], max) == open + (unit + Units(sentences[1..], max));
    }
  }

  lemma {:induction false} ClosedGroups(sentences: seq<string>, open: seq<string>, max: nat) returns (groups: seq<seq<string>>)
    requires NonEmpty(sentences) && open != [] && Join(open) != "" && Bounded(open, max)
    requires sentences != [] && |sentences[0]| <= max < |Join(open)| + 1 + |sentences[0]|
    ensures JoinEach(groups) == Chunks(sentences, Join(open), max)
    ensures Concat(groups) == open + Units(sentences, max)
    ensures AllBounded(groups, max)
    decreases |sentences|, 0
  {
    var rest := ChunkGroups(sentences[1..], [sentences[0]], max);
    groups := GroupBefore(open, rest, max);
    assert Join([sentences[0]]) == sentences[0];
  }

  // ----- normalised text -----

  // ----- the cuts between sentences

  /** Ends with a full stop, an exclamation mark or a question mark. */
  predicate Stops(s: string) {
    s != "" && s[|s| - 1] as int in {33, 46, 63}
  }

  /** Begins with a capital, a digit, a quotation mark or an opening bracket. */
  predicate Starts(s: string) {
    s != "" && (65 <= s[0] as int <= 90 || 48 <= s[0] as int <= 57 || s[0] as int in {34, 39, 40, 91})
  }

  /** At no space inside does one sentence end and another begin. */
  ghost predicate Uncut(s: string) {
    forall k :: 0 < k < |s| - 1 && IsSpace(s[k]) ==> !(Stops(s[..k]) && Starts(s[k + 1..]))
  }

  lemma CutMeans(s: string, k: nat)
    requires 0 < k && k + 1 < |s|
    ensures CutAt(s, k) <==> IsSpace(s[k]) && Stops(s[..k]) && Starts(s[k + 1..])
  {
    assert s[..k][k - 1] == s[k - 1] && s[k + 1..][0] == s[k + 1];
  }

  lemma UncutPart(flat: string, i: nat)
    requires i <= |flat| && forall j :: 0 <= j < i ==> !CutAt(flat, j)
    ensures Uncut(flat[..i])
  {
    var part := flat[..i];
    forall k | 0 < k < |part| - 1 && IsSpace(part[k]) ensures !(Stops(part[..k]) && Starts(part[k + 1..])) {
      CutMeans(part, k);
      assert CutAt(part, k) <==> CutAt(flat, k) by {
        assert part[k - 1] == flat[k - 1] && part[k] == flat[k] && part[k + 1] == flat[k + 1];
      }
    }
  }

  ghost predicate AllUncut(parts: seq<string>) {
    forall p :: p in parts ==> Uncut(p)
  }

  /** Each part stops and the one after it starts. */
  predicate Junctions(parts: seq<string>) {
    |parts| >= 2 ==> Stops(parts[0]) && Starts(parts[1]) && Junctions(parts[1..])
  }

  lemma OneMore(part: string, rest: seq<string>)
    requires AllUncut(rest) && Junctions(rest) && rest != [] && Uncut(part) && Stops(part) && Starts(rest[0])
    ensures AllUncut([part] + rest) && Junctions([part] + rest)
  {
    assert ([part] + rest)[1..] == rest;
  }

  lemma OnlyOne(part: string)
    requires Uncut(part)
    ensures AllUncut([part]) && Junctions([part])
  {
  }

  /** Sentences are cut exactly where one stops and the next starts: at every such space, and nowhere else. */
  lemma {:induction false} SentencesCutExactly(flat: string)
    ensures AllUncut(SplitFlat(flat)) && Junctions(SplitFlat(flat))
    ensures flat != "" ==> SplitFlat(flat) != [] && SplitFlat(flat)[0] != "" && SplitFlat(flat)[0][0] == flat[0]
    decreases |flat|
  {
    if flat != "" {
      var i := FirstCut(flat, 0);
      UncutPart(flat, i);
      if i == |flat| {
        assert flat[..i] == flat;
        OnlyOne(flat);
      } else {
        SentencesCutExactly(flat[i + 1..]);
        CutMeans(flat, i);
        OneMore(flat[..i], SplitFlat(flat[i + 1..]));
      }
    }
  }

  /** The whitespace of Python's str.split, by code point. */
  lemma SpacesExactly(c: char)
    ensures IsSpace(c) <==>
      c as int in {9, 10, 11, 12, 13, 28, 29, 30, 31, 32, 133, 160, 5760, 8192, 8193, 8194, 8195, 8196, 8197, 8198, 8199,
                   8200, 8201, 8202, 8232, 8233, 8239, 8287, 12288}
  {
  }

  /** A text without a word is nothing but whitespace. */
  lemma {:induction false} NoWordsIsSpace(t: string)
    ensures Words(t) == [] <==> AllSpace(t)
    decreases |t|
  {
    if t != "" && IsSpace(t[0]) {
      NoWordsIsSpace(t[1..]);
      assert AllSpace(t[1..]) ==> AllSpace(t) by {
        forall i | AllSpace(t[1..]) && 0 <= i < |t| ensures IsSpace(t[i]) {
          if i > 0 { assert t[i] == t[1..][i - 1]; }
        }
      }
    }
  }

  lemma {:induction false} WordsOfWord(w: string, rest: string)
    requires IsWord(w) && (rest != "" ==> IsSpace(rest[0]))
    ensures WordEnd(w + rest) == |w|
    ensures Words(w + rest) == [w] + Words(rest)
    decreases |w|
  {
    assert (w + rest)[0] == w[0] && !IsSpace(w[0]);
    assert (w + rest)[1..] == w[1..] + rest;
    if |w| > 1 {
      assert IsWord(w[1..]) by { forall i | 0 <= i < |w[1..]| ensures !IsSpace(w[1..][i]) { assert w[1..][i] == w[i + 1]; } }
      WordsOfWord(w[1..], rest);
    } else {
      assert w[1..] + rest == rest;
    }
    assert (w + rest)[..|w|] == w && (w + rest)[|w|..] == rest;
  }

  /** Splitting the join of words gives the words back. */
  lemma {:induction false} WordsOfJoin(ws: seq<string>)
    requires AllWords(ws)
    ensures Words(Join(ws)) == ws
    decreases |ws|
  {
    if |ws| == 1 {
      WordsOfWord(ws[0], "");
      assert ws[0] + "" == ws[0];
    } else if |ws| > 1 {
      var rest := " " + Join(ws[1..]);
      assert rest[1..] == Join(ws[1..]);
      WordsOfJoin(ws[1..]);
      WordsOfWord(ws[0], rest);
      assert Join(ws) == ws[0] + rest;
    }
  }

  lemma {:induction false} JoinTidy(ws: seq<string>)
    requires AllWords(ws)
    ensures Tidy(Join(ws))
    ensures ws != [] ==> Join(ws) != "" && !IsSpace(Join(ws)[0]) && !IsSpace(Join(ws)[|Join(ws)| - 1])
    decreases |ws|
  {
    if |ws| > 1 {
      JoinTidy(ws[1..]);
      var w, rest, s := ws[0], Join(ws[1..]), Join(ws);
      assert s == w + " " + rest;
      forall i | 0 <= i < |s|
        ensures s[i] == if i < |w| then w[i] else if i == |w| then ' ' else rest[i - |w| - 1]
      {
      }
    }
  }

  lemma TidyDrop(s: string, n: nat)
    requires Tidy(s) && n < |s| && IsSpace(s[n])
    ensures s[n] == ' ' && s[n + 1..] != "" && Tidy(s[n + 1..]) && !IsSpace(s[n + 1..][0])
    ensures s == s[..n] + " " + s[n + 1..]
  {
    var rest := s[n + 1..];
    forall i | 0 <= i < |rest|
      ensures rest[i] == s[n + 1 + i]
    {
    }
  }

  /** Tidy text is its own normal form. */
  lemma {:induction false} TidyNormal(s: string)
    requires Tidy(s)
    ensures Normalise(s) == s
    decreases |s|
  {
    if s != "" {
      var n := WordEnd(s);
      if n < |s| {
        TidyDrop(s, n);
        var rest := s[n + 1..];
        assert s[n..][0] == ' ' && s[n..][1..] == rest && n > 0;
        TidyNormal(rest);
        assert Words(s) == [s[..n]] + Words(rest);
        JoinAppend([s[..n]], Words(rest));
      } else {
        assert s[n..] == "" && s[..n] == s;
        assert Words(s) == [s] + Words("");
      }
    }
  }

  lemma TidyCut(s: string, i: nat)
    requires Tidy(s) && CutAt(s, i)
    ensures Tidy(s[..i]) && Tidy(s[i + 1..]) && s == s[..i] + " " + s[i + 1..]
  {
    var b := s[i + 1..];
    forall j | 0 <= j < |b|
      ensures b[j] == s[i + 1 + j]
    {
    }
  }

  /** Sentences are tidy and join back to the text they were cut from. */
  lemma {:induction false} SplitFlatJoin(flat: string)
    requires Tidy(flat)
    ensures Join(SplitFlat(flat)) == flat
    ensures forall k :: 0 <= k < |SplitFlat(flat)| ==> Tidy(SplitFlat(flat)[k])
    decreases |flat|
  {
    if flat != "" {
      var i := FirstCut(flat, 0);
      if i < |flat| {
        TidyCut(flat, i);
        SplitFlatJoin(flat[i + 1..]);
        JoinAppend([flat[..i]], SplitFlat(flat[i + 1..]));
      }
    }
  }

  lemma {:induction false} UnitsJoin(sentences: seq<string>, max: nat)
    requires forall k :: 0 <= k < |sentences| ==> sentences[k] != "" && Tidy(sentences[k])
    ensures Join(Units(sentences, max)) == Join(sentences)
    ensures sentences != [] ==> Units(sentences, max) != []
    decreases |sentences|
  {
    if sentences != [] {
      var head := if |sentences[0]| > max then Words(sentences[0]) else [sentences[0]];
      UnitsJoin(sentences[1..], max);
      TidyNormal(sentences[0]);
      JoinAppend(head, Units(sentences[1..], max));
      JoinAppend([sentences[0]], sentences[1..]);
      assert [sentences[0]] + sentences[1..] == sentences;
      if |sentences| == 1 { assert sentences[1..] == []; }
    }
  }

  /** Joining the chunks with spaces gives the whitespace-normalised text. */
  lemma ChunksReadBack(text: string, max: nat)
    ensures Join(ChunkText(text, max)) == Normalise(text)
  {
    var sentences := SplitSentences(text);
    JoinTidy(Words(text));
    SplitFlatJoin(Normalise(text));
    var groups := ChunkGroups(sentences, [], max);
    JoinOfJoins(groups);
    assert [] + Units(sentences, max) == Units(sentences, max);
    UnitsJoin(sentences, max);
  }

  /** Each chunk is the join of consecutive whole units, within the bound unless it is one oversized unit. */
  lemma ChunksKeepSentences(text: string, max: nat) returns (groups: seq<seq<string>>)
    ensures ChunkText(text, max) == JoinEach(groups)
    ensures Concat(groups) == Units(SplitSentences(text), max)
    ensures AllBounded(groups, max)
  {
    groups := ChunkGroups(SplitSentences(text), [], max);
    assert [] + Units(SplitSentences(text), max) == Units(SplitSentences(text), max);
  }

  lemma {:induction false} UnitOf(sentences: seq<string>, max: nat, u: string)
    requires u in Units(sentences, max)
    ensures |u| <= max || IsWord(u)
    decreases |sentences|
  {
    if sentences != [] && u in Units(sentences[1..], max) {
      UnitOf(sentences[1..], max, u);
    } else if sentences != [] && |sentences[0]| > max {
      assert u in Words(sentences[0]);
    }
  }

  lemma {:induction false} InConcat(groups: seq<seq<string>>, k: nat, u: string)
    requires k < |groups| && u in groups[k]
    ensures u in Concat(groups)
  {
    if k > 0 { InConcat(groups[1..], k - 1, u); }
  }

  /** Every chunk is within the bound or is a single word. */
  lemma ChunkBound(text: string, max: nat, k: nat)
    requires k < |ChunkText(text, max)|
    ensures |ChunkText(text, max)[k]| <= max || IsWord(ChunkText(text, max)[k])
  {
    var groups := ChunksKeepSentences(text, max);
    assert Bounded(groups[k], max);
    if |groups[k]| == 1 {
      assert groups[k][0] in groups[k];
      InConcat(groups, k, groups[k][0]);
      UnitOf(SplitSentences(text), max, groups[k][0]);
    }
  }

  /** Only blank text has no chunks. */
  lemma BlankHasNoChunks(text: string, max: nat)
    ensures ChunkText(text, max) == [] <==> Words(text) == []
  {
    ChunksReadBack(text, max);
    if Words(text) == [] {
      assert Normalise(text) == "";
    } else {
      JoinTidy(Words(text));
    }
  }

  // ----- optimality -----

  /** An order-preserving packing of the items within the bound. */
  predicate Packing(groups: seq<seq<string>>, items: seq<string>, max: nat) {
    Concat(groups) == items && forall i :: 0 <= i < |groups| ==> groups[i] != [] && |Join(groups[i])| <= max
  }

  /** Length after appending the items to an open group of the given length. */
  function Extended(length: nat, items: seq<string>): nat
    decreases |items|
  {
    if items == [] then length else Extended(length + 1 + |items[0]|, items[1..])
  }

  lemma {:induction false} ExtendedJoin(first: string, items: seq<string>)
    ensures Extended(|first|, items) == |Join([first] + items)|
    decreases |items|
  {
    if items != [] {
      var joined := first + " " + items[0];
      ExtendedJoin(joined, items[1..]);
      JoinAppend([first], items);
      JoinAppend([items[0]], items[1..]);
      assert [items[0]] + items[1..] == items;
      JoinAppend([joined], items[1..]);
      if items[1..] != [] {
        assert joined + " " + Join(items[1..]) == first + " " + (items[0] + " " + Join(items[1..]));
      }
    } else {
      assert [first] + items == [first];
    }
  }

  lemma {:induction false} ExtendedGrows(length: nat, items: seq<string>)
    ensures Extended(length, items) >= length
    decreases |items|
  {
    if items != [] { ExtendedGrows(length + 1 + |items[0]|, items[1..]); }
  }

  /**
   A packing in progress: its open group has the given length, `groups[0]` is
   what that group still takes, and the groups after it are whole.
   */
  ghost predicate Rest(groups: seq<seq<string>>, items: seq<string>, length: nat, max: nat) {
    && groups != [] && Concat(groups) == items && NonEmpty(items)
    && Extended(length, groups[0]) <= max
    && (forall i :: 1 <= i < |groups| ==> groups[i] != [] && |Join(groups[i])| <= max)
  }

  /** The other packing takes the next item into its open group. */
  lemma RestTakes(groups: seq<seq<string>>, items: seq<string>, length: nat, max: nat)
    requires Rest(groups, items, length, max) && groups[0] != []
    ensures items != [] && items[0] == groups[0][0]
    ensures Rest([groups[0][1..]] + groups[1..], items[1..], length + 1 + |items[0]|, max)
    ensures length + 1 + |items[0]| <= max
  {
    var next := [groups[0][1..]] + groups[1..];
    assert next[1..] == groups[1..];
    assert Concat(next) == items[1..];
    ExtendedGrows(length + 1 + |items[0]|, groups[0][1..]);
  }

  /** The other packing closes its open group and starts one with the next item. */
  lemma RestOpens(groups: seq<seq<string>>, items: seq<string>, length: nat, max: nat)
    requires Rest(groups, items, length, max) && groups[0] == [] && |groups| > 1
    ensures items != [] && items[0] == groups[1][0]
    ensures Rest([groups[1][1..]] + groups[2..], items[1..], |items[0]|, max)
  {
    var whole := groups[1..];
    assert Concat(groups) == [] + Concat(whole) == Concat(whole);
    assert whole[0] == groups[1] && whole[1..] == groups[2..];
    assert Concat(whole) == groups[1] + Concat(groups[2..]);
    var next := [groups[1][1..]] + groups[2..];
    assert next[1..] == groups[2..];
    assert Concat(next) == items[1..];
    assert [items[0]] + groups[1][1..] == groups[1];
    ExtendedJoin(items[0], groups[1][1..]);
    forall i | 1 <= i < |next|
      ensures next[i] != [] && |Join(next[i])| <= max
    {
      assert next[i] == groups[i + 1];
    }
  }

  lemma LastGroupEmpty(groups: seq<seq<string>>, items: seq<string>, length: nat, max: nat)
    requires Rest(groups, items, length, max) && groups == [[]]
    ensures items == []
  {
    assert groups[0] == [] && groups[1..] == [];
    assert Concat(groups) == groups[0] + Concat(groups[1..]) == [];
  }

  /** Greedy stays ahead: with no more groups closed and no longer an open group, it ends with no more groups. */
  lemma {:induction false} GreedyAhead(items: seq<string>, current: string, groups: seq<seq<string>>, length: nat, max: nat)
    requires current != "" && |current| <= length && Rest(groups, items, length, max)
    ensures |Pack(items, current, max)| <= |groups|
    decreases |items|
  {
    if groups[0] != [] {
      RestTakes(groups, items, length, max);
      GreedyAhead(items[1..], current + " " + items[0], [groups[0][1..]] + groups[1..], length + 1 + |items[0]|, max);
    } else if |groups| > 1 {
      RestOpens(groups, items, length, max);
      var next := [groups[1][1..]] + groups[2..];
      if |current| + 1 + |items[0]| <= max {
        GreedyOneAhead(items[1..], current + " " + items[0], next, |items[0]|, max);
      } else {
        GreedyAhead(items[1..], items[0], next, |items[0]|, max);
      }
    } else {
      LastGroupEmpty(groups, items, length, max);
    }
  }

  /** With one group fewer closed, the length of greedy's open group no longer matters. */
  lemma {:induction false} GreedyOneAhead(items: seq<string>, current: string, groups: seq<seq<string>>, length: nat, max: nat)
    requires current != "" && Rest(groups, items, length, max)
    ensures |Pack(items, current, max)| <= |groups| + 1
    decreases |items|
  {
    if groups[0] != [] {
      RestTakes(groups, items, length, max);
      var next := [groups[0][1..]] + groups[1..];
      if |current| + 1 + |items[0]| <= max {
        GreedyOneAhead(items[1..], current + " " + items[0], next, length + 1 + |items[0]|, max);
      } else {
        GreedyAhead(items[1..], items[0], next, length + 1 + |items[0]|, max);
      }
    } else if |groups| > 1 {
      RestOpens(groups, items, length, max);
      var next := [groups[1][1..]] + groups[2..];
      if |current| + 1 + |items[0]| <= max {
        GreedyOneAhead(items[1..], current + " " + items[0], next, |items[0]|, max);
      } else {
        GreedyAhead(items[1..], items[0], next, |items[0]|, max);
      }
    } else {
      LastGroupEmpty(groups, items, length, max);
    }
  }

  /** No order-preserving packing within the bound has fewer groups than greedy packing has chunks. */
  lemma PackIsOptimal(items: seq<string>, groups: seq<seq<string>>, max: nat)
    requires NonEmpty(items) && Packing(groups, items, max)
    ensures |Pack(items, "", max)| <= |groups|
  {
    if items != [] {
      var first := groups[0];
      var next := [first[1..]] + groups[1..];
      assert next[1..] == groups[1..];
      assert Concat(next) == items[1..];
      assert [items[0]] + first[1..] == first;
      ExtendedJoin(items[0], first[1..]);
      GreedyAhead(items[1..], items[0], next, |items[0]|, max);
    }
  }

  lemma {:induction false} FittingChunks(sentences: seq<string>, current: string, max: nat)
    requires forall k :: 0 <= k < |sentences| ==> |sentences[k]| <= max
    ensures Chunks(sentences, current, max) == Pack(sentences, current, max)
    decreases |sentences|
  {
    if sentences != [] {
      FittingChunks(sentences[1..], sentences[0], max);
      FittingChunks(sentences[1..], current + " " + sentences[0], max);
    }
  }

  /** When every sentence fits, no packing of whole sentences has fewer chunks. */
  lemma ChunkTextIsOptimal(text: string, groups: seq<seq<string>>, max: nat)
    requires forall k :: 0 <= k < |SplitSentences(text)| ==> |SplitSentences(text)[k]| <= max
    requires Packing(groups, SplitSentences(text), max)
    ensures |ChunkText(text, max)| <= |groups|
  {
    FittingChunks(SplitSentences(text), "", max);
    PackIsOptimal(SplitSentences(text), groups, max);
  }
}
