/**
 `verify_citations` of freshet/rag/composer.py: its regular expression as a
 scanner.  A bracket around an id-shaped text is a citation; it is rewritten from
 the evidence or removed together with the space before it.
 */
module Citations {
  import opened Basics
  import opened Chunking

  /** The evidence: event ids and the stamps to show for them. */
  type Evidence = map<string, string>

  predicate IsBracket(c: char) {
    c == '[' || c == ']'
  }

  predicate NoBrackets(s: string) {
    forall i :: 0 <= i < |s| ==> !IsBracket(s[i])
  }

  /** Where a match's brackets are. */
  datatype Span = Span(open: nat, close: nat)

  /**
   The first closing bracket that closes the bracket before it, with something
   between them, when `left` characters are still to be read.
   */
  function Scan(s: string, left: nat, open: Option<nat>): (found: Option<Span>)
    requires left <= |s| && (open.Some? ==> open.value < |s| - left)
    ensures found.Some? ==> found.value.open + 1 < found.value.close < |s|
    decreases left
  {
    if left == 0 then None
    else
      var at := |s| - left;
      if s[at] == '[' then Scan(s, left - 1, Some(at))
      else if s[at] == ']' then
        if open.Some? && open.value + 1 < at then Some(Span(open.value, at)) else Scan(s, left - 1, None)
      else Scan(s, left - 1, open)
  }

  function Find(s: string): (found: Option<Span>)
    ensures found.Some? ==> found.value.open + 1 < found.value.close < |s|
  {
    Scan(s, |s|, None)
  }

  /** Where the run of spaces before a position begins. */
  function LeadStart(s: string, i: nat): (l: nat)
    requires i <= |s|
    ensures l <= i
  {
    if i > 0 && IsSpace(s[i - 1]) then LeadStart(s, i - 1) else i
  }

  /** All of it is space, and there is none before it. */
  lemma {:induction false} LeadIsSpace(s: string, i: nat)
    requires i <= |s|
    ensures var l := LeadStart(s, i); (forall k :: l <= k < i ==> IsSpace(s[k])) && (l > 0 ==> !IsSpace(s[l - 1]))
    decreases i
  {
    if i > 0 && IsSpace(s[i - 1]) { LeadIsSpace(s, i - 1); }
  }

  /** Space up to the end, or up to an at sign. */
  predicate Ends(tail: string) {
    tail == "" || tail[0] == '@' || (IsSpace(tail[0]) && Ends(tail[1..]))
  }

  /** The shortest beginning, of at least i characters, that the rest of the pattern can follow. */
  function IdLength(content: string, i: nat): (n: nat)
    requires i <= |content|
    ensures i <= n <= |content|
    decreases |content| - i
  {
    if Ends(content[i..]) then i else IdLength(content, i + 1)
  }

  function TrimRight(s: string): string {
    s[..LeadStart(s, |s|)]
  }

  function TrimLeft(s: string): string {
    if s != "" && IsSpace(s[0]) then TrimLeft(s[1..]) else s
  }

  /** The id a bracket cites, if it is one. */
  function Cited(content: string): string
    requires content != ""
  {
    TrimLeft(TrimRight(content[..IdLength(content, 1)]))
  }

  predicate Alphanumeric(c: char) {
    'A' <= c <= 'Z' || 'a' <= c <= 'z' || '0' <= c <= '9'
  }

  predicate IdShaped(s: string) {
    && |s| >= 3 && Alphanumeric(s[0])
    && (forall i :: 0 <= i < |s| ==> Alphanumeric(s[i]) || s[i] in "_.:-")
    && exists i :: 0 <= i < |s| && ('0' <= s[i] <= '9' || s[i] in "_:-")
  }

  predicate IsCitation(content: string) {
    content != "" && IdShaped(Cited(content))
  }

  function Stamped(id: string, evidence: Evidence): string
    requires id in evidence
  {
    id + " @ " + evidence[id]
  }

  /** What becomes of a match: it goes, with the space before it, or it stays with this between its brackets. */
  datatype Verdict = Drop | Keep(content: string)

  /** `keep`, the callback of the substitution. */
  function Judge(content: string, evidence: Evidence): Verdict {
    if !IsCitation(content) then Keep(content)
    else if Cited(content) !in evidence then Drop
    else Keep(Stamped(Cited(content), evidence))
  }

  function Replaced(lead: string, verdict: Verdict): string {
    if verdict.Drop? then "" else lead + "[" + verdict.content + "]"
  }

  /** The answer in the making: the text up to and with each match, then the rest. */
  datatype Parts = Rest(text: string) | Part(text: string, more: Parts)

  function Text(parts: Parts): string {
    match parts
    case Rest(text) => text
    case Part(text, more) => text + Text(more)
  }

  /** The matches of `_CITATION.sub(judge, s)`, one by one from the left. */
  function Matches(s: string, found: Option<Span>, judge: string -> Verdict): Parts
    requires found.Some? ==> found.value.open < found.value.close < |s|
    decreases |s|
  {
    if found.None? then Rest(s)
    else
      var rest := s[found.value.close + 1..];
      Part(UpTo(s, found.value, judge), Matches(rest, Find(rest), judge))
  }

  function Substitute(s: string, judge: string -> Verdict): string {
    Text(Matches(s, Find(s), judge))
  }

  /** The text up to and with a match. */
  function UpTo(s: string, at: Span, judge: string -> Verdict): string
    requires at.open < at.close < |s|
  {
    var l := LeadStart(s, at.open);
    s[..l] + Replaced(s[l..at.open], judge(s[at.open + 1..at.close]))
  }

  function Judging(evidence: Evidence): string -> Verdict {
    content => Judge(content, evidence)
  }

  function VerifyCitations(answer: string, evidence: Evidence): string {
    Substitute(answer, Judging(evidence))
  }

  // ----- cutting an answer into pieces

  /** Prose and the match after it. */
  datatype Piece = Piece(prose: string, content: string)

  predicate Clear(s: string) {
    Find(s) == None
  }

  /** Pieces as the scanner cuts them: no match in any prose, no bracket in any match. */
  predicate Parsed(pieces: seq<Piece>, tail: string) {
    Clear(tail) && forall p :: p in pieces ==> Clear(p.prose) && Bracketed(p.content)
  }

  /** What can stand between the brackets of a match. */
  predicate Bracketed(content: string) {
    content != "" && NoBrackets(content)
  }

  function Render(pieces: seq<Piece>, tail: string): string {
    if pieces == [] then tail
    else pieces[0].prose + "[" + pieces[0].content + "]" + Render(pieces[1..], tail)
  }

  function Cut(s: string): (seq<Piece>, string)
    decreases |s|
  {
    var found := Find(s);
    if found.None? then ([], s)
    else
      var Span(i, j) := found.value;
      var (pieces, tail) := Cut(s[j + 1..]);
      ([Piece(s[..i], s[i + 1..j])] + pieces, tail)
  }

  /** The substitution on pieces; `carry` is prose left by removed citations. */
  function OnPieces(carry: string, pieces: seq<Piece>, tail: string, judge: string -> Verdict): (seq<Piece>, string)
    decreases |pieces|
  {
    if pieces == [] then ([], carry + tail)
    else
      var p, verdict := pieces[0], judge(pieces[0].content);
      if verdict.Drop? then OnPieces(carry + TrimRight(p.prose), pieces[1..], tail, judge)
      else
        var (rest, end) := OnPieces("", pieces[1..], tail, judge);
        ([Piece(carry + p.prose, verdict.content)] + rest, end)
  }

  /** The bracket still open after all of it, when nothing in it closes one. */
  function OpenAfter(s: string, k: nat, open: Option<nat>): (after: Option<nat>)
    requires k <= |s| && (open.Some? ==> open.value < k)
    ensures after.Some? ==> after.value < |s|
    decreases |s| - k
  {
    if k == |s| then open
    else if s[k] == '[' then OpenAfter(s, k + 1, Some(k))
    else if s[k] == ']' then OpenAfter(s, k + 1, None)
    else OpenAfter(s, k + 1, open)
  }

  /** A beginning decides the scan, or hands its open bracket on. */
  lemma {:induction false} ScanBeginning(a: string, s: string, k: nat, open: Option<nat>)
    requires k <= |a| <= |s| && s[..|a|] == a && (open.Some? ==> open.value < k)
    ensures Scan(a, |a| - k, open).Some? ==> Scan(s, |s| - k, open) == Scan(a, |a| - k, open)
    ensures Scan(a, |a| - k, open).None? ==> Scan(s, |s| - k, open) == Scan(s, |s| - |a|, OpenAfter(a, k, open))
    decreases |a| - k
  {
    if k < |a| {
      assert s[k] == s[..|a|][k] == a[k];
      if a[k] == '[' { ScanBeginning(a, s, k + 1, Some(k)); }
      else if a[k] == ']' { ScanBeginning(a, s, k + 1, None); }
      else { ScanBeginning(a, s, k + 1, open); }
    }
  }

  /** Text without brackets is passed over. */
  lemma {:induction false} ScanPast(s: string, left: nat, n: nat, open: Option<nat>)
    requires n <= left <= |s| && (open.Some? ==> open.value < |s| - left)
    requires forall k :: |s| - left <= k < |s| - left + n ==> !IsBracket(s[k])
    ensures Scan(s, left, open) == Scan(s, left - n, open)
    decreases n
  {
    if n > 0 { ScanPast(s, left - 1, n - 1, open); }
  }

  /** A match is an opening bracket, text without brackets, and a closing one. */
  lemma {:induction false} ScanShape(s: string, left: nat, open: Option<nat>)
    requires left <= |s| && (open.Some? ==> open.value < |s| - left && s[open.value] == '[')
    requires open.Some? ==> forall k :: open.value < k < |s| - left ==> !IsBracket(s[k])
    ensures var found := Scan(s, left, open);
      found.Some? ==>
        s[found.value.open] == '[' && s[found.value.close] == ']'
        && forall k :: found.value.open < k < found.value.close ==> !IsBracket(s[k])
    decreases left
  {
    if left > 0 {
      var at := |s| - left;
      if s[at] == '[' { ScanShape(s, left - 1, Some(at)); }
      else if s[at] == ']' { ScanShape(s, left - 1, None); }
      else { ScanShape(s, left - 1, open); }
    }
  }

  /** The first match cuts the text into clear prose, its content and the rest. */
  lemma {:induction false} FoundShape(s: string)
    requires Find(s).Some?
    ensures var Span(i, j) := Find(s).value;
      && Clear(s[..i]) && Bracketed(s[i + 1..j])
      && s == s[..i] + "[" + s[i + 1..j] + "]" + s[j + 1..]
  {
    var Span(i, j) := Find(s).value;
    ScanShape(s, |s|, None);
    ScanBeginning(s[..i], s, 0, None);
    assert s == s[..i] + [s[i]] + s[i + 1..j] + [s[j]] + s[j + 1..];
  }

  /** Whatever clear prose comes first, and however its brackets stand, the next bracketed text is the match. */
  lemma {:induction false} FindAfter(s: string, i: nat, j: nat)
    requires i + 1 < j < |s| && Clear(s[..i]) && s[i] == '[' && s[j] == ']'
    requires forall k :: i < k < j ==> !IsBracket(s[k])
    ensures Find(s) == Some(Span(i, j))
  {
    ScanBeginning(s[..i], s, 0, None);
    ScanPast(s, |s| - i - 1, j - i - 1, Some(i));
  }

  lemma {:induction false} FindInPiece(p: Piece, rest: string)
    requires Clear(p.prose) && Bracketed(p.content)
    ensures var s := p.prose + "[" + p.content + "]" + rest;
      var i, j := |p.prose|, |p.prose| + 1 + |p.content|;
      Find(s) == Some(Span(i, j)) && s[..i] == p.prose && s[i + 1..j] == p.content && s[j + 1..] == rest
  {
    var s := p.prose + "[" + p.content + "]" + rest;
    var i, j := |p.prose|, |p.prose| + 1 + |p.content|;
    assert s[..i] == p.prose && s[i + 1..j] == p.content && s[j + 1..] == rest;
    assert forall k :: i < k < j ==> s[k] == p.content[k - i - 1];
    FindAfter(s, i, j);
  }

  /** A match in a beginning is the match of the whole. */
  lemma {:induction false} FindInBeginning(a: string, s: string)
    requires a <= s && Find(a).Some?
    ensures Find(s) == Find(a)
  {
    ScanBeginning(a, s, 0, None);
  }

  lemma {:induction false} CutRenders(s: string)
    ensures var (pieces, tail) := Cut(s); Parsed(pieces, tail) && Render(pieces, tail) == s
    decreases |s|
  {
    if Find(s).Some? {
      var Span(i, j) := Find(s).value;
      FoundShape(s);
      CutRenders(s[j + 1..]);
      var (pieces, tail) := Cut(s[j + 1..]);
      RenderCons(Piece(s[..i], s[i + 1..j]), pieces, tail);
    }
  }

  lemma {:induction false} LeadStartPrefix(s: string, t: string, i: nat)
    requires i <= |s| && i <= |t| && s[..i] == t[..i]
    ensures LeadStart(s, i) == LeadStart(t, i)
    decreases i
  {
    if i > 0 {
      assert s[i - 1] == s[..i][i - 1] == t[..i][i - 1] == t[i - 1];
      assert s[..i - 1] == s[..i][..i - 1] == t[..i][..i - 1] == t[..i - 1];
      LeadStartPrefix(s, t, i - 1);
    }
  }

  lemma {:induction false} MatchStep(s: string, at: Span, judge: string -> Verdict)
    requires at.open < at.close < |s|
    ensures Text(Matches(s, Some(at), judge)) == UpTo(s, at, judge) + Substitute(s[at.close + 1..], judge)
  {
    var rest := s[at.close + 1..];
    var parts := Matches(rest, Find(rest), judge);
    assert Matches(s, Some(at), judge) == Part(UpTo(s, at, judge), parts);
    assert Text(Part(UpTo(s, at, judge), parts)) == UpTo(s, at, judge) + Text(parts);
  }

  lemma {:induction false} SubstituteAt(s: string, at: Span, judge: string -> Verdict)
    requires at.open < at.close < |s| && Find(s) == Some(at)
    ensures Substitute(s, judge) == UpTo(s, at, judge) + Substitute(s[at.close + 1..], judge)
  {
    MatchStep(s, at, judge);
  }

  lemma {:induction false} LeadOfPiece(p: Piece, rest: string, l: nat)
    requires l == LeadStart(p.prose + "[" + p.content + "]" + rest, |p.prose|)
    ensures l <= |p.prose| && (p.prose + "[" + p.content + "]" + rest)[..l] == p.prose[..l] == TrimRight(p.prose)
    ensures (p.prose + "[" + p.content + "]" + rest)[l..|p.prose|] == p.prose[l..]
  {
    var s, i := p.prose + "[" + p.content + "]" + rest, |p.prose|;
    assert s[..i] == p.prose == p.prose[..i];
    LeadStartPrefix(s, p.prose, i);
    assert s[..l] == s[..i][..l] && s[l..i] == s[..i][l..];
  }

  lemma {:induction false} Glue(prose: string, l: nat, content: string)
    requires l <= |prose|
    ensures prose[..l] + (prose[l..] + "[" + content + "]") == prose + "[" + content + "]"
  {
    assert prose == prose[..l] + prose[l..];
  }

  /** What becomes of one piece. */
  function AfterPiece(p: Piece, verdict: Verdict): string {
    if verdict.Drop? then TrimRight(p.prose) else p.prose + "[" + verdict.content + "]"
  }

  lemma {:induction false} UpToPiece(p: Piece, rest: string, at: Span, judge: string -> Verdict)
    requires at == Span(|p.prose|, |p.prose| + 1 + |p.content|)
    ensures var s := p.prose + "[" + p.content + "]" + rest;
      UpTo(s, at, judge) == AfterPiece(p, judge(p.content))
  {
    var s := p.prose + "[" + p.content + "]" + rest;
    var l := LeadStart(s, at.open);
    assert s[at.open + 1..at.close] == p.content;
    LeadOfPiece(p, rest, l);
    if judge(p.content).Drop? {
      assert p.prose[..l] + "" == p.prose[..l];
    } else {
      Glue(p.prose, l, judge(p.content).content);
    }
  }

  /** The scanner takes one piece at a time. */
  lemma {:induction false} SubstitutePiece(p: Piece, rest: string, judge: string -> Verdict)
    requires Clear(p.prose) && Bracketed(p.content)
    ensures Substitute(p.prose + "[" + p.content + "]" + rest, judge) == AfterPiece(p, judge(p.content)) + Substitute(rest, judge)
  {
    var s := p.prose + "[" + p.content + "]" + rest;
    var at := Span(|p.prose|, |p.prose| + 1 + |p.content|);
    FindInPiece(p, rest);
    SubstituteAt(s, at, judge);
    UpToPiece(p, rest, at, judge);
  }

  lemma {:induction false} Associate(a: string, b: string, c: string)
    ensures a + b + c == a + (b + c)
    ensures "" + c == c
  {
  }

  /** The scanner does to the text what OnPieces does to the pieces. */
  lemma {:induction false} ScannerOnPieces(carry: string, pieces: seq<Piece>, tail: string, judge: string -> Verdict)
    requires Parsed(pieces, tail)
    ensures var (out, end) := OnPieces(carry, pieces, tail, judge);
      Render(out, end) == carry + Substitute(Render(pieces, tail), judge)
    decreases |pieces|
  {
    if pieces != [] {
      var p, rest, verdict := pieces[0], Render(pieces[1..], tail), judge(pieces[0].content);
      var done := Substitute(rest, judge);
      SubstitutePiece(p, rest, judge);
      if verdict.Drop? {
        ScannerOnPieces(carry + TrimRight(p.prose), pieces[1..], tail, judge);
        Associate(carry, TrimRight(p.prose), done);
      } else {
        ScannerOnPieces("", pieces[1..], tail, judge);
        var (out, end) := OnPieces("", pieces[1..], tail, judge);
        RenderCons(Piece(carry + p.prose, verdict.content), out, end);
        Associate("", "", done);
        KeptPiece(carry, p.prose, verdict.content, done);
      }
    }
  }

  lemma {:induction false} KeptPiece(carry: string, prose: string, content: string, done: string)
    ensures carry + prose + "[" + content + "]" + done == carry + (prose + "[" + content + "]" + done)
  {
  }

  lemma {:induction false} RenderCons(p: Piece, pieces: seq<Piece>, tail: string)
    ensures Render([p] + pieces, tail) == p.prose + "[" + p.content + "]" + Render(pieces, tail)
  {
    assert ([p] + pieces)[1..] == pieces;
  }
}
