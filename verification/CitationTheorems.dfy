/**
 What verification of citations guarantees, for every answer a model may write:
 what is kept is grounded in the evidence, nothing but citations is touched, and
 an unsupported citation is left exactly where removing one closes up another.
 */
module CitationTheorems {
  import opened Basics
  import opened Chunking
  import opened Citations

  /** What stays between brackets is judged the same again. */
  ghost predicate Settles(judge: string -> Verdict) {
    forall c :: Bracketed(c) && judge(c).Keep? ==> Bracketed(judge(c).content) && judge(judge(c).content) == judge(c)
  }

  /** Every kept piece stands between brackets and would be kept again. */
  predicate AllSettled(pieces: seq<Piece>, judge: string -> Verdict) {
    forall p :: p in pieces ==> Bracketed(p.content) && judge(p.content) == Keep(p.content)
  }

  lemma {:induction false} OutSettled(carry: string, pieces: seq<Piece>, tail: string, judge: string -> Verdict)
    requires Parsed(pieces, tail) && Settles(judge)
    ensures AllSettled(OnPieces(carry, pieces, tail, judge).0, judge)
    decreases |pieces|
  {
    if pieces != [] {
      var p := pieces[0];
      assert Bracketed(p.content);
      OutSettled(if judge(p.content).Drop? then carry + TrimRight(p.prose) else "", pieces[1..], tail, judge);
    }
  }

  /** The text without the brackets of some kind, each removed with the space before it. */
  function Without(pieces: seq<Piece>, tail: string, kind: string -> bool): string {
    if pieces == [] then tail
    else
      var p := pieces[0];
      (if kind(p.content) then TrimRight(p.prose) else p.prose + "[" + p.content + "]") + Without(pieces[1..], tail, kind)
  }

  /** The callback drops and rewrites only brackets of the kind, and keeps them of the kind. */
  ghost predicate Respects(judge: string -> Verdict, kind: string -> bool) {
    forall c :: Bracketed(c) ==> if kind(c) then judge(c).Keep? ==> kind(judge(c).content) else judge(c) == Keep(c)
  }

  /** How a text begins does not matter to what is trimmed at its end, once that beginning is trimmed. */
  lemma {:induction false} TrimJoin(a: string, b: string)
    requires TrimRight(a) == a
    ensures TrimRight(a + b) == a + TrimRight(b)
    decreases |b|
  {
    if b == "" {
      assert a + b == a;
      assert TrimRight(b) == "";
    } else {
      var n := |b| - 1;
      if IsSpace(b[n]) {
        TrimJoin(a, b[..n]);
        TrimDrop(a + b);
        TrimDrop(b);
        assert (a + b)[..|a| + n] == a + b[..n];
      } else {
        assert (a + b)[..|a + b|] == a + b && b[..|b|] == b;
      }
    }
  }

  lemma {:induction false} TrimDrop(s: string)
    requires s != "" && IsSpace(s[|s| - 1])
    ensures TrimRight(s) == TrimRight(s[..|s| - 1])
  {
    var t := s[..|s| - 1];
    assert t[..|t|] == s[..|t|];
    LeadStartPrefix(s, t, |t|);
  }

  lemma {:induction false} TrimTwice(s: string)
    ensures TrimRight(TrimRight(s)) == TrimRight(s)
  {
    var t := TrimRight(s);
    LeadIsSpace(s, |s|);
    assert t != "" ==> t[|t| - 1] == s[|t| - 1];
    assert t[..|t|] == t;
  }

  lemma {:induction false} WithoutKept(carry: string, pieces: seq<Piece>, tail: string, judge: string -> Verdict, kind: string -> bool)
    requires Parsed(pieces, tail) && Respects(judge, kind) && TrimRight(carry) == carry
    ensures var (out, end) := OnPieces(carry, pieces, tail, judge);
      Without(out, end, kind) == carry + Without(pieces, tail, kind)
    decreases |pieces|
  {
    if pieces != [] {
      var p, verdict := pieces[0], judge(pieces[0].content);
      assert Bracketed(p.content);
      TrimJoin(carry, p.prose);
      var later := Without(pieces[1..], tail, kind);
      if verdict.Drop? {
        TrimTwice(carry + p.prose);
        WithoutKept(carry + TrimRight(p.prose), pieces[1..], tail, judge, kind);
        Associate(carry, TrimRight(p.prose), later);
      } else {
        WithoutKept("", pieces[1..], tail, judge, kind);
        var (out, end) := OnPieces("", pieces[1..], tail, judge);
        WithoutCons(Piece(carry + p.prose, verdict.content), out, end, kind);
        Associate(carry, TrimRight(p.prose), later);
        KeptPiece(carry, p.prose, p.content, later);
      }
    }
  }

  lemma {:induction false} WithoutCons(p: Piece, pieces: seq<Piece>, tail: string, kind: string -> bool)
    ensures Without([p] + pieces, tail, kind)
         == (if kind(p.content) then TrimRight(p.prose) else p.prose + "[" + p.content + "]") + Without(pieces, tail, kind)
  {
    assert ([p] + pieces)[1..] == pieces;
  }

  // ----- citations

  /** Stamps are dates and times. */
  predicate PlainStamps(evidence: Evidence) {
    forall id :: id in evidence ==> NoBrackets(evidence[id])
  }

  /** A citation as it should be: an id of the evidence with its own stamp. */
  predicate Grounded(content: string, evidence: Evidence) {
    IsCitation(content) ==> Cited(content) in evidence && content == Stamped(Cited(content), evidence)
  }

  lemma {:induction false} EndsNot(tail: string)
    requires tail != "" && tail[0] != '@' && !IsSpace(tail[0])
    ensures !Ends(tail)
  {
  }

  lemma {:induction false} IdLengthIs(content: string, i: nat, n: nat)
    requires i <= n <= |content| && Ends(content[n..]) && forall k :: i <= k < n ==> content[k] != '@' && !IsSpace(content[k])
    ensures IdLength(content, i) == n
    decreases n - i
  {
    if i < n {
      EndsNot(content[i..]);
      IdLengthIs(content, i + 1, n);
    }
  }

  lemma {:induction false} IdCharacters(id: string)
    requires IdShaped(id)
    ensures forall k :: 0 <= k < |id| ==> !IsSpace(id[k]) && id[k] != '@' && !IsBracket(id[k])
  {
  }

  lemma {:induction false} CitedAtStart(content: string, id: string)
    requires IdShaped(id) && |id| <= |content| && content[..|id|] == id && Ends(content[|id|..])
    ensures content != "" && Cited(content) == id && IsCitation(content)
  {
    IdCharacters(id);
    assert forall k :: 0 <= k < |id| ==> content[k] == id[k];
    IdLengthIs(content, 1, |id|);
    assert TrimRight(id) == id[..|id|] == id;
  }

  /** A stamped citation cites its id, and so does a bare one. */
  lemma {:induction false} CitedOfStamped(id: string, evidence: Evidence)
    requires IdShaped(id) && id in evidence
    ensures var content := Stamped(id, evidence); Cited(content) == id && IsCitation(content)
  {
    var content := Stamped(id, evidence);
    assert content[|id|..] == " @ " + evidence[id];
    assert content[|id|..][1..][0] == '@';
    CitedAtStart(content, id);
  }

  lemma {:induction false} JudgeSettles(evidence: Evidence)
    requires PlainStamps(evidence)
    ensures Settles(Judging(evidence))
  {
    forall c | Bracketed(c) && Judge(c, evidence).Keep?
      ensures var kept := Judge(c, evidence).content; Bracketed(kept) && Judge(kept, evidence) == Keep(kept)
    {
      if IsCitation(c) {
        IdCharacters(Cited(c));
        CitedOfStamped(Cited(c), evidence);
      }
    }
  }

  lemma {:induction false} JudgeRespects(evidence: Evidence)
    ensures Respects(Judging(evidence), IsCitation)
  {
    forall c | Bracketed(c)
      ensures if IsCitation(c) then Judge(c, evidence).Keep? ==> IsCitation(Judge(c, evidence).content)
              else Judge(c, evidence) == Keep(c)
    {
      if IsCitation(c) && Cited(c) in evidence { CitedOfStamped(Cited(c), evidence); }
    }
  }

  /** Every match of the text is prose or a citation of the evidence with its own stamp. */
  predicate AllGrounded(s: string, evidence: Evidence)
    decreases |s|
  {
    Find(s).None?
    || (Grounded(s[Find(s).value.open + 1..Find(s).value.close], evidence) && AllGrounded(s[Find(s).value.close + 1..], evidence))
  }

  lemma {:induction false} GroundedAt(s: string, at: Span, evidence: Evidence)
    requires at.open + 1 < at.close < |s| && Find(s) == Some(at)
    ensures AllGrounded(s, evidence) <==>
      Grounded(s[at.open + 1..at.close], evidence) && AllGrounded(s[at.close + 1..], evidence)
  {
  }

  /** The first match of a beginning is judged on its own. */
  lemma {:induction false} GroundedLonger(a: string, more: string, at: Span, evidence: Evidence)
    requires Find(a) == Some(at) && at.open + 1 < at.close < |a|
    ensures AllGrounded(a + more, evidence)
      <==> Grounded(a[at.open + 1..at.close], evidence) && AllGrounded(a[at.close + 1..] + more, evidence)
  {
    FirstOfLonger(a, more, at);
    GroundedAt(a + more, at, evidence);
  }

  lemma {:induction false} FirstOfLonger(a: string, more: string, at: Span)
    requires Find(a) == Some(at) && at.open + 1 < at.close < |a|
    ensures var s := a + more;
      && Find(s) == Some(at) && s[at.open + 1..at.close] == a[at.open + 1..at.close]
      && s[at.close + 1..] == a[at.close + 1..] + more
  {
    var s := a + more;
    assert s[..|a|] == a;
    FindInBeginning(a, s);
    assert s[at.open + 1..at.close] == a[at.open + 1..at.close];
    assert s[at.close + 1..] == a[at.close + 1..] + more;
  }

  lemma {:induction false} GroundedPiece(p: Piece, rest: string, evidence: Evidence)
    requires Clear(p.prose) && Bracketed(p.content)
    ensures AllGrounded(p.prose + "[" + p.content + "]" + rest, evidence) <==> Grounded(p.content, evidence) && AllGrounded(rest, evidence)
  {
    FindInPiece(p, rest);
    GroundedAt(p.prose + "[" + p.content + "]" + rest, Span(|p.prose|, |p.prose| + 1 + |p.content|), evidence);
  }

  /** A bracketed text shuts off what is before it from what is after it. */
  lemma {:induction false} GroundedSplit(a: string, content: string, rest: string, evidence: Evidence)
    requires Bracketed(content)
    ensures AllGrounded(a + "[" + content + "]" + rest, evidence)
      <==> AllGrounded(a, evidence) && Grounded(content, evidence) && AllGrounded(rest, evidence)
    decreases |a|
  {
    if Find(a).None? {
      GroundedPiece(Piece(a, content), rest, evidence);
    } else {
      var after := a[Find(a).value.close + 1..];
      Bracket(a, content, rest);
      Bracket(after, content, rest);
      GroundedAt(a, Find(a).value, evidence);
      GroundedLonger(a, "[" + content + "]" + rest, Find(a).value, evidence);
      GroundedSplit(after, content, rest, evidence);
    }
  }

  lemma {:induction false} Bracket(a: string, content: string, rest: string)
    ensures a + "[" + content + "]" + rest == a + ("[" + content + "]" + rest)
  {
  }

  lemma {:induction false} RenderGrounded(pieces: seq<Piece>, tail: string, evidence: Evidence)
    requires forall p :: p in pieces ==> Bracketed(p.content) && Grounded(p.content, evidence)
    ensures AllGrounded(Render(pieces, tail), evidence)
      <==> (forall p :: p in pieces ==> AllGrounded(p.prose, evidence)) && AllGrounded(tail, evidence)
    decreases |pieces|
  {
    if pieces != [] {
      GroundedSplit(pieces[0].prose, pieces[0].content, Render(pieces[1..], tail), evidence);
      RenderGrounded(pieces[1..], tail, evidence);
      assert forall p :: p in pieces <==> p == pieces[0] || p in pieces[1..];
    }
  }

  /** The verified answer: its kept matches, and the prose between them, joined where citations were removed. */
  function Verified(answer: string, evidence: Evidence): (seq<Piece>, string) {
    var (pieces, tail) := Cut(answer);
    OnPieces("", pieces, tail, Judging(evidence))
  }

  lemma {:induction false} VerifiedRenders(answer: string, evidence: Evidence)
    ensures var (out, end) := Verified(answer, evidence); VerifyCitations(answer, evidence) == Render(out, end)
  {
    var (pieces, tail) := Cut(answer);
    CutRenders(answer);
    ScannerOnPieces("", pieces, tail, Judging(evidence));
    Associate("", "", VerifyCitations(answer, evidence));
  }

  lemma {:induction false} KeptIsGrounded(answer: string, evidence: Evidence)
    requires PlainStamps(evidence)
    ensures var (out, end) := Verified(answer, evidence);
      forall p :: p in out ==> Bracketed(p.content) && Grounded(p.content, evidence)
  {
    var (pieces, tail) := Cut(answer);
    CutRenders(answer);
    JudgeSettles(evidence);
    OutSettled("", pieces, tail, Judging(evidence));
  }

  /**
     For every answer: what is kept is always grounded, and the verified answer cites
     nothing but the evidence if and only if no unsupported citation comes together
     in the prose where citations were removed.
   */
  lemma {:induction false} GroundedExactly(answer: string, evidence: Evidence)
    requires PlainStamps(evidence)
    ensures var (out, end) := Verified(answer, evidence);
      && (forall p :: p in out ==> Grounded(p.content, evidence))
      && (AllGrounded(VerifyCitations(answer, evidence), evidence)
          <==> (forall p :: p in out ==> AllGrounded(p.prose, evidence)) && AllGrounded(end, evidence))
  {
    var (out, end) := Verified(answer, evidence);
    VerifiedRenders(answer, evidence);
    KeptIsGrounded(answer, evidence);
    RenderGrounded(out, end, evidence);
  }

  // ----- answers whose brackets do not nest

  /** Between two opening brackets there is a closing one. */
  predicate NotNested(s: string) {
    forall i, j :: 0 <= i < j < |s| && s[i] == '[' && s[j] == '[' ==> exists k :: i < k < j && s[k] == ']'
  }

  /** No match, and no bracket left open. */
  predicate Closed(s: string) {
    Clear(s) && OpenAfter(s, 0, None) == None
  }

  lemma {:induction false} OpenIsBracket(s: string, k: nat, open: Option<nat>)
    requires k <= |s| && (open.Some? ==> open.value < k && s[open.value] == '[')
    requires open.Some? ==> forall j :: open.value < j < k ==> !IsBracket(s[j])
    ensures var after := OpenAfter(s, k, open);
      after.Some? ==> s[after.value] == '[' && forall j :: after.value < j < |s| ==> !IsBracket(s[j])
    decreases |s| - k
  {
    if k < |s| {
      if s[k] == '[' { OpenIsBracket(s, k + 1, Some(k)); }
      else if s[k] == ']' { OpenIsBracket(s, k + 1, None); }
      else { OpenIsBracket(s, k + 1, open); }
    }
  }

  lemma {:induction false} NotNestedRest(s: string, n: nat)
    requires NotNested(s) && n <= |s|
    ensures NotNested(s[n..])
  {
    var rest := s[n..];
    forall a, b | 0 <= a < b < |rest| && rest[a] == '[' && rest[b] == '['
      ensures exists k :: a < k < b && rest[k] == ']'
    {
      assert s[n + a] == '[' && s[n + b] == '[';
      var k :| n + a < k < n + b && s[k] == ']';
      assert rest[k - n] == ']';
    }
  }

  lemma {:induction false} NothingOpen(s: string, i: nat)
    requires NotNested(s) && i < |s| && s[i] == '['
    ensures OpenAfter(s[..i], 0, None) == None
  {
    var prose := s[..i];
    OpenIsBracket(prose, 0, None);
    if OpenAfter(prose, 0, None).Some? {
      var o := OpenAfter(prose, 0, None).value;
      assert s[o] == prose[o] == '[';
      var k :| o < k < i && s[k] == ']';
      assert prose[k] == ']' && IsBracket(prose[k]);
    }
  }

  lemma {:induction false} CutClosed(s: string)
    requires NotNested(s)
    ensures forall p :: p in Cut(s).0 ==> Closed(p.prose)
    decreases |s|
  {
    if Find(s).Some? {
      var Span(i, j) := Find(s).value;
      FoundShape(s);
      ScanShape(s, |s|, None);
      NothingOpen(s, i);
      NotNestedRest(s, j + 1);
      CutClosed(s[j + 1..]);
    }
  }

  function Shifted(open: Option<nat>, n: nat): Option<nat> {
    if open.Some? then Some(open.value + n) else None
  }

  /** Where a text stands does not matter to whether it holds a match or leaves a bracket open. */
  lemma {:induction false} ScanShifted(a: string, b: string, k: nat, open: Option<nat>)
    requires k <= |b| && (open.Some? ==> open.value < k)
    ensures Scan(a + b, |b| - k, Shifted(open, |a|)).None? <==> Scan(b, |b| - k, open).None?
    ensures OpenAfter(a + b, |a| + k, Shifted(open, |a|)).None? <==> OpenAfter(b, k, open).None?
    decreases |b| - k
  {
    if k < |b| {
      assert (a + b)[|a| + k] == b[k];
      if b[k] == '[' { ScanShifted(a, b, k + 1, Some(k)); }
      else if b[k] == ']' { ScanShifted(a, b, k + 1, None); }
      else { ScanShifted(a, b, k + 1, open); }
    }
  }

  lemma {:induction false} OpenAfterBeginning(a: string, s: string, k: nat, open: Option<nat>)
    requires k <= |a| <= |s| && s[..|a|] == a && (open.Some? ==> open.value < k)
    ensures OpenAfter(s, k, open) == OpenAfter(s, |a|, OpenAfter(a, k, open))
    decreases |a| - k
  {
    if k < |a| {
      assert s[k] == s[..|a|][k] == a[k];
      OpenAfterBeginning(a, s, k + 1, if a[k] == '[' then Some(k) else if a[k] == ']' then None else open);
    }
  }

  /** Clear text after closed text is clear, and closed text after it closed. */
  lemma {:induction false} JoinClosed(a: string, b: string)
    requires Closed(a) && Clear(b)
    ensures Clear(a + b) && (Closed(b) ==> Closed(a + b))
  {
    assert (a + b)[..|a|] == a;
    ScanBeginning(a, a + b, 0, None);
    OpenAfterBeginning(a, a + b, 0, None);
    ScanShifted(a, b, 0, None);
  }

  lemma {:induction false} OpenPast(s: string, k: nat, open: Option<nat>)
    requires k <= |s| && (open.Some? ==> open.value < k) && forall j :: k <= j < |s| ==> !IsBracket(s[j])
    ensures OpenAfter(s, k, open) == open
    decreases |s| - k
  {
    if k < |s| { OpenPast(s, k + 1, open); }
  }

  lemma {:induction false} TrimClosed(s: string)
    requires Closed(s)
    ensures Closed(TrimRight(s))
  {
    var a := TrimRight(s);
    LeadIsSpace(s, |s|);
    ScanBeginning(a, s, 0, None);
    OpenAfterBeginning(a, s, 0, None);
    OpenPast(s, |a|, OpenAfter(a, 0, None));
  }

  lemma {:induction false} OutClear(carry: string, pieces: seq<Piece>, tail: string, judge: string -> Verdict)
    requires Closed(carry) && Clear(tail) && forall p :: p in pieces ==> Closed(p.prose)
    ensures var (out, end) := OnPieces(carry, pieces, tail, judge);
      Clear(end) && forall p :: p in out ==> Clear(p.prose)
    decreases |pieces|
  {
    if pieces == [] {
      JoinClosed(carry, tail);
    } else {
      var p := pieces[0];
      assert p in pieces;
      if judge(p.content).Drop? {
        TrimClosed(p.prose);
        JoinClosed(carry, TrimRight(p.prose));
        OutClear(carry + TrimRight(p.prose), pieces[1..], tail, judge);
      } else {
        JoinClosed(carry, p.prose);
        OutClear("", pieces[1..], tail, judge);
      }
    }
  }

  /** When the brackets do not nest, every citation left names an event of the evidence and carries its own stamp. */
  lemma {:induction false} OnlyEvidenceIsCited(answer: string, evidence: Evidence)
    requires NotNested(answer) && PlainStamps(evidence)
    ensures AllGrounded(VerifyCitations(answer, evidence), evidence)
  {
    var (pieces, tail) := Cut(answer);
    CutRenders(answer);
    CutClosed(answer);
    OutClear("", pieces, tail, Judging(evidence));
    GroundedExactly(answer, evidence);
  }

  /** A text that cites only the evidence is left alone. */
  lemma {:induction false} GroundedStays(s: string, evidence: Evidence)
    requires AllGrounded(s, evidence)
    ensures VerifyCitations(s, evidence) == s
    decreases |s|
  {
    if Find(s).Some? {
      var Span(i, j) := Find(s).value;
      var p, rest := Piece(s[..i], s[i + 1..j]), s[j + 1..];
      FoundShape(s);
      assert Judge(p.content, evidence) == Keep(p.content);
      SubstitutePiece(p, rest, Judging(evidence));
      GroundedStays(rest, evidence);
    }
  }

  /** Verifying again changes nothing, as long as the brackets do not nest. */
  lemma {:induction false} VerifyIsIdempotent(answer: string, evidence: Evidence)
    requires NotNested(answer) && PlainStamps(evidence)
    ensures var once := VerifyCitations(answer, evidence); VerifyCitations(once, evidence) == once
  {
    OnlyEvidenceIsCited(answer, evidence);
    GroundedStays(VerifyCitations(answer, evidence), evidence);
  }

  /** Verification touches nothing but citations: without them every answer is the same, character by character. */
  lemma {:induction false} ProseIsPreserved(answer: string, evidence: Evidence)
    ensures var ((pieces, tail), (out, end)) := (Cut(answer), Verified(answer, evidence));
      && Render(pieces, tail) == answer && Render(out, end) == VerifyCitations(answer, evidence)
      && Without(out, end, IsCitation) == Without(pieces, tail, IsCitation)
  {
    var (pieces, tail) := Cut(answer);
    CutRenders(answer);
    VerifiedRenders(answer, evidence);
    JudgeRespects(evidence);
    WithoutKept("", pieces, tail, Judging(evidence), IsCitation);
    Associate("", "", Without(pieces, tail, IsCitation));
  }

  // ----- answers whose brackets nest

  lemma {:induction false} LoneClose(s: string)
    requires NoBrackets(s)
    ensures Clear(s) && Clear("[" + s) && Clear(s + "]")
  {
    ScanPast(s, |s|, |s|, None);
    assert forall k :: 1 <= k < |"[" + s| ==> ("[" + s)[k] == s[k - 1];
    ScanPast("[" + s, |s|, |s|, Some(0));
    assert forall k :: 0 <= k < |s| ==> (s + "]")[k] == s[k];
    ScanPast(s + "]", |s| + 1, |s|, None);
  }

  /** A bracket inside a bracket, and the one piece the scanner sees of it. */
  function Nested(outer: string, inner: string, rest: string): string {
    "[" + outer + "[" + inner + "]" + rest + "]"
  }

  lemma {:induction false} CutNested(outer: string, inner: string, rest: string)
    requires NoBrackets(outer) && Bracketed(inner) && NoBrackets(rest)
    ensures Cut(Nested(outer, inner, rest)) == ([Piece("[" + outer, inner)], rest + "]")
  {
    LoneClose(outer);
    LoneClose(rest);
    var p := Piece("[" + outer, inner);
    assert Nested(outer, inner, rest) == p.prose + "[" + p.content + "]" + (rest + "]");
    FindInPiece(p, rest + "]");
    assert Cut(rest + "]") == ([], rest + "]");
    var none: seq<Piece> := [];
    assert [p] + none == [p];
  }

  lemma {:induction false} EmptyBracket(s: string)
    requires |s| == 2 && s[0] == '[' && s[1] == ']'
    ensures Clear(s)
  {
    assert Scan(s, 0, None) == None;
    assert Scan(s, 1, Some(0)) == Scan(s, 0, None);
  }

  lemma {:induction false} BracketOnly(content: string, evidence: Evidence)
    requires NoBrackets(content)
    ensures AllGrounded("[" + content + "]", evidence) <==> content == "" || Grounded(content, evidence)
  {
    var s := "[" + content + "]";
    if content == "" {
      EmptyBracket(s);
    } else {
      NothingIsGrounded("", evidence);
      assert Clear("") by { assert Scan("", 0, None) == None; }
      GroundedPiece(Piece("", content), "", evidence);
      assert "" + "[" + content + "]" + "" == s;
    }
  }

  lemma {:induction false} NothingIsGrounded(s: string, evidence: Evidence)
    requires s == ""
    ensures AllGrounded(s, evidence)
  {
    assert Scan(s, 0, None) == None;
  }

  lemma {:induction false} TrimOuter(outer: string)
    ensures TrimRight("[" + outer) == "[" + TrimRight(outer)
  {
    assert "["[..1] == "[";
    TrimJoin("[", outer);
  }

  /** What verification makes of a nested bracket. */
  lemma {:induction false} VerifiedNested(outer: string, inner: string, rest: string, evidence: Evidence)
    requires NoBrackets(outer) && Bracketed(inner) && NoBrackets(rest)
    ensures Verified(Nested(outer, inner, rest), evidence) ==
      if Judge(inner, evidence).Drop? then ([], "[" + TrimRight(outer) + rest + "]")
      else ([Piece("[" + outer, Judge(inner, evidence).content)], rest + "]")
  {
    var p, tail, judge := Piece("[" + outer, inner), rest + "]", Judging(evidence);
    CutNested(outer, inner, rest);
    TrimOuter(outer);
    assert [p][0] == p && [p][1..] == [];
    if judge(inner).Drop? {
      assert OnPieces("", [p], tail, judge) == OnPieces("" + TrimRight(p.prose), [], tail, judge);
      assert "" + TrimRight(p.prose) + tail == "[" + TrimRight(outer) + rest + "]";
    } else {
      var kept := Piece("" + p.prose, judge(inner).content);
      assert OnPieces("", [p], tail, judge) == ([kept] + OnPieces("", [], tail, judge).0, OnPieces("", [], tail, judge).1);
      assert "" + tail == tail && "" + p.prose == p.prose && [kept] + [] == [kept];
    }
  }

  /**
   A nested bracket leaves an unsupported citation behind exactly when the inner one
   is a citation without evidence and the text around it, closed up, is a citation
   that the evidence does not ground.
   */
  lemma {:induction false} NestedExactly(outer: string, inner: string, rest: string, evidence: Evidence)
    requires NoBrackets(outer) && Bracketed(inner) && NoBrackets(rest) && PlainStamps(evidence)
    ensures !AllGrounded(VerifyCitations(Nested(outer, inner, rest), evidence), evidence) <==>
      && IsCitation(inner) && Cited(inner) !in evidence
      && TrimRight(outer) + rest != "" && !Grounded(TrimRight(outer) + rest, evidence)
  {
    GroundedExactly(Nested(outer, inner, rest), evidence);
    VerifiedNested(outer, inner, rest, evidence);
    if Judge(inner, evidence).Drop? {
      NestedDropped(TrimRight(outer), rest, evidence) by { NoBracketsTrim(outer); }
    } else {
      LoneClose(outer);
      LoneClose(rest);
    }
  }

  lemma {:induction false} NestedDropped(outer: string, rest: string, evidence: Evidence)
    requires NoBrackets(outer) && NoBrackets(rest)
    ensures AllGrounded("[" + outer + rest + "]", evidence) <==> outer + rest == "" || Grounded(outer + rest, evidence)
  {
    BracketOnly(outer + rest, evidence);
    assert "[" + (outer + rest) + "]" == "[" + outer + rest + "]";
  }

  lemma {:induction false} NoBracketsTrim(s: string)
    requires NoBrackets(s)
    ensures NoBrackets(TrimRight(s))
  {
  }

  lemma {:induction false} CitedPlain(id: string)
    requires IdShaped(id)
    ensures Cited(id) == id && IsCitation(id)
  {
    assert id[..|id|] == id && id[|id|..] == "";
    CitedAtStart(id, id);
  }

  /** So two ids without evidence, one inside the other, leave the outer one standing. */
  lemma {:induction false} NestedCitationSurvives(outer: string, inner: string, evidence: Evidence)
    requires IdShaped(outer) && IdShaped(inner) && outer !in evidence && inner !in evidence
    ensures VerifyCitations("[" + outer + "[" + inner + "]]", evidence) == "[" + outer + "]"
    ensures !Grounded(outer, evidence)
  {
    IdCharacters(outer);
    IdCharacters(inner);
    CitedPlain(outer);
    CitedPlain(inner);
    TrimWhole(outer);
    VerifiedInner(outer, inner, evidence);
  }

  lemma {:induction false} TrimWhole(s: string)
    requires s != "" && !IsSpace(s[|s| - 1])
    ensures TrimRight(s) == s
  {
    assert s[..|s|] == s;
  }

  lemma {:induction false} VerifiedInner(outer: string, inner: string, evidence: Evidence)
    requires NoBrackets(outer) && Bracketed(inner) && TrimRight(outer) == outer && Judge(inner, evidence).Drop?
    ensures VerifyCitations("[" + outer + "[" + inner + "]]", evidence) == "[" + outer + "]"
  {
    VerifiedRenders(Nested(outer, inner, ""), evidence);
    VerifiedNested(outer, inner, "", evidence);
    assert Nested(outer, inner, "") == "[" + outer + "[" + inner + "]]";
    assert "[" + outer + "" + "]" == "[" + outer + "]";
  }
}
