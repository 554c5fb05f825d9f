/**
 Which brackets of an answer are citations, and what verification writes in their
 place, in terms of their characters alone: space, an id, space, and possibly an at
 sign with anything after it.  Nothing here refers to how the scanner decides it.
 */
module CitationForms {
  import opened Basics
  import opened Chunking
  import opened Citations
  import opened CitationTheorems

  predicate Letter(c: char) {
    65 <= c as int <= 90 || 97 <= c as int <= 122
  }

  predicate Digit(c: char) {
    48 <= c as int <= 57
  }

  /** What an id is made of, and what makes it more than a word. */
  predicate IdCharacter(c: char) {
    Letter(c) || Digit(c) || c == '.' || Marker(c)
  }

  predicate Marker(c: char) {
    c == ':' || c == '_' || c == '-'
  }

  predicate WellFormedId(id: string) {
    && |id| >= 3 && (Letter(id[0]) || Digit(id[0]))
    && (forall i :: 0 <= i < |id| ==> IdCharacter(id[i]))
    && exists i :: 0 <= i < |id| && (Digit(id[i]) || Marker(id[i]))
  }

  /** Nothing but space follows the id, up to the end or to an at sign. */
  ghost predicate Closing(rest: string) {
    AllSpace(rest) || exists n :: 0 <= n < |rest| && rest[n] == '@' && AllSpace(rest[..n])
  }

  /** The content of a bracket reads as a citation of this id. */
  ghost predicate Reads(content: string, id: string) {
    && WellFormedId(id)
    && exists lead, rest :: content == lead + id + rest && AllSpace(lead) && Closing(rest)
  }

  lemma WellFormedIsShaped(id: string)
    ensures WellFormedId(id) <==> IdShaped(id)
  {
  }

  lemma {:induction false} EndsExactly(rest: string)
    ensures Ends(rest) <==> Closing(rest)
    decreases |rest|
  {
    if rest == "" || rest[0] == '@' {
      if rest != "" { assert rest[..0] == "" && AllSpace(rest[..0]); }
    } else if IsSpace(rest[0]) {
      var more := rest[1..];
      EndsExactly(more);
      ClosingMore(rest);
    } else {
      if Closing(rest) { ClosingFirst(rest); }
    }
  }

  lemma ClosingFirst(rest: string)
    requires rest != "" && Closing(rest)
    ensures rest[0] == '@' || IsSpace(rest[0])
  {
    if !AllSpace(rest) {
      var n :| 0 <= n < |rest| && rest[n] == '@' && AllSpace(rest[..n]);
      assert n > 0 ==> rest[..n][0] == rest[0];
    }
  }

  lemma ClosingMore(rest: string)
    requires rest != "" && IsSpace(rest[0]) && rest[0] != '@'
    ensures Closing(rest[1..]) <==> Closing(rest)
  {
    var more := rest[1..];
    assert forall i :: 1 <= i < |rest| ==> rest[i] == more[i - 1];
    if n :| 0 <= n < |more| && more[n] == '@' && AllSpace(more[..n]) {
      assert rest[..n + 1] == [rest[0]] + more[..n];
      assert rest[n + 1] == '@' && AllSpace(rest[..n + 1]);
    }
    if n :| 0 <= n < |rest| && rest[n] == '@' && AllSpace(rest[..n]) {
      assert more[..n - 1] == rest[..n][1..];
      assert more[n - 1] == '@' && AllSpace(more[..n - 1]);
    }
  }

  /** No shorter beginning will do: the rest would begin, after space at most, with the id. */
  lemma {:induction false} NotEnded(tail: string, k: nat)
    requires k < |tail| && AllSpace(tail[..k]) && !IsSpace(tail[k]) && tail[k] != '@'
    ensures !Ends(tail)
    decreases k
  {
    if k > 0 {
      assert tail[..k][0] == tail[0];
      assert tail[1..][..k - 1] == tail[..k][1..] && tail[1..][k - 1] == tail[k];
      NotEnded(tail[1..], k - 1);
      assert IsSpace(tail[0]);
    }
  }

  lemma {:induction false} LengthIs(content: string, i: nat, n: nat)
    requires i <= n <= |content| && Ends(content[n..]) && forall k :: i <= k < n ==> !Ends(content[k..])
    ensures IdLength(content, i) == n
    decreases n - i
  {
    if i < n { LengthIs(content, i + 1, n); }
  }

  lemma {:induction false} TrimLeftPast(lead: string, id: string)
    requires AllSpace(lead) && id != "" && !IsSpace(id[0])
    ensures TrimLeft(lead + id) == id
    decreases |lead|
  {
    if lead == "" {
      assert lead + id == id;
    } else {
      assert (lead + id)[1..] == lead[1..] + id;
      TrimLeftPast(lead[1..], id);
    }
  }

  lemma {:induction false} TrimLeftIs(s: string) returns (lead: string)
    ensures s == lead + TrimLeft(s) && AllSpace(lead)
    decreases |s|
  {
    if s != "" && IsSpace(s[0]) {
      var more := TrimLeftIs(s[1..]);
      lead := [s[0]] + more;
      assert s == [s[0]] + s[1..];
    } else {
      lead := "";
    }
  }

  lemma ReadLength(content: string, lead: string, id: string, rest: string)
    requires content == lead + id + rest && AllSpace(lead) && Closing(rest) && WellFormedId(id)
    ensures IdLength(content, 1) == |lead| + |id|
  {
    var n := |lead| + |id|;
    assert content[n..] == rest;
    EndsExactly(rest);
    forall k | 1 <= k < n ensures !Ends(content[k..]) {
      var at := if k < |lead| then |lead| - k else 0;
      var tail := content[k..];
      assert tail[at] == content[k + at] == id[k + at - |lead|];
      assert forall i :: 0 <= i < at ==> tail[..at][i] == lead[k + i];
      NotEnded(tail, at);
    }
    LengthIs(content, 1, n);
  }

  lemma ReadsIsCited(content: string, id: string)
    requires Reads(content, id)
    ensures IsCitation(content) && Cited(content) == id
  {
    var lead, rest :| content == lead + id + rest && AllSpace(lead) && Closing(rest);
    ReadLength(content, lead, id, rest);
    assert content[..|lead| + |id|] == lead + id;
    assert (lead + id)[|lead| + |id| - 1] == id[|id| - 1];
    TrimWhole(lead + id);
    TrimLeftPast(lead, id);
    WellFormedIsShaped(id);
  }

  lemma {:induction false} LengthEnds(content: string, i: nat)
    requires i <= |content|
    ensures Ends(content[IdLength(content, i)..])
    decreases |content| - i
  {
    if i < |content| && !Ends(content[i..]) { LengthEnds(content, i + 1); }
  }

  /** Space before what closes a bracket closes it too. */
  lemma {:induction false} ClosingAfterSpace(gap: string, rest: string)
    requires AllSpace(gap) && Closing(rest)
    ensures Closing(gap + rest)
    decreases |gap|
  {
    if gap == "" {
      assert gap + rest == rest;
    } else {
      assert (gap + rest)[1..] == gap[1..] + rest && (gap + rest)[0] == gap[0] && IsSpace(gap[0]);
      ClosingAfterSpace(gap[1..], rest);
      ClosingMore(gap + rest);
    }
  }

  lemma CitedReads(content: string)
    requires IsCitation(content)
    ensures Reads(content, Cited(content))
  {
    var n := IdLength(content, 1);
    var head, id := content[..n], Cited(content);
    var kept := TrimRight(head);
    LengthEnds(content, 1);
    EndsExactly(content[n..]);
    LeadIsSpace(head, |head|);
    var gap := head[|kept|..];
    assert AllSpace(gap);
    ClosingAfterSpace(gap, content[n..]);
    var lead := TrimLeftIs(kept);
    WellFormedIsShaped(id);
    assert content == lead + id + (gap + content[n..]) by {
      assert content == head + content[n..] && head == kept + gap && kept == lead + id;
    }
  }

  /** A bracket is a citation of an id exactly when its characters read so. */
  lemma CitationExactly(content: string, id: string)
    ensures content != "" && IsCitation(content) && Cited(content) == id <==> Reads(content, id)
  {
    if Reads(content, id) { ReadsIsCited(content, id); }
    if content != "" && IsCitation(content) { CitedReads(content); }
  }

  // ----- what verification writes

  /** The text without the space at its end. */
  predicate RightTrimmed(kept: string, prose: string) {
    && kept <= prose && AllSpace(prose[|kept|..]) && (kept != "" ==> !IsSpace(kept[|kept| - 1]))
  }

  lemma TrimIsRightTrimmed(prose: string)
    ensures RightTrimmed(TrimRight(prose), prose)
  {
    LeadIsSpace(prose, |prose|);
  }

  /** A citation of the evidence is rewritten with its own stamp, whatever stamp it had; the rest of the answer follows. */
  lemma KnownCitation(prose: string, content: string, id: string, rest: string, evidence: Evidence)
    requires Clear(prose) && NoBrackets(content) && Reads(content, id) && id in evidence
    ensures VerifyCitations(prose + "[" + content + "]" + rest, evidence)
         == prose + "[" + id + " @ " + evidence[id] + "]" + VerifyCitations(rest, evidence)
  {
    CitationExactly(content, id);
    SubstitutePiece(Piece(prose, content), rest, Judging(evidence));
    assert prose + "[" + (id + " @ " + evidence[id]) + "]" == prose + "[" + id + " @ " + evidence[id] + "]";
  }

  /** One without evidence goes, with the space before it and nothing else. */
  lemma UnknownCitation(prose: string, content: string, id: string, rest: string, evidence: Evidence)
    requires Clear(prose) && NoBrackets(content) && Reads(content, id) && id !in evidence
    ensures exists kept ::
              RightTrimmed(kept, prose) && VerifyCitations(prose + "[" + content + "]" + rest, evidence) == kept + VerifyCitations(rest, evidence)
  {
    CitationExactly(content, id);
    SubstitutePiece(Piece(prose, content), rest, Judging(evidence));
    TrimIsRightTrimmed(prose);
  }

  /** A bracket that does not read as a citation stays as it is. */
  lemma OtherBracket(prose: string, content: string, rest: string, evidence: Evidence)
    requires Clear(prose) && Bracketed(content) && forall id :: !Reads(content, id)
    ensures VerifyCitations(prose + "[" + content + "]" + rest, evidence)
         == prose + "[" + content + "]" + VerifyCitations(rest, evidence)
  {
    if IsCitation(content) { CitationExactly(content, Cited(content)); }
    SubstitutePiece(Piece(prose, content), rest, Judging(evidence));
  }

  /** Part of an event id. */
  predicate IdPart(part: string) {
    forall i :: 0 <= i < |part| ==> Letter(part[i]) || Digit(part[i]) || part[i] == '_' || part[i] == '.' || part[i] == '-'
  }

  /** An event id, bare or stamped, however spaced, reads as a citation of itself. */
  lemma EventIdReads(provider: string, incident: string, update: string, lead: string, rest: string)
    requires IdPart(provider) && IdPart(incident) && IdPart(update) && AllSpace(lead) && Closing(rest)
    requires provider != "" && (Letter(provider[0]) || Digit(provider[0]))
    ensures var id := provider + ":" + incident + ":" + update; Reads(lead + id + rest, id)
  {
    var id := provider + ":" + incident + ":" + update;
    assert id[0] == provider[0] && id[|provider|] == ':';
    forall i | 0 <= i < |id| ensures IdCharacter(id[i]) {
      assert id == provider + (":" + (incident + (":" + update)));
      if i < |provider| { assert id[i] == provider[i]; }
      else if i == |provider| { assert id[i] == ':'; }
      else if i < |provider| + 1 + |incident| { assert id[i] == incident[i - |provider| - 1]; }
      else if i == |provider| + 1 + |incident| { assert id[i] == ':'; }
      else { assert id[i] == update[i - |provider| - |incident| - 2]; }
    }
  }

  lemma NoBracketsClear(s: string)
    requires NoBrackets(s)
    ensures Clear(s)
  {
    ScanPast(s, |s|, |s|, None);
  }

  lemma IdHasNoBrackets(id: string)
    requires WellFormedId(id)
    ensures NoBrackets(id) && Bracketed(id)
  {
  }

  /** Every event id of the system that the answer cites is stamped from the evidence, or removed for want of it. */
  lemma EventIdVerified(prose: string, provider: string, incident: string, update: string, evidence: Evidence)
    requires NoBrackets(prose) && IdPart(provider) && IdPart(incident) && IdPart(update)
    requires provider != "" && (Letter(provider[0]) || Digit(provider[0]))
    ensures var id := provider + ":" + incident + ":" + update;
      var verified := VerifyCitations(prose + "[" + id + "]", evidence);
      if id in evidence then verified == prose + "[" + id + " @ " + evidence[id] + "]" else RightTrimmed(verified, prose)
  {
    var id := provider + ":" + incident + ":" + update;
    EventIdReads(provider, incident, update, "", "");
    assert "" + id + "" == id;
    IdHasNoBrackets(id);
    NoBracketsClear(prose);
    NothingVerified(evidence);
    assert prose + "[" + id + "]" + "" == prose + "[" + id + "]";
    if id in evidence {
      KnownCitation(prose, id, id, "", evidence);
      assert prose + "[" + id + " @ " + evidence[id] + "]" + "" == prose + "[" + id + " @ " + evidence[id] + "]";
    } else {
      UnknownCitation(prose, id, id, "", evidence);
      var kept :| RightTrimmed(kept, prose) && VerifyCitations(prose + "[" + id + "]" + "", evidence) == kept + "";
      assert kept + "" == kept;
    }
  }

  lemma NothingVerified(evidence: Evidence)
    ensures VerifyCitations("", evidence) == ""
  {
    assert Scan("", 0, None) == None;
  }

  lemma ProseReads(content: string, id: string)
    requires Reads(content, id)
    ensures content != "" && ((exists i :: 0 <= i < |content| && content[i] == '@') || IsSpace(content[0]) || IsSpace(content[|content| - 1]) || content == id)
  {
    var lead, rest :| content == lead + id + rest && AllSpace(lead) && Closing(rest);
    if lead != "" { EdgeSpace(lead, id + rest); }
    if rest != "" { ClosingLast(lead + id, rest); }
  }

  lemma EdgeSpace(lead: string, more: string)
    requires lead != "" && AllSpace(lead)
    ensures IsSpace((lead + more)[0])
  {
    assert (lead + more)[0] == lead[0];
  }

  lemma ClosingLast(head: string, rest: string)
    requires rest != "" && Closing(rest)
    ensures var s := head + rest; IsSpace(s[|s| - 1]) || exists i :: 0 <= i < |s| && s[i] == '@'
  {
    var s := head + rest;
    if AllSpace(rest) {
      assert s[|s| - 1] == rest[|rest| - 1];
    } else {
      var n :| 0 <= n < |rest| && rest[n] == '@' && AllSpace(rest[..n]);
      assert s[|head| + n] == '@';
    }
  }

  /** Brackets around a word or a phrase are prose: they stay. */
  lemma PhraseStays(prose: string, content: string, rest: string, evidence: Evidence)
    requires Clear(prose) && Bracketed(content) && forall i :: 0 <= i < |content| ==> content[i] != '@'
    requires !IsSpace(content[0]) && !IsSpace(content[|content| - 1])
    requires (forall i :: 0 <= i < |content| ==> Letter(content[i])) || (exists i :: 0 <= i < |content| && IsSpace(content[i]))
    ensures VerifyCitations(prose + "[" + content + "]" + rest, evidence)
         == prose + "[" + content + "]" + VerifyCitations(rest, evidence)
  {
    forall id ensures !Reads(content, id) {
      if Reads(content, id) { ProseReads(content, id); }
    }
    OtherBracket(prose, content, rest, evidence);
  }
}
