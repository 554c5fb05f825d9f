/**
 freshet/autopilot/thread_agent.py: answering the questions people ask in the
 thread under a brief.  The stored marker `thread_seen_ts` moves after each
 accepted answer, in a statement of its own, so a process that dies between
 the two answers one question again.
 */
module Threads {
  import opened Basics
  import Chunking
  import ChunkingTheorems

  datatype Message = Message(ts: nat, bot: bool, subtype: bool, text: string)

  /**
   A briefed thread: its messages in Slack's order, the parent first, and the
   marker.  `posts` is history: the question each accepted answer was for;
   `unmarked` counts the accepted answers that no marker followed.
   */
  datatype Thread = Thread(ts: nat, messages: seq<Message>, seen: Option<nat>, posts: seq<nat>, unmarked: nat)

  predicate IsHumanReply(m: Message, threadTs: nat) {
    !m.bot && !m.subtype && m.ts != threadTs && Chunking.Words(m.text) != []
  }

  /** The questions in the thread, by timestamp, in order. */
  function Questions(messages: seq<Message>, threadTs: nat): seq<nat> {
    if messages == [] then []
    else
      var n := |messages| - 1;
      Questions(messages[..n], threadTs) + (if IsHumanReply(messages[n], threadTs) then [messages[n].ts] else [])
  }

  /** How many messages are no later than the marker. */
  function After(messages: seq<Message>, seen: Option<nat>): (n: nat)
    ensures n <= |messages|
  {
    if messages == [] || seen.None? then 0
    else if messages[|messages| - 1].ts <= seen.value then |messages|
    else After(messages[..|messages| - 1], seen)
  }

  function Answered(th: Thread): seq<nat> {
    Questions(th.messages[..After(th.messages, th.seen)], th.ts)
  }

  function Waiting(th: Thread): seq<nat> {
    Questions(th.messages[After(th.messages, th.seen)..], th.ts)
  }

  /** The posts without immediate repeats. */
  function Unstutter(posts: seq<nat>): seq<nat> {
    if posts == [] then []
    else
      var n := |posts| - 1;
      if n > 0 && posts[n - 1] == posts[n] then Unstutter(posts[..n]) else Unstutter(posts[..n]) + [posts[n]]
  }

  predicate Ordered(messages: seq<Message>) {
    forall i, j :: 0 <= i < j < |messages| ==> messages[i].ts < messages[j].ts
  }

  predicate Increasing(q: seq<nat>) {
    forall i, j :: 0 <= i < j < |q| ==> q[i] < q[j]
  }

  /** The marker is the timestamp of a question, so of the last message not after it. */
  predicate MarkerOnQuestion(th: Thread) {
    var a := After(th.messages, th.seen);
    th.seen.Some? ==> a > 0 && IsHumanReply(th.messages[a - 1], th.ts) && th.messages[a - 1].ts == th.seen.value
  }

  /**
   Answers follow the questions in order, none skipped.  At most the first
   waiting question was answered without the marker having moved.
   */
  predicate Law(th: Thread) {
    && Ordered(th.messages) && th.messages != [] && th.messages[0].ts == th.ts
    && MarkerOnQuestion(th)
    && (Unstutter(th.posts) == Answered(th)
        || (Waiting(th) != [] && Unstutter(th.posts) == Answered(th) + [Waiting(th)[0]]))
    && |th.posts| == |Answered(th)| + th.unmarked
  }

  // ----- lemmas about the marker

  lemma {:induction false} AfterSplits(messages: seq<Message>, seen: Option<nat>)
    requires Ordered(messages)
    ensures var n := After(messages, seen);
      && (forall i :: 0 <= i < n ==> seen.Some? && messages[i].ts <= seen.value)
      && (forall i :: n <= i < |messages| ==> seen.None? || messages[i].ts > seen.value)
    decreases |messages|
  {
    if messages != [] && seen.Some? {
      var n := |messages| - 1;
      if messages[n].ts > seen.value { AfterSplits(messages[..n], seen); }
    }
  }

  lemma {:induction false} AfterIs(messages: seq<Message>, seen: Option<nat>, n: nat)
    requires Ordered(messages) && n <= |messages| && (n > 0 ==> seen.Some?)
    requires forall i :: 0 <= i < n ==> messages[i].ts <= seen.value
    requires forall i :: n <= i < |messages| ==> seen.None? || messages[i].ts > seen.value
    ensures After(messages, seen) == n
    decreases |messages|
  {
    if messages != [] && seen.Some? {
      var last := |messages| - 1;
      if messages[last].ts > seen.value { AfterIs(messages[..last], seen, n); }
    }
  }

  lemma {:induction false} QuestionsAppend(a: seq<Message>, b: seq<Message>, threadTs: nat)
    ensures Questions(a + b, threadTs) == Questions(a, threadTs) + Questions(b, threadTs)
    decreases |b|
  {
    if b == [] {
      assert a + b == a;
    } else {
      var n := |b| - 1;
      assert (a + b)[..|a| + n] == a + b[..n];
      QuestionsAppend(a, b[..n], threadTs);
    }
  }

  lemma {:induction false} NoQuestions(messages: seq<Message>, threadTs: nat)
    requires forall i :: 0 <= i < |messages| ==> !IsHumanReply(messages[i], threadTs)
    ensures Questions(messages, threadTs) == []
    decreases |messages|
  {
    if messages != [] { NoQuestions(messages[..|messages| - 1], threadTs); }
  }

  lemma {:induction false} QuestionsInRange(messages: seq<Message>, threadTs: nat, bound: nat)
    requires forall i :: 0 <= i < |messages| ==> messages[i].ts <= bound
    ensures forall k :: 0 <= k < |Questions(messages, threadTs)| ==> Questions(messages, threadTs)[k] <= bound
    decreases |messages|
  {
    if messages != [] { QuestionsInRange(messages[..|messages| - 1], threadTs, bound); }
  }

  /** The first question after the marker is the first one waiting. */
  lemma FirstWaiting(th: Thread, i: nat)
    requires Ordered(th.messages) && i < |th.messages| && IsHumanReply(th.messages[i], th.ts)
    requires After(th.messages, th.seen) <= i
    requires forall j :: After(th.messages, th.seen) <= j < i ==> !IsHumanReply(th.messages[j], th.ts)
    ensures Waiting(th) != [] && Waiting(th)[0] == th.messages[i].ts
  {
    var a := After(th.messages, th.seen);
    var rest := th.messages[a..];
    assert rest == th.messages[a..i] + ([th.messages[i]] + th.messages[i + 1..]);
    NoQuestions(th.messages[a..i], th.ts);
    QuestionsAppend(th.messages[a..i], [th.messages[i]] + th.messages[i + 1..], th.ts);
    QuestionsAppend([th.messages[i]], th.messages[i + 1..], th.ts);
    assert [th.messages[i]][..0] == [];
  }

  lemma {:induction false} UnstutterShape(posts: seq<nat>)
    ensures |Unstutter(posts)| <= |posts|
    ensures |Unstutter(posts)| == |posts| ==> Unstutter(posts) == posts
    ensures posts != [] ==> Unstutter(posts) != [] && Unstutter(posts)[|Unstutter(posts)| - 1] == posts[|posts| - 1]
    decreases |posts|
  {
    if posts != [] {
      UnstutterShape(posts[..|posts| - 1]);
      assert posts == posts[..|posts| - 1] + [posts[|posts| - 1]];
    }
  }

  lemma UnstutterAppend(posts: seq<nat>, x: nat)
    ensures var u := Unstutter(posts);
      Unstutter(posts + [x]) == if u != [] && u[|u| - 1] == x then u else u + [x]
  {
    UnstutterShape(posts);
    assert (posts + [x])[..|posts|] == posts;
  }

  // ----- what happens to a thread

  /** Anyone may write in the thread; Slack's timestamps grow. */
  function Written(th: Thread, m: Message): Thread {
    if th.messages != [] && th.messages[|th.messages| - 1].ts < m.ts then th.(messages := th.messages + [m]) else th
  }

  function Posted(th: Thread, question: nat): Thread {
    th.(posts := th.posts + [question], unmarked := th.unmarked + 1)
  }

  function Marked(th: Thread, seen: nat): Thread {
    th.(seen := Some(seen), unmarked := if th.unmarked > 0 then th.unmarked - 1 else 0)
  }

  lemma OrderedAppend(messages: seq<Message>, m: Message)
    requires Ordered(messages) && messages != [] && messages[|messages| - 1].ts < m.ts
    ensures Ordered(messages + [m])
  {
    assert forall i :: 0 <= i < |messages| ==> messages[i].ts <= messages[|messages| - 1].ts;
  }

  lemma WrittenParts(th: Thread, m: Message)
    requires Ordered(th.messages) && MarkerOnQuestion(th) && Written(th, m) != th
    ensures var t := Written(th, m);
      After(t.messages, t.seen) == After(th.messages, th.seen)
      && Answered(t) == Answered(th) && Waiting(t) == Waiting(th) + Questions([m], th.ts)
  {
    var t, a := Written(th, m), After(th.messages, th.seen);
    OrderedAppend(th.messages, m);
    AfterAppend(th, m);
    assert t.messages[..a] == th.messages[..a];
    assert t.messages[a..] == th.messages[a..] + [m];
    QuestionsAppend(th.messages[a..], [m], th.ts);
  }

  lemma AfterAppend(th: Thread, m: Message)
    requires Ordered(th.messages) && MarkerOnQuestion(th) && Written(th, m) != th
    ensures After(th.messages + [m], th.seen) == After(th.messages, th.seen)
  {
    assert (th.messages + [m])[..|th.messages|] == th.messages;
    AfterSplits(th.messages, th.seen);
    var last := th.messages[|th.messages| - 1];
    assert th.seen.Some? ==> th.seen.value <= last.ts < m.ts;
  }

  lemma WrittenKeepsLaw(th: Thread, m: Message)
    requires Law(th)
    ensures Law(Written(th, m)) && Answered(Written(th, m)) == Answered(th) && Waiting(th) <= Waiting(Written(th, m))
  {
    if Written(th, m) != th { WrittenParts(th, m); }
  }

  lemma PostedKeepsLaw(th: Thread, question: nat)
    requires Law(th) && Waiting(th) != [] && Waiting(th)[0] == question
    ensures Law(Posted(th, question))
    ensures Unstutter(Posted(th, question).posts) == Answered(th) + [question]
  {
    UnstutterAppend(th.posts, question);
    AnsweredBefore(th, question);
  }

  /** What has been answered is earlier than what is waiting. */
  lemma AnsweredBefore(th: Thread, question: nat)
    requires Law(th) && Waiting(th) != [] && Waiting(th)[0] == question
    ensures forall k :: 0 <= k < |Answered(th)| ==> Answered(th)[k] < question
  {
    var a := After(th.messages, th.seen);
    AfterSplits(th.messages, th.seen);
    if th.seen.Some? {
      QuestionsInRange(th.messages[..a], th.ts, th.seen.value);
      LaterThan(th.messages[a..], th.ts, th.seen.value);
    } else {
      AfterIs(th.messages, th.seen, 0);
      assert th.messages[..0] == [];
    }
  }

  lemma {:induction false} LaterThan(messages: seq<Message>, threadTs: nat, bound: nat)
    requires forall i :: 0 <= i < |messages| ==> messages[i].ts > bound
    ensures forall k :: 0 <= k < |Questions(messages, threadTs)| ==> Questions(messages, threadTs)[k] > bound
    decreases |messages|
  {
    if messages != [] { LaterThan(messages[..|messages| - 1], threadTs, bound); }
  }

  lemma MarkedParts(th: Thread, i: nat)
    requires Ordered(th.messages) && i < |th.messages| && IsHumanReply(th.messages[i], th.ts)
    requires After(th.messages, th.seen) <= i
    requires forall j :: After(th.messages, th.seen) <= j < i ==> !IsHumanReply(th.messages[j], th.ts)
    ensures After(th.messages, Some(th.messages[i].ts)) == i + 1
    ensures Questions(th.messages[..i + 1], th.ts) == Answered(th) + [th.messages[i].ts]
  {
    var a := After(th.messages, th.seen);
    AfterIs(th.messages, Some(th.messages[i].ts), i + 1);
    assert th.messages[..i + 1] == th.messages[..a] + (th.messages[a..i] + [th.messages[i]]);
    NoQuestions(th.messages[a..i], th.ts);
    QuestionsAppend(th.messages[..a], th.messages[a..i] + [th.messages[i]], th.ts);
    QuestionsAppend(th.messages[a..i], [th.messages[i]], th.ts);
    assert [th.messages[i]][..0] == [];
  }

  lemma MarkedKeepsLaw(th: Thread, i: nat)
    requires Law(th) && th.unmarked > 0 && i < |th.messages| && IsHumanReply(th.messages[i], th.ts)
    requires After(th.messages, th.seen) <= i
    requires forall j :: After(th.messages, th.seen) <= j < i ==> !IsHumanReply(th.messages[j], th.ts)
    requires Unstutter(th.posts) == Answered(th) + [th.messages[i].ts]
    ensures Law(Marked(th, th.messages[i].ts))
    ensures After(th.messages, Some(th.messages[i].ts)) == i + 1
    ensures Answered(Marked(th, th.messages[i].ts)) == Answered(th) + [th.messages[i].ts]
  {
    MarkedParts(th, i);
  }

  // ----- theorems

  /** A thread whose brief has just been posted: nobody wrote, nothing is answered. */
  predicate Fresh(th: Thread) {
    && |th.messages| == 1 && th.messages[0].ts == th.ts
    && th.seen.None? && th.posts == [] && th.unmarked == 0
  }

  lemma FreshKeepsLaw(th: Thread)
    requires Fresh(th)
    ensures Law(th)
  {
    AfterIs(th.messages, th.seen, 0);
    assert th.messages[..0] == [];
  }

  /** The answers are the questions up to the marker exactly when every accepted answer was followed by its marker. */
  lemma AnsweredExactly(th: Thread)
    requires Law(th)
    ensures th.posts == Answered(th) <==> th.unmarked == 0
  {
    UnstutterShape(th.posts);
  }

  /**
   Answers come in the order of the questions and skip none.  As long as no marker
   was lost none is repeated and the marker is the last question answered.
   */
  predicate AnswersInOrder(th: Thread) {
    && Unstutter(th.posts) <= Questions(th.messages, th.ts)
    && |Answered(th)| <= |Unstutter(th.posts)| <= |Answered(th)| + 1
    && |th.posts| == |Answered(th)| + th.unmarked
    && (th.posts == Answered(th) <==> th.unmarked == 0)
    && (th.unmarked == 0 ==>
          Increasing(th.posts) && th.seen == if th.posts == [] then None else Some(th.posts[|th.posts| - 1]))
  }

  /** A message by a person that says something: not a bot's, not an edit or a join, not the brief itself, not blank. */
  predicate ByAPerson(m: Message, parent: nat) {
    !m.bot && !m.subtype && m.ts != parent && exists i :: 0 <= i < |m.text| && !Chunking.IsSpace(m.text[i])
  }

  /** Every answer is to something a person wrote in the thread. */
  ghost predicate OnlyPeopleAnswered(th: Thread) {
    forall p :: p in th.posts ==> exists m :: m in th.messages && m.ts == p && ByAPerson(m, th.ts)
  }

  /** Everything people wrote among the first n messages has an answer. */
  ghost predicate PeopleAnswered(th: Thread, n: nat) {
    forall i :: 0 <= i < n && i < |th.messages| && ByAPerson(th.messages[i], th.ts) ==> th.messages[i].ts in th.posts
  }

  lemma PersonIsHuman(m: Message, parent: nat)
    ensures ByAPerson(m, parent) <==> IsHumanReply(m, parent)
  {
    ChunkingTheorems.NoWordsIsSpace(m.text);
  }

  /** The questions are what people wrote, and nothing else. */
  lemma {:induction false} QuestionsAreByPeople(messages: seq<Message>, threadTs: nat)
    ensures forall q :: q in Questions(messages, threadTs) ==> exists m :: m in messages && m.ts == q && ByAPerson(m, threadTs)
    ensures forall m :: m in messages && ByAPerson(m, threadTs) ==> m.ts in Questions(messages, threadTs)
    decreases |messages|
  {
    if messages != [] {
      var n := |messages| - 1;
      QuestionsAreByPeople(messages[..n], threadTs);
      PersonIsHuman(messages[n], threadTs);
      assert messages == messages[..n] + [messages[n]];
    }
  }

  lemma {:induction false} UnstutterMembers(posts: seq<nat>)
    ensures forall p :: p in posts <==> p in Unstutter(posts)
    decreases |posts|
  {
    if posts != [] {
      var n := |posts| - 1;
      UnstutterMembers(posts[..n]);
      assert posts == posts[..n] + [posts[n]];
      if n > 0 { assert posts[n - 1] in posts[..n]; }
    }
  }

  lemma PostsAreToPeople(th: Thread)
    requires Law(th)
    ensures OnlyPeopleAnswered(th)
  {
    UnstutterMembers(th.posts);
    AnsweredPrefix(th);
    QuestionsAreByPeople(th.messages, th.ts);
    forall p | p in th.posts ensures p in Questions(th.messages, th.ts) {
      assert p in Unstutter(th.posts);
    }
  }

  /** Where no question waits, people have their answers. */
  lemma NobodyWaits(th: Thread, n: nat)
    requires Law(th)
    requires forall j :: After(th.messages, th.seen) <= j < n && j < |th.messages| ==> !IsHumanReply(th.messages[j], th.ts)
    ensures PeopleAnswered(th, n)
  {
    var a := After(th.messages, th.seen);
    UnstutterMembers(th.posts);
    QuestionsAreByPeople(th.messages[..a], th.ts);
    forall i | 0 <= i < n && i < |th.messages| && ByAPerson(th.messages[i], th.ts)
      ensures th.messages[i].ts in th.posts
    {
      PersonIsHuman(th.messages[i], th.ts);
      assert th.messages[i] in th.messages[..a];
      assert th.messages[i].ts in Answered(th);
    }
  }

  lemma AnswersFormAPrefix(th: Thread)
    requires Law(th)
    ensures AnswersInOrder(th)
  {
    AnsweredExactly(th);
    AnsweredPrefix(th);
    IncreasingQuestions(th.messages[..After(th.messages, th.seen)], th.ts);
    LastAnswered(th);
  }

  lemma AnsweredPrefix(th: Thread)
    ensures Answered(th) + Waiting(th) == Questions(th.messages, th.ts)
    ensures Answered(th) <= Questions(th.messages, th.ts)
    ensures Waiting(th) != [] ==> Answered(th) + [Waiting(th)[0]] <= Questions(th.messages, th.ts)
  {
    var a := After(th.messages, th.seen);
    assert th.messages == th.messages[..a] + th.messages[a..];
    QuestionsAppend(th.messages[..a], th.messages[a..], th.ts);
  }

  lemma {:induction false} IncreasingQuestions(messages: seq<Message>, threadTs: nat)
    requires Ordered(messages)
    ensures Increasing(Questions(messages, threadTs))
    decreases |messages|
  {
    if messages != [] {
      var n := |messages| - 1;
      IncreasingQuestions(messages[..n], threadTs);
      if n > 0 {
        QuestionsInRange(messages[..n], threadTs, messages[n - 1].ts);
      } else {
        assert messages[..n] == [];
      }
    }
  }

  /** The marker is the last answered question. */
  lemma LastAnswered(th: Thread)
    requires Law(th)
    ensures if th.seen.Some? then Answered(th) != [] && Answered(th)[|Answered(th)| - 1] == th.seen.value
            else Answered(th) == []
  {
    var a := After(th.messages, th.seen);
    if th.seen.Some? {
      assert th.messages[..a][..a - 1] == th.messages[..a - 1];
      assert Answered(th) == Questions(th.messages[..a - 1], th.ts) + [th.seen.value];
    } else {
      AfterIs(th.messages, th.seen, 0);
      assert th.messages[..0] == [];
    }
  }
}
