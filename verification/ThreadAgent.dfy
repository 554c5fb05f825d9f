/**
 `poll_threads` and `ThreadPoller` of freshet/autopilot/thread_agent.py in
 their own form.  People write in the threads at any time, Slack and the
 database may fail at any call, and whatever happens every thread keeps its law.
 */
module ThreadAgent {
  import opened Basics
  import opened Threads

  /**
   Go on with the next message or thread, or leave the thread or the poll: the post
   was refused, the budget is exhausted, Slack asks to slow down, an exception came
   before anything was posted, or an answer was posted and its marker was lost.
   */
  datatype Exit = GoOn | Stop | Deferred | RateLimited | Failed | LostMarker

  /** Only other people's messages were added. */
  predicate Grown(before: Thread, after: Thread) {
    before.messages <= after.messages && after == before.(messages := after.messages)
    && After(after.messages, after.seen) == After(before.messages, before.seen)
  }

  /** The messages and answers of a thread only grow. */
  predicate Onward(before: Thread, after: Thread) {
    before.ts == after.ts && before.messages <= after.messages && before.posts <= after.posts
  }

  /** No question is waiting among the first n messages. */
  predicate NoneWaiting(th: Thread, n: nat) {
    forall j :: After(th.messages, th.seen) <= j < n && j < |th.messages| ==> !IsHumanReply(th.messages[j], th.ts)
  }

  /** Message i is the first question waiting. */
  predicate NextQuestion(th: Thread, i: nat) {
    i < |th.messages| && IsHumanReply(th.messages[i], th.ts) && After(th.messages, th.seen) <= i && NoneWaiting(th, i)
  }

  function One(b: bool): nat {
    if b then 1 else 0
  }

  /**
   What a poll did to a thread: `n` answers with their markers and perhaps one more
   whose marker was lost, and if nothing disturbed it, none of its questions left waiting.
   */
  predicate Polled(before: Thread, after: Thread, calm: bool, n: nat, lost: bool) {
    && Onward(before, after)
    && |after.posts| == |before.posts| + n + One(lost) && after.unmarked == before.unmarked + One(lost)
    && (calm ==> NoneWaiting(after, |before.messages|))
  }

  /** Comparing with the marker tells an answered question from a waiting one. */
  lemma Sift(th: Thread, i: nat)
    requires Law(th) && i < |th.messages| && NoneWaiting(th, i)
    ensures var m := th.messages[i];
      if !IsHumanReply(m, th.ts) || (th.seen.Some? && m.ts <= th.seen.value) then NoneWaiting(th, i + 1)
      else NextQuestion(th, i)
  {
    AfterSplits(th.messages, th.seen);
  }

  lemma OnwardTransitive(a: Thread, b: Thread, c: Thread)
    requires Onward(a, b) && Onward(b, c)
    ensures Onward(a, c)
  {
  }

  lemma GrownByOne(th: Thread, m: Message)
    requires Law(th)
    ensures Law(Written(th, m)) && Grown(th, Written(th, m))
  {
    WrittenKeepsLaw(th, m);
    if Written(th, m) != th { WrittenParts(th, m); }
  }

  /**
   The thread being polled, as Slack and its `incidents` row hold it.  During a
   `calm` poll no call fails, nothing is cut short and the budget suffices.
   */
  class Conversation {
    const calm: bool
    var th: Thread

    ghost predicate Valid()
      reads this
    {
      Law(th)
    }

    constructor (th: Thread, calm: bool)
      requires Law(th)
      ensures Valid() && this.th == th && this.calm == calm
    {
      this.th, this.calm := th, calm;
    }

    /** People write in the thread. */
    method Others()
      requires Valid()
      modifies this
      ensures Valid() && Grown(old(th), th)
    {
      var said: seq<Message> := *;
      for i := 0 to |said|
        invariant Valid() && Grown(old(th), th)
      {
        GrownByOne(th, said[i]);
        th := Written(th, said[i]);
      }
    }

    /** Post the answer to one question, and if Slack accepts it move the marker. */
    method Answer(i: nat) returns (exit: Exit)
      requires Valid() && NextQuestion(th, i)
      modifies this
      ensures Valid() && Onward(old(th), th) && (calm ==> exit.GoOn?)
      ensures exit.GoOn? ==> After(th.messages, th.seen) == i + 1 && th.posts == old(th.posts) + [th.messages[i].ts]
                             && th.seen == Some(th.messages[i].ts) && th.unmarked == old(th.unmarked)
      ensures exit.LostMarker? ==> th == Posted(old(th), th.messages[i].ts).(messages := th.messages)
      ensures !exit.GoOn? && !exit.LostMarker? ==> th == old(th).(messages := th.messages)
    {
      Others();
      exit := GoOn;
      if !calm { exit := *; }
      // The budget, a rate limit, a refused post and any exception before the post leave the thread alone.
      if !exit.GoOn? && !exit.LostMarker? { return; }
      var question := th.messages[i].ts;
      FirstWaiting(th, i);
      PostedKeepsLaw(th, question);
      th := Posted(th, question);
      if exit.LostMarker? { return; }
      MarkedKeepsLaw(th, i);
      th := Marked(th, question);
    }

    /** One message of Slack's answer; `seen` is the loop's copy of the marker. */
    method Consider(i: nat, seen: Option<nat>) returns (exit: Exit, answered: bool)
      requires Valid() && i < |th.messages| && seen == th.seen && NoneWaiting(th, i)
      modifies this
      ensures Valid() && Onward(old(th), th) && (calm ==> exit.GoOn?)
      ensures |th.posts| == |old(th.posts)| + One(answered) + One(exit.LostMarker?)
      ensures th.unmarked == old(th.unmarked) + One(exit.LostMarker?)
      ensures th.seen == if answered then Some(old(th).messages[i].ts) else seen
      ensures exit.GoOn? ==> NoneWaiting(th, i + 1)
      ensures answered ==> exit.GoOn?
    {
      var message := th.messages[i];
      Sift(th, i);
      if !IsHumanReply(message, th.ts) || (seen.Some? && message.ts <= seen.value) {
        return GoOn, false;
      }
      exit := Answer(i);
      answered := exit.GoOn?;
    }

    /**
     One thread of a poll.  Slack returns the messages after the marker, the parent
     with them, possibly cut short.  A calm poll leaves no question waiting that was there.
     */
    method Poll() returns (exit: Exit, posted: nat)
      requires Valid()
      modifies this
      ensures Valid() && !exit.Stop? && (calm ==> exit.GoOn?)
      ensures Polled(old(th), th, calm, posted, exit.LostMarker?)
    {
      Others();
      posted := 0;
      if !calm {
        var limited: bool, unreadable: bool := *, *;
        if limited { return RateLimited, 0; }
        if unreadable { return GoOn, 0; }
      }
      var from, to := Cut();
      var seen := th.seen;
      var i := from;
      while i < to
        invariant from <= i <= to <= |th.messages| && Valid() && Onward(old(th), th)
        invariant th.seen == seen && |th.posts| == |old(th.posts)| + posted && th.unmarked == old(th.unmarked)
        invariant NoneWaiting(th, i)
      {
        ghost var before := th;
        var answered;
        var ts := th.messages[i].ts;
        exit, answered := Consider(i, seen);
        OnwardTransitive(old(th), before, th);
        posted := if answered then posted + 1 else posted;
        if exit.Stop? { return GoOn, posted; }
        if !exit.GoOn? { return exit, posted; }
        seen := if answered then Some(ts) else seen;
        i := i + 1;
      }
      exit := GoOn;
    }

    /** Which messages Slack's answer holds. */
    method Cut() returns (from: nat, to: nat)
      requires Valid()
      ensures from <= to <= |th.messages| && NoneWaiting(th, from) && (calm ==> to == |th.messages|)
    {
      AfterSplits(th.messages, th.seen);
      from, to := *, *;
      if calm { to := |th.messages|; }
      if !(from <= to <= |th.messages|) || from > (if th.seen.Some? then After(th.messages, th.seen) else 1) {
        from, to := 0, |th.messages|;
      }
    }
  }

  /** One round of polling as a thread sees it: the poll may end before it, and be calm or not when it comes. */
  datatype Round = NotReached | Reached(calm: bool)

  /**
   Any number of polls of a thread, from the posting of its brief.  Through failed
   posts, rate limits, refused budgets, exceptions and lost markers it is answered in
   order; as many answers are repeated as markers were lost, at most one a poll; and
   after a calm poll no question is left waiting that was there when it began.
   */
  method PollOften(brief: Thread, rounds: seq<Round>) returns (th: Thread, ghost last: Thread, ghost lost: nat)
    requires Fresh(brief)
    ensures AnswersInOrder(th) && Onward(brief, th) && th.unmarked == lost <= |rounds|
    ensures OnlyPeopleAnswered(th)
    ensures rounds != [] && rounds[|rounds| - 1] == Reached(true) ==>
      Onward(last, th) && PeopleAnswered(th, |last.messages|)
  {
    FreshKeepsLaw(brief);
    th, last, lost := brief, brief, 0;
    for i := 0 to |rounds|
      invariant Law(th) && Onward(brief, th) && th.unmarked == lost <= i
      invariant i > 0 && rounds[i - 1] == Reached(true) ==> Onward(last, th) && NoneWaiting(th, |last.messages|)
    {
      last := th;
      var after, missing := PollRound(th, rounds[i]);
      OnwardTransitive(brief, th, after);
      th, lost := after, lost + One(missing);
    }
    AnswersFormAPrefix(th);
    PostsAreToPeople(th);
    if rounds != [] && rounds[|rounds| - 1] == Reached(true) { NobodyWaits(th, |last.messages|); }
  }

  method PollRound(th: Thread, round: Round) returns (after: Thread, missing: bool)
    requires Law(th)
    ensures Law(after) && Onward(th, after) && after.unmarked == th.unmarked + One(missing)
    ensures round == Reached(true) ==> NoneWaiting(after, |th.messages|)
  {
    if round.NotReached? { return th, false; }
    var exit, _, polled := PollThread(th, round.calm);
    return polled, exit.LostMarker?;
  }

  /** A thread that a poll came to. */
  datatype Visit = Visit(before: Thread, after: Thread, posted: nat, lost: bool)

  predicate Sound(v: Visit, calm: bool) {
    Law(v.after) && Polled(v.before, v.after, calm, v.posted, v.lost)
  }

  method PollThread(th: Thread, calm: bool) returns (exit: Exit, posted: nat, after: Thread)
    requires Law(th)
    ensures Sound(Visit(th, after, posted, exit.LostMarker?), calm) && (calm ==> exit.GoOn?)
  {
    var thread := new Conversation(th, calm);
    exit, posted := thread.Poll();
    after := thread.th;
  }

  function Sum(visits: seq<Visit>): nat {
    if visits == [] then 0 else Sum(visits[..|visits| - 1]) + visits[|visits| - 1].posted
  }

  lemma VisitedOne(visits: seq<Visit>, v: Visit, calm: bool)
    requires (forall u :: u in visits ==> Sound(u, calm)) && Sound(v, calm)
    ensures forall u :: u in visits + [v] ==> Sound(u, calm)
    ensures Sum(visits + [v]) == Sum(visits) + v.posted
  {
    assert (visits + [v])[..|visits|] == visits;
    forall u | u in visits + [v] ensures Sound(u, calm) {
      assert u in visits || u == v;
    }
  }

  /** The visits are to these threads, in order. */
  predicate Visits(visits: seq<Visit>, open: seq<Thread>) {
    |visits| <= |open| && forall k :: 0 <= k < |visits| ==> visits[k].before == open[k]
  }

  /**
   `poll_threads` over the open threads; a rate limit, a refused budget or an
   exception ends it.  An exception after a post is the only way to lose a marker,
   and the last thread visited is the only one to lose it.
   */
  method PollThreads(open: seq<Thread>, calm: bool) returns (exit: Exit, posted: nat, visits: seq<Visit>)
    requires forall th :: th in open ==> Law(th)
    ensures Visits(visits, open) && (exit.GoOn? ==> |visits| == |open|) && (calm ==> exit.GoOn?)
    ensures forall v :: v in visits ==> Sound(v, calm)
    ensures posted == Sum(visits)
    ensures forall k :: 0 <= k < |visits| ==> (visits[k].lost <==> exit.LostMarker? && k == |visits| - 1)
  {
    posted, exit, visits := 0, GoOn, [];
    for k := 0 to |open|
      invariant |visits| == k && exit.GoOn? && Visits(visits, open) && posted == Sum(visits)
      invariant forall v :: v in visits ==> Sound(v, calm)
      invariant forall l :: 0 <= l < k ==> !visits[l].lost
    {
      var n, th;
      assert open[k] in open;
      exit, n, th := PollThread(open[k], calm);
      var visit := Visit(open[k], th, n, exit.LostMarker?);
      VisitedOne(visits, visit, calm);
      posted, visits := posted + n, visits + [visit];
      if !exit.GoOn? { return; }
    }
  }

  const RATE_LIMIT_BACKOFF: Time := 60 * SECOND

  function Min(a: int, b: int): int { if a < b then a else b }

  /** Consecutive times at least this far apart. */
  predicate Spaced(times: seq<Time>, gap: Time) {
    forall i :: 0 < i < |times| ==> times[i - 1] + gap <= times[i]
  }

  /** The throttle around poll_threads. */
  class ThreadPoller {
    const interval: Time
    var nextAt: Time
    ghost var polls: seq<Time>      // when a poll was started

    /** Slack is not polled more often than the interval, or the back-off if that is shorter. */
    ghost predicate Valid()
      reads this
    {
      && Spaced(polls, Min(interval, RATE_LIMIT_BACKOFF))
      && (polls != [] ==> nextAt >= polls[|polls| - 1] + Min(interval, RATE_LIMIT_BACKOFF))
    }

    constructor (interval: Time)
      ensures Valid() && this.interval == interval && polls == []
    {
      this.interval, nextAt, polls := interval, -1_000_000_000 * SECOND, [];
    }

    method Due(now: Time) returns (due: bool)
      ensures due == (now >= nextAt)
    {
      due := now >= nextAt;
    }

    /** `later` is the clock when the poll ends.  After a rate limit nothing is polled for a minute. */
    method Call(open: seq<Thread>, now: Time, later: Time, calm: bool)
      returns (failed: bool, posted: nat, visits: seq<Visit>, ghost exit: Exit)
      requires Valid() && now <= later && forall th :: th in open ==> Law(th)
      modifies this
      ensures Valid() && Visits(visits, open) && forall v :: v in visits ==> Sound(v, calm)
      ensures now < old(nextAt) ==> polls == old(polls) && nextAt == old(nextAt) && posted == 0 && visits == []
      ensures now >= old(nextAt) ==> polls == old(polls) + [now]
                                     && nextAt == if exit.RateLimited? then later + 60 * SECOND else now + interval
    {
      var due := Due(now);
      if !due { return false, 0, [], GoOn; }
      nextAt, polls := now + interval, polls + [now];
      var e;
      e, posted, visits := PollThreads(open, calm);
      failed, exit := e.Failed? || e.LostMarker?, e;
      if e.RateLimited? {
        nextAt, posted := later + RATE_LIMIT_BACKOFF, 0;
      }
    }
  }
}
