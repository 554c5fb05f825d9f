/**
 `poll_once` and the sweep loop of freshet/ingest/poller.py in their own form:
 every call is a run of the Poller machine, with servers publishing and
 deliveries completing in between, and the per-host backoff deciding which pages
 are asked at all.
 */
module PollLoop {
  import opened Basics
  import opened Backoff
  import opened Poller

  datatype Page = Page(url: Url, host: string)

  /** What one page came to in a sweep. */
  datatype Outcome = Skipped | FetchFailed | Unchanged | Unparsed | Parsed

  predicate GotAnswer(o: Outcome) {
    o.Unchanged? || o.Parsed?
  }

  /** The answers the pages gave, in order: each with the representation it stood for. */
  function Given(pages: seq<Page>, answers: seq<Option<Rep>>): seq<(Url, Rep)>
    requires |answers| <= |pages|
  {
    if answers == [] then []
    else
      var n := |answers| - 1;
      Given(pages, answers[..n]) + (if answers[n].Some? then [(pages[n].url, answers[n].value)] else [])
  }

  lemma GivenAppend(pages: seq<Page>, answers: seq<Option<Rep>>, answer: Option<Rep>)
    requires |answers| < |pages|
    ensures Given(pages, answers + [answer])
         == Given(pages, answers) + (if answer.Some? then [(pages[|answers|].url, answer.value)] else [])
  {
    assert (answers + [answer])[..|answers|] == answers;
  }

  lemma {:induction false} GivenHas(pages: seq<Page>, answers: seq<Option<Rep>>, i: nat)
    requires |answers| <= |pages| && i < |answers| && answers[i].Some?
    ensures (pages[i].url, answers[i].value) in Given(pages, answers)
    decreases |answers|
  {
    if i < |answers| - 1 { GivenHas(pages, answers[..|answers| - 1], i); }
  }

  lemma ExecAppend(s: Poller.World, run: seq<Poller.Step>, step: Poller.Step)
    ensures Poller.Exec(s, run + [step]) == Poller.Next(Poller.Exec(s, run), step)
    decreases |run|
  {
    if run == [] {
      assert run + [step] == [step] && [step][1..] == [];
    } else {
      assert (run + [step])[0] == run[0] && (run + [step])[1..] == run[1..] + [step];
      ExecAppend(Poller.Next(s, run[0]), run[1..], step);
    }
  }

  /** After the flush everything that was seen is published and said in Kafka. */
  lemma SeenInKafka(t: Poller.World, before: seq<(Url, Rep)>, pages: seq<Page>, answers: seq<Option<Rep>>, i: nat)
    requires Inv(t) && t.phase.Flushed? && forall j :: 0 <= j < |t.seen| ==> t.seen[j] in t.published
    requires |answers| == |pages| && t.seen == before + Given(pages, answers) && i < |pages| && answers[i].Some?
    ensures (pages[i].url, answers[i].value) in t.published && Said(answers[i].value, t.acked)
  {
    GivenHas(pages, answers, i);
    assert (pages[i].url, answers[i].value) in t.seen;
    var j :| 0 <= j < |t.seen| && t.seen[j] == (pages[i].url, answers[i].value);
    assert Said(t.seen[j].1, Handed(t));
  }

  class Sweeper {
    const pages: seq<Page>
    const backoff: HostBackoff
    var s: Poller.World
    ghost var origin: Poller.World
    ghost var run: seq<Poller.Step>

    ghost predicate Valid()
      reads this
    {
      s == Poller.Exec(origin, run) && Inv(s) && SeenPublished()
    }

    ghost predicate SeenPublished()
      reads this
    {
      forall i :: 0 <= i < |s.seen| ==> s.seen[i] in s.published
    }

    /** What the servers and the broker do only adds. */
    twostate predicate Continues()
      reads this
    {
      && origin == old(origin) && old(s).published <= s.published && old(s).acked <= s.acked
    }

    constructor (pages: seq<Page>, s: Poller.World)
      requires Init(s)
      ensures Valid() && this.pages == pages && this.s == s && fresh(backoff)
    {
      this.pages, this.s, origin, run := pages, s, s, [];
      backoff := new HostBackoff();
    }

    method Do(step: Poller.Step)
      requires Valid()
      modifies this`s, this`run
      ensures Valid() && Continues() && s == Poller.Next(old(s), step)
    {
      ExecAppend(origin, run, step);
      InvStep(s, step);
      s, run := Poller.Next(s, step), run + [step];
    }

    /** Servers publish and deliveries complete. */
    method Others()
      requires Valid()
      modifies this`s, this`run
      ensures Valid() && Continues()
      ensures s == old(s).(server := s.server, published := s.published, acked := s.acked)
    {
      var steps: seq<Poller.Step> := *;
      for i := 0 to |steps|
        invariant Valid() && Continues()
        invariant s == old(s).(server := s.server, published := s.published, acked := s.acked)
      {
        if steps[i].Publish? || steps[i].Deliver? {
          Do(steps[i]);
        }
      }
    }

    /** The answer of a page that could be fetched, and what the cache and the batch make of it. */
    method Take(url: Url) returns (outcome: Outcome, ghost answer: Option<Rep>)
      requires Valid() && s.phase.Sweeping? && url in s.server
      modifies this`s, this`run
      ensures Valid() && Continues() && s.phase.Sweeping? && s.disk == old(s).disk && s.server == old(s).server
      ensures !outcome.Skipped? && !outcome.FetchFailed?
      ensures answer == if GotAnswer(outcome) then Some(s.server[url]) else None
      ensures s.seen == old(s).seen + (if answer.Some? then [(url, answer.value)] else [])
      ensures outcome.Unchanged? ==> Matches(old(s).mem, url, s.server[url])
      ensures outcome.Parsed? ==>
        && s.server[url].parsed.Found? && s.mem == Remember(old(s).mem, url, s.server[url])
        && s.batch == old(s).batch + s.server[url].parsed.updates
      ensures !outcome.Parsed? ==> s.mem == old(s).mem && s.batch == old(s).batch
    {
      var rep := s.server[url];
      var same: bool := *;
      if same && Matches(s.mem, url, rep) {
        Do(Fetch(url, NotModified));
        return Unchanged, Some(rep);
      }
      Do(Fetch(url, Full));
      if rep.parsed.Found? && rep.parsed.updates != [] { return Outcome.Parsed, Some(rep); }
      return Unparsed, None;
    }

    /**
     `one`: ask the page unless its host is backing off; a failure backs it off, an
     answer clears it.  `answer` is the representation that was returned or, with a
     304, that the stored validators still match.
     */
    method One(page: Page, now: Time) returns (outcome: Outcome, ghost answer: Option<Rep>)
      requires Valid() && s.phase.Sweeping?
      modifies this`s, this`run, backoff
      ensures Valid() && Continues() && s.phase.Sweeping? && s.disk == old(s).disk
      ensures outcome.Skipped? <==>
        if page.host in old(backoff.until) then now < old(backoff.until)[page.host] else now < 0
      ensures outcome.Skipped? ==> backoff.until == old(backoff.until) && backoff.failures == old(backoff.failures)
      ensures outcome.FetchFailed? ==>
        && backoff.failures == old(backoff.failures)[page.host := Failures(old(backoff.failures), page.host) + 1]
        && page.host in backoff.until && now < backoff.until[page.host] <= now + MAX_BACKOFF
        && backoff.until == old(backoff.until)[page.host := backoff.until[page.host]]
      ensures !outcome.Skipped? && !outcome.FetchFailed? ==>
        backoff.until == old(backoff.until) - {page.host} && backoff.failures == old(backoff.failures) - {page.host}
      ensures GotAnswer(outcome) <==> answer.Some?
      ensures s.seen == old(s).seen + (if answer.Some? then [(page.url, answer.value)] else [])
      ensures answer.Some? ==> page.url in s.server && s.server[page.url] == answer.value
      ensures outcome.Unchanged? ==> Matches(old(s).mem, page.url, answer.value)
      ensures outcome.Parsed? ==>
        && answer.value.parsed.Found? && s.mem == Remember(old(s).mem, page.url, answer.value)
        && s.batch == old(s).batch + answer.value.parsed.updates
      ensures !outcome.Parsed? ==> s.mem == old(s).mem && s.batch == old(s).batch
    {
      answer := None;
      var skip := backoff.Skip(page.host, now);
      if skip { return Skipped, None; }
      Others();
      var raised: bool := *;
      if raised || page.url !in s.server {
        var retryAfter: Option<Time> := *;
        var delay := backoff.Failed(page.host, retryAfter, now);
        return FetchFailed, None;
      }
      backoff.Succeeded(page.host);
      outcome, answer := Take(page.url);
    }

    /** `poll_once`: every page in turn. */
    method PollOnce(now: Time) returns (outcomes: seq<Outcome>, ghost answers: seq<Option<Rep>>)
      requires Valid() && s.phase.Sweeping?
      modifies this`s, this`run, backoff
      ensures Valid() && Continues() && s.phase.Sweeping? && s.disk == old(s).disk
      ensures |outcomes| == |answers| == |pages|
      ensures forall i :: 0 <= i < |pages| ==> (GotAnswer(outcomes[i]) <==> answers[i].Some?)
      ensures s.seen == old(s).seen + Given(pages, answers)
    {
      outcomes, answers := [], [];
      for i := 0 to |pages|
        invariant Valid() && Continues() && s.phase.Sweeping? && s.disk == old(s).disk
        invariant |outcomes| == |answers| == i
        invariant forall k :: 0 <= k < i ==> (GotAnswer(outcomes[k]) <==> answers[k].Some?)
        invariant s.seen == old(s).seen + Given(pages, answers)
      {
        var later: nat := *;
        var outcome;
        ghost var answer;
        outcome, answer := One(pages[i], now + later);
        GivenAppend(pages, answers, answer);
        outcomes, answers := outcomes + [outcome], answers + [answer];
      }
    }

    /**
     One sweep of `run`.  When it returns normally, the very representation each
     page was answered with is published and wholly in Kafka, and a new cache file,
     if one was written, holds just the validators in memory.  When the flush raises,
     nothing is saved and the process ends.
     */
    method Sweep(now: Time) returns (raised: bool, outcomes: seq<Outcome>, ghost answers: seq<Option<Rep>>)
      requires Valid() && s.phase.Sweeping?
      modifies this`s, this`run, backoff
      ensures Valid() && Continues() && s.phase.Sweeping? && s.batch == [] && |outcomes| == |answers| == |pages|
      ensures raised ==> s.disk == old(s).disk
      ensures !raised ==> s.disk == old(s).disk || s.disk == s.mem
      ensures forall i :: 0 <= i < |pages| ==> (GotAnswer(outcomes[i]) <==> answers[i].Some?)
      ensures !raised ==> forall i :: 0 <= i < |pages| && answers[i].Some? ==>
        (pages[i].url, answers[i].value) in s.published && Said(answers[i].value, s.acked)
    {
      outcomes, answers := PollOnce(now);
      ghost var before := old(s).seen;
      Others();
      raised := *;
      if raised {
        var unreadable: bool := *;
        Do(Crash(unreadable));
        return;
      }
      Do(Flush);
      forall i | 0 <= i < |pages| && answers[i].Some?
        ensures (pages[i].url, answers[i].value) in s.published && Said(answers[i].value, s.acked)
      {
        SeenInKafka(s, before, pages, answers, i);
      }
      var written: bool := *;
      Do(Poller.Step.Save(written));
    }

    /** `run`: sweeps until the limit, or until a flush raises. */
    method Run(maxSweeps: nat) returns (raised: bool, sweeps: nat)
      requires Valid() && s.phase.Sweeping?
      modifies this`s, this`run, backoff
      ensures Valid() && Continues() && s.phase.Sweeping? && (maxSweeps > 0 ==> s.batch == [])
      ensures sweeps <= maxSweeps && (!raised ==> sweeps == maxSweeps)
    {
      sweeps, raised := 0, false;
      while sweeps < maxSweeps
        invariant Valid() && Continues() && s.phase.Sweeping? && sweeps <= maxSweeps
        invariant sweeps > 0 ==> s.batch == []
      {
        var now: nat := *;
        var outcomes;
        ghost var answers;
        raised, outcomes, answers := Sweep(now);
        if raised { return; }
        sweeps := sweeps + 1;
      }
    }
  }
}
