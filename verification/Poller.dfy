/**
 The conditional-request protocol of freshet/ingest/poller.py: validators are
 remembered in memory when a body is parsed, the updates are produced and
 flushed, and only then is the cache written to disk.  The process may die at
 any point and starts again from what is on disk.

 A server answers 304 as sections 13.1.2 and 13.1.3 of RFC 9110 say, and its
 validators are honest: a representation that repeats an entity tag, or a
 modification date, says the same, and modification dates do not go back.
 */
module Poller {
  import opened Basics

  type Url = string
  type Update = string

  /** What parse_atom makes of a body. */
  datatype Parsed = NoBody | Raises | Found(updates: seq<Update>)

  /** A representation; an empty validator header counts as missing. */
  datatype Rep = Rep(etag: Option<string>, modified: Option<Time>, parsed: Parsed)

  datatype Cache = Cache(etag: map<Url, string>, modified: map<Url, Time>)

  /** A sweep under way, with what it handed to the producer and the representations it was answered with; or flushed. */
  datatype Phase = Sweeping | Flushed

  datatype World = World(
    server: map<Url, Rep>,
    published: set<(Url, Rep)>,
    acked: set<Update>,
    disk: Cache,
    mem: Cache,
    phase: Phase,
    batch: seq<Update>,
    seen: seq<(Url, Rep)>)

  datatype Reply = NotModified | Full

  datatype Step =
    | Publish(url: Url, rep: Rep)
    | Fetch(at: Url, reply: Reply)
    | Deliver(update: Update)
    | Flush
    | Save(ok: bool)
    | Crash(unreadable: bool)

  const COLD := Cache(map[], map[])

  /** A later representation next to an earlier one of the same server. */
  predicate Honest(earlier: Rep, later: Rep) {
    && (earlier.etag.Some? && earlier.etag == later.etag ==> earlier.parsed == later.parsed)
    && (earlier.modified.Some? && later.modified.Some? ==>
          && earlier.modified.value <= later.modified.value
          && (earlier.modified == later.modified ==> earlier.parsed == later.parsed))
  }

  /** Whether the server may answer 304: If-Modified-Since counts only without If-None-Match. */
  predicate Matches(cache: Cache, url: Url, rep: Rep) {
    if url in cache.etag then rep.etag == Some(cache.etag[url])
    else url in cache.modified && rep.modified.Some? && rep.modified.value <= cache.modified[url]
  }

  /** `remember`: a header that the response lacks leaves the stored one. */
  function Remember(cache: Cache, url: Url, rep: Rep): Cache {
    Cache(if rep.etag.Some? then cache.etag[url := rep.etag.value] else cache.etag,
          if rep.modified.Some? then cache.modified[url := rep.modified.value] else cache.modified)
  }

  /** A body that parses to nothing, or not at all, leaves no validator behind. */
  function Answered(s: World, url: Url, rep: Rep): World {
    if rep.parsed.Found? && rep.parsed.updates != []
    then s.(mem := Remember(s.mem, url, rep), batch := s.batch + rep.parsed.updates, seen := s.seen + [(url, rep)])
    else s
  }

  function Next(s: World, step: Step): World {
    match step
    case Publish(url, rep) =>
      if forall p :: p in s.published && p.0 == url ==> Honest(p.1, rep)
      then s.(server := s.server[url := rep], published := s.published + {(url, rep)})
      else s
    case Fetch(url, reply) =>
      if !s.phase.Sweeping? || url !in s.server then s
      else if reply.Full? then Answered(s, url, s.server[url])
      else if Matches(s.mem, url, s.server[url]) then s.(seen := s.seen + [(url, s.server[url])])
      else s
    case Deliver(u) => if u in s.batch then s.(acked := s.acked + {u}) else s
    case Flush =>
      if s.phase.Sweeping? then s.(acked := s.acked + (set u | u in s.batch), phase := Flushed) else s
    case Save(ok) =>
      if s.phase.Flushed? then s.(disk := if ok then s.mem else s.disk, phase := Sweeping, batch := [], seen := [])
      else s
    case Crash(unreadable) =>
      s.(mem := if unreadable then COLD else s.disk, phase := Sweeping, batch := [], seen := [])
  }

  function Exec(s: World, run: seq<Step>): World
    decreases |run|
  {
    if run == [] then s else Exec(Next(s, run[0]), run[1..])
  }

  ghost predicate Init(s: World) {
    s.server == map[] && s.published == {} && s.disk == s.mem == COLD
    && s.phase.Sweeping? && s.batch == [] && s.seen == []
  }

  // ----- what a validator stands for

  predicate Said(rep: Rep, acks: set<Update>) {
    rep.parsed.Found? && forall u :: u in rep.parsed.updates ==> u in acks
  }

  /** Handed to Kafka: acknowledged, or in the batch that the next flush waits for. */
  function Handed(s: World): set<Update> {
    s.acked + (set u | u in s.batch)
  }

  /** Every stored validator came from a representation whose updates are all there. */
  ghost predicate Backed(published: set<(Url, Rep)>, cache: Cache, acks: set<Update>) {
    && (forall url :: url in cache.etag ==> EtagBacked(published, url, cache.etag[url], acks))
    && (forall url :: url in cache.modified ==> DateBacked(published, url, cache.modified[url], acks))
  }

  ghost predicate EtagBacked(published: set<(Url, Rep)>, url: Url, etag: string, acks: set<Update>) {
    exists rep :: (url, rep) in published && rep.etag == Some(etag) && Said(rep, acks)
  }

  ghost predicate DateBacked(published: set<(Url, Rep)>, url: Url, date: Time, acks: set<Update>) {
    exists rep :: (url, rep) in published && rep.modified == Some(date) && Said(rep, acks)
  }

  ghost predicate ServerHonest(s: World) {
    && (forall p :: p in s.published ==> p.0 in s.server && Honest(p.1, s.server[p.0]))
    && (forall url :: url in s.server ==> (url, s.server[url]) in s.published)
  }

  ghost predicate SeenSaid(s: World) {
    forall i :: 0 <= i < |s.seen| ==> Said(s.seen[i].1, Handed(s))
  }

  ghost predicate Inv(s: World) {
    && ServerHonest(s) && SeenSaid(s)
    && Backed(s.published, s.mem, Handed(s)) && Backed(s.published, s.disk, s.acked)
    && (s.phase.Flushed? ==> Handed(s) == s.acked)
  }

  lemma BackedGrows(published: set<(Url, Rep)>, cache: Cache, acks: set<Update>,
                    morePublished: set<(Url, Rep)>, more: set<Update>)
    requires Backed(published, cache, acks) && published <= morePublished && acks <= more
    ensures Backed(morePublished, cache, more)
  {
    forall url | url in cache.etag ensures EtagBacked(morePublished, url, cache.etag[url], more) {
      var rep :| (url, rep) in published && rep.etag == Some(cache.etag[url]) && Said(rep, acks);
      assert (url, rep) in morePublished && Said(rep, more);
    }
    forall url | url in cache.modified ensures DateBacked(morePublished, url, cache.modified[url], more) {
      var rep :| (url, rep) in published && rep.modified == Some(cache.modified[url]) && Said(rep, acks);
      assert (url, rep) in morePublished && Said(rep, more);
    }
  }

  /** A representation that the validators match says nothing that has not been handed over. */
  lemma MatchedIsSaid(s: World, cache: Cache, url: Url, acks: set<Update>)
    requires ServerHonest(s) && Backed(s.published, cache, acks)
    requires url in s.server && Matches(cache, url, s.server[url])
    ensures Said(s.server[url], acks)
  {
    if url in cache.etag {
      assert EtagBacked(s.published, url, cache.etag[url], acks);
      var rep :| (url, rep) in s.published && rep.etag == Some(cache.etag[url]) && Said(rep, acks);
      assert Honest(rep, s.server[(url, rep).0]);
    } else {
      assert DateBacked(s.published, url, cache.modified[url], acks);
      var rep :| (url, rep) in s.published && rep.modified == Some(cache.modified[url]) && Said(rep, acks);
      assert Honest(rep, s.server[(url, rep).0]);
    }
  }

  lemma RememberBacked(s: World, url: Url, rep: Rep, acks: set<Update>)
    requires Backed(s.published, s.mem, acks) && (url, rep) in s.published && Said(rep, acks)
    ensures Backed(s.published, Remember(s.mem, url, rep), acks)
  {
    var cache := Remember(s.mem, url, rep);
    forall u | u in cache.etag ensures EtagBacked(s.published, u, cache.etag[u], acks) {
      if !(u == url && rep.etag.Some?) { assert EtagBacked(s.published, u, s.mem.etag[u], acks); }
    }
    forall u | u in cache.modified ensures DateBacked(s.published, u, cache.modified[u], acks) {
      if !(u == url && rep.modified.Some?) { assert DateBacked(s.published, u, s.mem.modified[u], acks); }
    }
  }

  /**
     What is remembered of an answer is enough to recognise it again, exactly unless it
     came without a validator or with a date alone where an older entity tag stands;
     other pages' validators are as they were.
   */
  lemma RememberedExactly(cache: Cache, url: Url, rep: Rep, other: Url, any: Rep)
    ensures Matches(Remember(cache, url, rep), url, rep)
      <==> rep.etag.Some? || (rep.modified.Some? && url !in cache.etag)
    ensures rep.etag.None? && rep.modified.None? ==> Remember(cache, url, rep) == cache
    ensures other != url ==> (Matches(Remember(cache, url, rep), other, any) <==> Matches(cache, other, any))
  {
  }

  lemma FullStep(s: World, url: Url)
    requires Inv(s) && s.phase.Sweeping? && url in s.server
    ensures Inv(Answered(s, url, s.server[url]))
  {
    var rep := s.server[url];
    var t := Answered(s, url, rep);
    if t != s {
      BackedGrows(s.published, s.mem, Handed(s), s.published, Handed(t));
      forall u | u in rep.parsed.updates ensures u in Handed(t) {
        assert u in t.batch;
      }
      assert forall u :: u in s.batch ==> u in t.batch;
      RememberBacked(s, url, rep, Handed(t));
    }
  }

  lemma NotModifiedStep(s: World, url: Url)
    requires Inv(s)
    ensures Inv(Next(s, Fetch(url, NotModified)))
  {
    if s.phase.Sweeping? && url in s.server && Matches(s.mem, url, s.server[url]) {
      MatchedIsSaid(s, s.mem, url, Handed(s));
    }
  }

  lemma PublishStep(s: World, url: Url, rep: Rep)
    requires Inv(s)
    ensures Inv(Next(s, Publish(url, rep)))
  {
    var t := Next(s, Publish(url, rep));
    BackedGrows(s.published, s.mem, Handed(s), t.published, Handed(t));
    BackedGrows(s.published, s.disk, s.acked, t.published, t.acked);
  }

  lemma QuietStep(s: World, step: Step)
    requires Inv(s) && !step.Fetch? && !step.Publish?
    ensures Inv(Next(s, step))
  {
    var t := Next(s, step);
    if step.Deliver? || step.Flush? {
      assert Handed(t) == Handed(s);
      BackedGrows(s.published, s.disk, s.acked, t.published, t.acked);
    } else if step.Crash? {
      BackedGrows(s.published, s.disk, s.acked, s.published, Handed(t));
    } else if s.phase.Flushed? {
      assert Handed(t) == Handed(s) == s.acked;
    }
  }

  lemma InvStep(s: World, step: Step)
    requires Inv(s)
    ensures Inv(Next(s, step))
  {
    if step.Publish? {
      PublishStep(s, step.url, step.rep);
    } else if !step.Fetch? {
      QuietStep(s, step);
    } else if step.reply.NotModified? {
      NotModifiedStep(s, step.at);
    } else if s.phase.Sweeping? && step.at in s.server {
      FullStep(s, step.at);
    }
  }

  lemma {:induction false} InvRun(s: World, run: seq<Step>)
    requires Inv(s)
    ensures Inv(Exec(s, run))
    decreases |run|
  {
    if run != [] {
      InvStep(s, run[0]);
      InvRun(Next(s, run[0]), run[1..]);
    }
  }

  // ----- theorems

  /**
     In every reachable state, whatever crashed before, a validator on disk that
     the server's current representation matches means that every update of
     that representation was acknowledged: a 304 after any restart hides nothing.
   */
  lemma PersistedMeansAcknowledged(s: World, run: seq<Step>, url: Url)
    requires Init(s)
    ensures var t := Exec(s, run);
      url in t.server && Matches(t.disk, url, t.server[url]) ==> Said(t.server[url], t.acked)
  {
    InvRun(s, run);
    var t := Exec(s, run);
    if url in t.server && Matches(t.disk, url, t.server[url]) {
      MatchedIsSaid(t, t.disk, url, t.acked);
    }
  }

  /** A 304 in a running process hides nothing that the coming flush does not wait for. */
  lemma NotModifiedHidesNothing(s: World, run: seq<Step>, url: Url)
    requires Init(s)
    ensures var t := Exec(s, run);
      url in t.server && Matches(t.mem, url, t.server[url]) ==> Said(t.server[url], Handed(t))
  {
    InvRun(s, run);
    var t := Exec(s, run);
    if url in t.server && Matches(t.mem, url, t.server[url]) {
      MatchedIsSaid(t, t.mem, url, Handed(t));
    }
  }

  /** Once a sweep is flushed, everything said by the representations it was answered with is in Kafka. */
  lemma FlushedSweepIsComplete(s: World, run: seq<Step>, i: nat)
    requires Init(s)
    ensures var t := Exec(s, run);
      t.phase.Flushed? && i < |t.seen| ==> Said(t.seen[i].1, t.acked)
  {
    InvRun(s, run);
  }
}
