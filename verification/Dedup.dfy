/**
 freshet/stream/dedup_job.sql: the dead-letter, normalized and lifecycle
 projections of the raw stream, and what the deduplicated stream means for the
 index that freshet/pipeline/embedder.py builds from it.
 */
module Dedup {
  import opened Basics
  import opened KeepFirst
  import opened Embedder
  import opened EffectivelyOnce
  import Chunking
  import ChunkingTheorems

  /** A row of `raw_incidents` with its processing time. */
  datatype Raw = Raw(provider: string, incidentId: string, updateId: string, bodyDigest: Option<string>,
                     createdAt: Option<Time>, status: string, text: string, name: string, procTime: Time)

  type UpdateKey = (string, string, string, string)

  /** The partition of the deduplicating ROW_NUMBER; rows without a time are filtered out. */
  function KeyOf(r: Raw): Option<UpdateKey> {
    if r.createdAt.None? then None
    else Some((r.provider, r.incidentId, r.updateId, Coalesce(r.bodyDigest, Some("")).value))
  }

  function DeadLetters(rows: seq<Raw>): seq<Raw> {
    if rows == [] then []
    else
      var n := |rows| - 1;
      DeadLetters(rows[..n]) + (if rows[n].createdAt.None? then [rows[n]] else [])
  }

  function Timed(rows: seq<Raw>): seq<Raw> {
    if rows == [] then []
    else
      var n := |rows| - 1;
      Timed(rows[..n]) + (if rows[n].createdAt.Some? then [rows[n]] else [])
  }

  function Normalized(rows: seq<Raw>): seq<Raw> {
    Kept(rows, KeyOf)
  }

  function IncidentOf(r: Raw): string {
    r.provider + ":" + r.incidentId
  }

  function EventIdOf(r: Raw): string {
    IncidentOf(r) + ":" + r.updateId
  }

  /** The row as an event of the topic `normalized.updates`. */
  function EventOf(r: Raw): Event
    requires r.createdAt.Some?
  {
    Event(EventIdOf(r), Some(IncidentOf(r)), r.provider, "alert", None, "status_update",
          r.createdAt.value, r.name + ": " + r.text, Some(r.name))
  }

  /** Update ids are hexadecimal digests. */
  predicate PlainId(id: string) {
    ':' !in id
  }

  // ----- dead letters

  /** No row is lost or doubled between the dead letters and the rows that are deduplicated. */
  lemma {:induction false} DeadLettersPartition(rows: seq<Raw>)
    ensures multiset(DeadLetters(rows)) + multiset(Timed(rows)) == multiset(rows)
    ensures (forall r :: r in DeadLetters(rows) ==> r.createdAt.None?) && (forall r :: r in Timed(rows) ==> r.createdAt.Some?)
    decreases |rows|
  {
    if rows != [] {
      var n := |rows| - 1;
      DeadLettersPartition(rows[..n]);
      assert multiset(rows) == multiset(rows[..n]) + multiset{rows[n]} by { assert rows == rows[..n] + [rows[n]]; }
    }
  }

  /** Dead letters play no part in the deduplication. */
  lemma {:induction false} DeadLettersLeaveNoTrace(rows: seq<Raw>)
    ensures Normalized(Timed(rows)) == Normalized(rows) && KeysOf(Timed(rows), KeyOf) == KeysOf(rows, KeyOf)
    decreases |rows|
  {
    if rows != [] {
      var n := |rows| - 1;
      var front, last := rows[..n], rows[n];
      DeadLettersLeaveNoTrace(front);
      assert rows == front + [last];
      if last.createdAt.Some? {
        KeptAppendOne(front, last, KeyOf);
        KeptAppendOne(Timed(front), last, KeyOf);
        KeysAppendOne(front, last, KeyOf, KeyOf(last).value);
        KeysAppendOne(Timed(front), last, KeyOf, KeyOf(last).value);
        assert Timed(rows) == Timed(front) + [last];
      } else {
        assert Timed(rows) == Timed(front);
      }
    }
  }

  // ----- deduplication

  /** A row with a time for this update with this body; rows without a digest count as one body. */
  predicate IsUpdate(r: Raw, provider: string, incident: string, update: string, digest: string) {
    && r.createdAt.Some? && r.provider == provider && r.incidentId == incident && r.updateId == update
    && (if r.bodyDigest.Some? then r.bodyDigest.value == digest else digest == "")
  }

  function Digest(r: Raw): string {
    if r.bodyDigest.Some? then r.bodyDigest.value else ""
  }

  predicate SameUpdate(r: Raw, q: Raw) {
    IsUpdate(r, q.provider, q.incidentId, q.updateId, Digest(q))
  }

  /** Each update with each body is emitted exactly once, however often it arrives, and as it first arrived. */
  lemma EmittedOnce(rows: seq<Raw>, provider: string, incident: string, update: string, digest: string)
    ensures CountWhere(Normalized(rows), (r: Raw) => IsUpdate(r, provider, incident, update, digest))
         == if exists r :: r in rows && IsUpdate(r, provider, incident, update, digest) then 1 else 0
    ensures forall j :: 0 <= j < |Normalized(rows)| ==>
              exists i :: 0 <= i < |rows| && rows[i] == Normalized(rows)[j] && SameUpdate(rows[i], rows[i])
                && forall h :: 0 <= h < i ==> !SameUpdate(rows[h], rows[i])
  {
    KeptOnceWhere(rows, KeyOf, (provider, incident, update, digest), (r: Raw) => IsUpdate(r, provider, incident, update, digest));
    forall j | 0 <= j < |Normalized(rows)|
      ensures exists i :: 0 <= i < |rows| && rows[i] == Normalized(rows)[j] && SameUpdate(rows[i], rows[i])
                && forall h :: 0 <= h < i ==> !SameUpdate(rows[h], rows[i])
    {
      var i := KeptIsFirst(rows, KeyOf, j);
      assert forall h :: 0 <= h < |rows| ==> (SameUpdate(rows[h], rows[i]) <==> KeyOf(rows[h]) == KeyOf(rows[i]));
    }
  }

  /** A poller that sends again what it has already sent changes nothing downstream. */
  lemma ReEmissionIsAbsorbed(rows: seq<Raw>, again: seq<Raw>)
    requires forall i :: 0 <= i < |again| ==>
               KeyOf(again[i]).None? || exists h :: 0 <= h < |rows| && KeyOf(rows[h]) == KeyOf(again[i])
    ensures Normalized(rows + again) == Normalized(rows)
  {
    forall i | 0 <= i < |again| && KeyOf(again[i]).Some?
      ensures KeyOf(again[i]).value in KeysOf(rows, KeyOf)
    {
      KeyMembers(rows, KeyOf, KeyOf(again[i]).value);
    }
    ResendAddsNothing(rows, again, KeyOf);
  }

  lemma {:induction false} NormalizedTimed(rows: seq<Raw>, j: nat)
    requires j < |Normalized(rows)|
    ensures Normalized(rows)[j].createdAt.Some? && Normalized(rows)[j] in rows
  {
    var i := KeptIsFirst(rows, KeyOf, j);
  }

  // ----- the event id determines the incident

  lemma LastColon(a: string, x: string)
    requires PlainId(x)
    ensures var s := a + ":" + x;
      |a| < |s| && s[|a|] == ':' && (forall i :: |a| < i < |s| ==> s[i] != ':') && s[..|a|] == a && s[|a| + 1..] == x
  {
    var s := a + ":" + x;
    forall i | |a| < i < |s| ensures s[i] != ':' {
      assert s[i] == x[i - |a| - 1];
    }
  }

  /** The last colon splits an event id, so it determines the incident. */
  lemma EventIdFixesIncident(r: Raw, q: Raw)
    requires EventIdOf(r) == EventIdOf(q) && PlainId(r.updateId) && PlainId(q.updateId)
    ensures IncidentOf(r) == IncidentOf(q) && r.updateId == q.updateId
  {
    LastColon(IncidentOf(r), r.updateId);
    LastColon(IncidentOf(q), q.updateId);
    assert |IncidentOf(r)| == |IncidentOf(q)|;
  }

  // ----- the topic the embedder consumes

  function PlanFor(model: Model, r: Raw): Plan
    requires r.createdAt.Some?
  {
    PlanOf(model, Parsed(EventOf(r)))
  }

  ghost predicate AllTimed(rows: seq<Raw>) {
    forall i :: 0 <= i < |rows| ==> rows[i].createdAt.Some?
  }

  /** One partition of the topic: the incidents placed on it, in order of emission. */
  function PlansAt(rows: seq<Raw>, place: string -> nat, p: nat, model: Model): seq<Plan>
    requires AllTimed(rows)
  {
    if rows == [] then []
    else
      var n := |rows| - 1;
      PlansAt(rows[..n], place, p, model) + (if place(IncidentOf(rows[n])) == p then [PlanFor(model, rows[n])] else [])
  }

  function Topic(rows: seq<Raw>, place: string -> nat, parts: nat, model: Model): seq<seq<Plan>>
    requires AllTimed(rows)
  {
    seq(parts, p requires 0 <= p < parts => PlansAt(rows, place, p, model))
  }

  function ChunksOf(r: Raw): seq<string> {
    Chunking.ChunkText(r.name + ": " + r.text, Chunking.DEFAULT_MAX_CHARS)
  }

  lemma {:induction false} SomeWord(t: string, i: nat)
    requires i < |t| && !Chunking.IsSpace(t[i])
    ensures Chunking.Words(t) != []
  {
    if i > 0 && Chunking.IsSpace(t[0]) { SomeWord(t[1..], i - 1); }
  }

  /** The colon that the job puts after the title keeps every update's text from being blank. */
  lemma NeverBlank(r: Raw)
    ensures ChunksOf(r) != []
  {
    var t := r.name + ": " + r.text;
    assert t[|r.name|] == ':';
    SomeWord(t, |r.name|);
    ChunkingTheorems.BlankHasNoChunks(t, Chunking.DEFAULT_MAX_CHARS);
  }

  /** A row becomes the rows of its chunks, unless its embedding fails; it is never skipped as blank. */
  lemma PlanWrites(model: Model, r: Raw)
    requires r.createdAt.Some?
    ensures var plan := PlanFor(model, r);
      && !plan.Blank?
      && (plan.Write? ==>
            && plan.eventId == r.provider + ":" + r.incidentId + ":" + r.updateId && |plan.records| == |ChunksOf(r)|
            && forall k :: 0 <= k < |plan.records| ==>
                 ContentSays(plan.records[k].content, r, k, model) && FixedSays(plan.records[k].fixed, r))
  {
    NeverBlank(r);
    if PlanFor(model, r).Write? {
      forall k | 0 <= k < |PlanFor(model, r).records|
        ensures ContentSays(PlanFor(model, r).records[k].content, r, k, model) && FixedSays(PlanFor(model, r).records[k].fixed, r)
      {
        PlanWritesRow(model, r, k);
      }
    }
  }

  lemma PlanWritesRow(model: Model, r: Raw, k: nat)
    requires r.createdAt.Some? && PlanFor(model, r).Write? && k < |PlanFor(model, r).records|
    ensures ContentSays(PlanFor(model, r).records[k].content, r, k, model) && FixedSays(PlanFor(model, r).records[k].fixed, r)
  {
    if r.name == "" { NoNameNoTitle(r.text); }
  }

  lemma NoNameNoTitle(text: string)
    ensures TitleOf("" + ": " + text) == None
  {
    var t := "" + ": " + text;
    assert t[0] == ':' && t[1] == ' ' && Colon(t, 0) == 0 && t[..0] == "";
  }

  /** The row's chunk, with the vector the model returned for it among the row's chunks. */
  predicate ContentSays(c: Content, r: Raw, k: nat, model: Model) {
    var vectors := model.encode(ChunksOf(r));
    && vectors.Some? && k < |ChunksOf(r)| == |vectors.value| && c.text == ChunksOf(r)[k] && c.embedding == vectors.value[k]
    && c.title == (if r.name == "" then None else Some(r.name))
    && c.severity.None? && c.kind == "status_update" && c.model == model.name
  }

  predicate FixedSays(f: Fixed, r: Raw) {
    && f.incidentId == Some(r.provider + ":" + r.incidentId) && f.service == r.provider
    && Some(f.ts) == r.createdAt && f.source == "alert"
  }

  /** The latest row of an event, by order of emission: the digest seen for the first time last. */
  function Latest(rows: seq<Raw>, id: EventId): Option<Raw> {
    if rows == [] then None
    else if EventIdOf(rows[|rows| - 1]) == id then Some(rows[|rows| - 1])
    else Latest(rows[..|rows| - 1], id)
  }

  /** The latest row of an event that the model can embed. */
  function LatestWritten(rows: seq<Raw>, id: EventId, model: Model): Option<Raw> {
    if rows == [] then None
    else if Writes(rows[|rows| - 1], id, model) then Some(rows[|rows| - 1])
    else LatestWritten(rows[..|rows| - 1], id, model)
  }

  predicate Writes(r: Raw, id: EventId, model: Model) {
    EventIdOf(r) == id && r.createdAt.Some? && PlanFor(model, r).Write?
  }

  /** What the cell of a chunk should hold that held `before` at the start. */
  predicate Holds(cell: Option<Record>, before: Option<Record>, latest: Option<Raw>, k: nat, model: Model) {
    if latest.None? then cell == before
    else if k >= |ChunksOf(latest.value)| then cell.None?
    else cell.Some? && ContentSays(cell.value.content, latest.value, k, model)
  }

  ghost predicate PlainIds(rows: seq<Raw>) {
    forall i :: 0 <= i < |rows| ==> PlainId(rows[i].updateId)
  }

  lemma SettledAppend(plans: seq<Plan>, plan: Plan, key: Key, x: Option<Record>)
    ensures Settled(plans + [plan], |plans| + 1, key, x) == Apply(OpOf(plan, key), Settled(plans, |plans|, key, x))
  {
    var n := |plans|;
    var ops := Ops(plans + [plan], 0, n + 1, key);
    assert ops == Ops(plans, 0, n, key) + [OpOf(plan, key)];
    ReplayAppend(Ops(plans, 0, n, key), [OpOf(plan, key)], x);
    assert [OpOf(plan, key)][1..] == [];
  }

  lemma WriteHolds(model: Model, last: Raw, cell: Option<Record>, before: Option<Record>, latest: Option<Raw>, key: Key)
    requires last.createdAt.Some? && Holds(cell, before, latest, key.1, model)
    ensures var now := if Writes(last, key.0, model) then Some(last) else latest;
      Holds(Apply(OpOf(PlanFor(model, last), key), cell), before, now, key.1, model)
  {
    PlanWrites(model, last);
  }

  lemma PlansAtAppend(front: seq<Raw>, last: Raw, place: string -> nat, p: nat, model: Model)
    requires AllTimed(front) && last.createdAt.Some?
    ensures AllTimed(front + [last])
    ensures PlansAt(front + [last], place, p, model)
         == PlansAt(front, place, p, model) + (if place(IncidentOf(last)) == p then [PlanFor(model, last)] else [])
  {
    assert (front + [last])[..|front|] == front;
  }

  lemma LatestWrittenAppend(front: seq<Raw>, last: Raw, id: EventId, model: Model)
    ensures LatestWritten(front + [last], id, model)
         == if Writes(last, id, model) then Some(last) else LatestWritten(front, id, model)
  {
    assert (front + [last])[..|front|] == front;
  }

  lemma LatestAppend(front: seq<Raw>, last: Raw, id: EventId)
    ensures Latest(front + [last], id) == if EventIdOf(last) == id then Some(last) else Latest(front, id)
  {
    assert (front + [last])[..|front|] == front;
  }

  /** What the partition's messages settle the cell to, next to what the latest embeddable row says. */
  ghost predicate SettledSo(rows: seq<Raw>, place: string -> nat, p: nat, model: Model, key: Key, before: Option<Record>)
    requires AllTimed(rows)
  {
    var plans := PlansAt(rows, place, p, model);
    Holds(Settled(plans, |plans|, key, before), before, LatestWritten(rows, key.0, model), key.1, model)
  }

  lemma SettledMore(front: seq<Raw>, last: Raw, place: string -> nat, p: nat, model: Model, key: Key, before: Option<Record>)
    requires AllTimed(front) && last.createdAt.Some? && SettledSo(front, place, p, model, key, before)
    requires EventIdOf(last) == key.0 ==> place(IncidentOf(last)) == p
    ensures AllTimed(front + [last]) && SettledSo(front + [last], place, p, model, key, before)
  {
    var plans := PlansAt(front, place, p, model);
    PlansAtAppend(front, last, place, p, model);
    LatestWrittenAppend(front, last, key.0, model);
    if place(IncidentOf(last)) == p {
      SettledAppend(plans, PlanFor(model, last), key, before);
      WriteHolds(model, last, Settled(plans, |plans|, key, before), before, LatestWritten(front, key.0, model), key);
    } else {
      assert plans + [] == plans;
    }
  }

  /** Handling a partition once, in order, leaves each chunk as the latest embeddable row of its event says. */
  lemma {:induction false} SettledHoldsLatest(rows: seq<Raw>, place: string -> nat, model: Model, key: Key, incident: string,
                                              before: Option<Record>)
    requires AllTimed(rows)
    requires forall i :: 0 <= i < |rows| && EventIdOf(rows[i]) == key.0 ==> IncidentOf(rows[i]) == incident
    ensures SettledSo(rows, place, place(incident), model, key, before)
    decreases |rows|
  {
    if rows == [] {
      assert Ops([], 0, 0, key) == [];
    } else {
      var front, last := rows[..|rows| - 1], rows[|rows| - 1];
      SettledHoldsLatest(front, place, model, key, incident, before);
      SettledMore(front, last, place, place(incident), model, key, before);
      assert rows == front + [last];
    }
  }

  /** Every write on a partition is for an incident placed there. */
  lemma {:induction false} PlansAtPlace(rows: seq<Raw>, place: string -> nat, p: nat, model: Model, i: nat)
    requires AllTimed(rows) && i < |PlansAt(rows, place, p, model)| && PlansAt(rows, place, p, model)[i].Write?
    ensures var plan := PlansAt(rows, place, p, model)[i];
      exists j :: 0 <= j < |rows| && place(IncidentOf(rows[j])) == p && EventIdOf(rows[j]) == plan.eventId
    decreases |rows|
  {
    var n := |rows| - 1;
    PlanWrites(model, rows[n]);
    if i < |PlansAt(rows[..n], place, p, model)| {
      PlansAtPlace(rows[..n], place, p, model, i);
      var j :| 0 <= j < n && place(IncidentOf(rows[..n][j])) == p
               && EventIdOf(rows[..n][j]) == PlansAt(rows, place, p, model)[i].eventId;
      assert rows[j] == rows[..n][j];
    }
  }

  /** Keying the topic by incident puts all updates of one event on one partition. */
  lemma KeyedByIncident(rows: seq<Raw>, place: string -> nat, parts: nat, model: Model)
    requires AllTimed(rows) && PlainIds(rows)
    ensures WellKeyed(Topic(rows, place, parts, model))
  {
    var topic: seq<seq<Plan>> := Topic(rows, place, parts, model);
    forall p, q, i, j |
        0 <= p < |topic| && 0 <= q < |topic| && 0 <= i < |topic[p]| && 0 <= j < |topic[q]|
        && topic[p][i].Write? && topic[q][j].Write? && topic[p][i].eventId == topic[q][j].eventId
      ensures p == q
    {
      PlansAtPlace(rows, place, p, model, i);
      PlansAtPlace(rows, place, q, model, j);
      var a :| 0 <= a < |rows| && place(IncidentOf(rows[a])) == p && EventIdOf(rows[a]) == topic[p][i].eventId;
      var b :| 0 <= b < |rows| && place(IncidentOf(rows[b])) == q && EventIdOf(rows[b]) == topic[q][j].eventId;
      EventIdFixesIncident(rows[a], rows[b]);
    }
  }

  lemma OwnsPlace(rows: seq<Raw>, place: string -> nat, parts: nat, model: Model, key: Key, incident: string)
    requires AllTimed(rows) && place(incident) < parts
    requires forall i :: 0 <= i < |rows| && EventIdOf(rows[i]) == key.0 ==> IncidentOf(rows[i]) == incident
    ensures Owns(Topic(rows, place, parts, model), place(incident), key)
  {
    var topic: seq<seq<Plan>> := Topic(rows, place, parts, model);
    forall q, i | 0 <= q < |topic| && q != place(incident) && 0 <= i < |topic[q]|
      ensures OpOf(topic[q][i], key).Leave?
    {
      if topic[q][i].Write? { PlansAtPlace(rows, place, q, model, i); }
    }
  }

  /**
     From the raw stream to the index: whatever the index held, whatever the poller
     re-emits, whichever updates cannot be embedded, and however often the embedder
     crashes and is sent its messages again, once the deduplicated topic is consumed
     to its end each chunk row of an event exists exactly when the event's most
     recently first-seen embeddable body has that chunk, and holds its text; rows of
     an event without such a body are as they were.
   */
  lemma IndexHoldsLatest(raw: seq<Raw>, place: string -> nat, parts: nat, model: Model,
                         s: World, run: seq<Step>, r: Raw, k: nat)
    requires PlainIds(raw) && r in Normalized(raw) && AllTimed(Normalized(raw))
    requires place(IncidentOf(r)) < parts
    requires Init(s) && s.topic == Topic(Normalized(raw), place, parts, model)
    requires Drained(Exec(s, run))
    ensures var key := (EventIdOf(r), k);
      Holds(Cell(Exec(s, run).table, key), Cell(s.table, key), LatestWritten(Normalized(raw), EventIdOf(r), model), k, model)
  {
    var rows, key := Normalized(raw), (EventIdOf(r), k);
    NormalizedPlain(raw);
    forall i | 0 <= i < |rows| && EventIdOf(rows[i]) == key.0 ensures IncidentOf(rows[i]) == IncidentOf(r) {
      EventIdFixesIncident(rows[i], r);
    }
    OwnsPlace(rows, place, parts, model, key, IncidentOf(r));
    RowSettled(s, run, place(IncidentOf(r)), key);
    SettledHoldsLatest(rows, place, model, key, IncidentOf(r), Cell(s.table, key));
  }

  lemma NormalizedPlain(raw: seq<Raw>)
    requires PlainIds(raw)
    ensures PlainIds(Normalized(raw)) && AllTimed(Normalized(raw))
  {
    forall j | 0 <= j < |Normalized(raw)|
      ensures PlainId(Normalized(raw)[j].updateId) && Normalized(raw)[j].createdAt.Some?
    {
      NormalizedTimed(raw, j);
    }
  }

  /**
     When the index follows the provider: after one more arrival the latest emitted
     row of its event is the arriving body if and only if that body was never seen
     before, or is already the one emitted last.
   */
  lemma LatestFollowsExactly(rows: seq<Raw>, x: Raw)
    requires KeyOf(x).Some?
    ensures var latest, was := Latest(Normalized(rows + [x]), EventIdOf(x)), Latest(Normalized(rows), EventIdOf(x));
      (latest.Some? && KeyOf(latest.value) == KeyOf(x))
      <==> KeyOf(x).value !in KeysOf(rows, KeyOf) || (was.Some? && KeyOf(was.value) == KeyOf(x))
  {
    KeptAppendOne(rows, x, KeyOf);
    var none: seq<Raw> := [];
    assert Normalized(rows) + none == Normalized(rows);
    LatestAppend(Normalized(rows), x, EventIdOf(x));
  }

  /** An edit that is undone is not seen as new, so the index stays with the edit. */
  lemma UndoneEditIsNotReEmitted(before: seq<Raw>, a: Raw, between: seq<Raw>, b: Raw, again: Raw)
    requires KeyOf(a).Some? && KeyOf(b).Some? && KeyOf(again) == KeyOf(a)
    requires EventIdOf(a) == EventIdOf(b) && KeyOf(b).value !in KeysOf(before + [a] + between, KeyOf)
    ensures var rows := before + [a] + between + [b];
      Normalized(rows + [again]) == Normalized(rows)
      && Latest(Normalized(rows + [again]), EventIdOf(a)) == Some(b)
  {
    var rows := before + [a] + between + [b];
    assert rows[|before|] == a;
    ReEmissionIsAbsorbed(rows, [again]);
    KeptAppendOne(before + [a] + between, b, KeyOf);
  }

  // ----- lifecycle

  datatype Transition = Opened | InProgress | Resolved

  function Lower(s: string): string {
    seq(|s|, i requires 0 <= i < |s| => if 'A' <= s[i] <= 'Z' then s[i] - 'A' + 'a' else s[i])
  }

  /** The status words the lifecycle knows; others are filtered out. */
  function TransitionOf(status: string): Option<Transition> {
    var s := Lower(status);
    if s in {"resolved", "completed", "complete"} then Some(Resolved)
    else if s == "monitoring" then Some(InProgress)
    else if s in {"investigating", "identified"} then Some(Opened)
    else None
  }

  /** Only updates less than a day old when they arrive count. */
  function LifecycleKey(r: Raw): Option<(string, string, Transition)> {
    if r.createdAt.None? || TransitionOf(r.status).None? || r.createdAt.value <= r.procTime - DAY then None
    else Some((r.provider, r.incidentId, TransitionOf(r.status).value))
  }

  function Lifecycle(rows: seq<Raw>): seq<Raw> {
    Kept(rows, LifecycleKey)
  }

  /** The row as a message of the topic `incident.lifecycle`. */
  datatype Announcement = Announcement(incident: string, service: string, transition: Transition, ts: Time, title: string)

  function AnnouncementOf(r: Raw): Announcement
    requires LifecycleKey(r).Some?
  {
    Announcement(IncidentOf(r), r.provider, LifecycleKey(r).value.2, r.createdAt.value, r.name)
  }

  function Announcements(rows: seq<Raw>): (out: seq<Announcement>)
    ensures |out| == |Lifecycle(rows)|
  {
    seq(|Lifecycle(rows)|, j requires 0 <= j < |Lifecycle(rows)| => assert LifecycleKey(Lifecycle(rows)[j]).Some? by {
          LifecycleRow(rows, j);
        }
        AnnouncementOf(Lifecycle(rows)[j]))
  }

  lemma LifecycleRow(rows: seq<Raw>, j: nat)
    requires j < |Lifecycle(rows)|
    ensures LifecycleKey(Lifecycle(rows)[j]).Some?
  {
    var i := KeptIsFirst(rows, LifecycleKey, j);
  }

  /** The same letter, in either case. */
  predicate SameLetter(c: char, small: char) {
    c == small || ('A' <= c <= 'Z' && c as int + 32 == small as int)
  }

  /** The status is the word, in whatever case it is written. */
  predicate Says(status: string, word: string) {
    |status| == |word| && forall i :: 0 <= i < |word| ==> SameLetter(status[i], word[i])
  }

  /** The status words of a transition. */
  predicate Tells(status: string, t: Transition) {
    match t
    case Opened => Says(status, "investigating") || Says(status, "identified")
    case InProgress => Says(status, "monitoring")
    case Resolved => Says(status, "resolved") || Says(status, "completed") || Says(status, "complete")
  }

  /** An update that tells of the transition and was less than a day old when it arrived. */
  predicate Fresh(r: Raw, t: Transition) {
    Tells(r.status, t) && r.createdAt.Some? && r.procTime - r.createdAt.value < 24 * HOUR
  }

  predicate Small(word: string) {
    forall i :: 0 <= i < |word| ==> 'a' <= word[i] <= 'z'
  }

  lemma LetterLowered(c: char, small: char)
    requires 'a' <= small <= 'z'
    ensures (if 'A' <= c <= 'Z' then c - 'A' + 'a' else c) == small <==> SameLetter(c, small)
  {
  }

  lemma LoweredSays(status: string, word: string)
    requires Small(word)
    ensures Lower(status) == word <==> Says(status, word)
  {
    if |status| == |word| {
      forall i | 0 <= i < |word| ensures Lower(status)[i] == word[i] <==> SameLetter(status[i], word[i]) {
        LetterLowered(status[i], word[i]);
      }
    }
  }

  /** The words are the status page's own. */
  lemma TransitionTold(status: string, t: Transition)
    ensures TransitionOf(status) == Some(t) <==> Tells(status, t)
  {
    LoweredSays(status, "resolved");
    LoweredSays(status, "completed");
    LoweredSays(status, "complete");
    LoweredSays(status, "monitoring");
    LoweredSays(status, "investigating");
    LoweredSays(status, "identified");
  }

  predicate IsAnnounced(a: Announcement, provider: string, incident: string, t: Transition) {
    a.service == provider && a.incident == provider + ":" + incident && a.transition == t
  }

  /**
     How often an incident is announced as opened, in progress or resolved: once if an
     update of it with one of the transition's status words, less than a day old, ever
     arrived, and otherwise not at all.
   */
  lemma AnnouncedOnce(rows: seq<Raw>, provider: string, incident: string, t: Transition)
    ensures CountWhere(Announcements(rows), a => IsAnnounced(a, provider, incident, t))
         == if exists r :: r in rows && r.provider == provider && r.incidentId == incident && Fresh(r, t) then 1 else 0
  {
    var p := (r: Raw) => r.provider == provider && r.incidentId == incident && Fresh(r, t);
    forall r | r in rows ensures p(r) <==> LifecycleKey(r) == Some((provider, incident, t)) {
      TransitionTold(r.status, t);
    }
    KeptOnceWhere(rows, LifecycleKey, (provider, incident, t), p);
    forall j | 0 <= j < |Lifecycle(rows)|
      ensures IsAnnounced(Announcements(rows)[j], provider, incident, t) <==> p(Lifecycle(rows)[j])
    {
      LifecycleRow(rows, j);
      OwnIncident(Lifecycle(rows)[j], provider, incident);
      TransitionTold(Lifecycle(rows)[j].status, t);
    }
    CountSame(Announcements(rows), Lifecycle(rows), a => IsAnnounced(a, provider, incident, t), p);
  }

  lemma OwnIncident(r: Raw, provider: string, incident: string)
    ensures r.provider == provider && IncidentOf(r) == provider + ":" + incident <==> r.provider == provider && r.incidentId == incident
  {
    assert IncidentOf(r)[|r.provider| + 1..] == r.incidentId;
    assert (provider + ":" + incident)[|provider| + 1..] == incident;
  }

  /**
     Every announcement is the first update of its incident that tells of its transition
     and was fresh, with that update's time and title; nothing that arrives later changes it.
   */
  lemma FirstAnnouncementStands(rows: seq<Raw>, later: seq<Raw>, j: nat) returns (i: nat)
    requires j < |Announcements(rows)|
    ensures j < |Announcements(rows + later)| && Announcements(rows + later)[j] == Announcements(rows)[j]
    ensures i < |rows| && Fresh(rows[i], Announcements(rows)[j].transition)
    ensures var r, a := rows[i], Announcements(rows)[j];
      a.incident == r.provider + ":" + r.incidentId && a.service == r.provider && Some(a.ts) == r.createdAt && a.title == r.name
    ensures forall h :: 0 <= h < i && rows[h].provider == rows[i].provider && rows[h].incidentId == rows[i].incidentId ==>
      !Fresh(rows[h], Announcements(rows)[j].transition)
  {
    KeptAppend(rows, later, LifecycleKey);
    i := KeptIsFirst(rows, LifecycleKey, j);
    var t := Announcements(rows)[j].transition;
    TransitionTold(rows[i].status, t);
    forall h | 0 <= h < i && rows[h].provider == rows[i].provider && rows[h].incidentId == rows[i].incidentId
      ensures !Fresh(rows[h], t)
    {
      TransitionTold(rows[h].status, t);
    }
  }
}
