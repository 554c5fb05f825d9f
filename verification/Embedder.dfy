/**
 freshet/pipeline/embedder.py: what one message asks of the index, and the
 handler, the batched commits and their crashes as a state machine.  One step is
 one SQL statement of one partition's consumer, an offset commit, or a crash;
 the columns of a row other than `indexed_at` are kept.
 */
module Embedder {
  import opened Basics
  import Chunking
  import Keys

  type EventId = string
  type Vector = seq<real>

  const EMBEDDING_DIM: nat := 768

  datatype Event = Event(eventId: EventId, incidentId: Option<string>, service: string, source: string,
                         severity: Option<string>, kind: string, ts: Time, text: string, title: Option<string>)

  /** A message of the topic: an event, or a value that does not parse. */
  datatype Message = Unparseable | Parsed(ev: Event)

  /** The embedding model: deterministic, None where it raises on every attempt. */
  datatype Model = Model(name: Option<string>, encode: seq<string> -> Option<seq<Vector>>)

  /** The columns an upsert writes only on insert, and those it rewrites on conflict. */
  datatype Fixed = Fixed(incidentId: Option<string>, service: string, ts: Time, source: string)
  datatype Content = Content(text: string, title: Option<string>, severity: Option<string>, kind: string,
                             embedding: Vector, model: Option<string>)
  datatype Record = Record(fixed: Fixed, content: Content)

  /** A row is addressed by its event and chunk index, which its chunk_id spells out. */
  type Key = (EventId, nat)
  type Table = map<Key, Record>

  function ChunkId(key: Key): string {
    "chk_" + Keys.Key(key.0, '_', key.1)
  }

  /** `chunk_id` is the primary key, and addresses exactly one chunk of one event. */
  lemma ChunkIdInjective(a: Key, b: Key)
    requires ChunkId(a) == ChunkId(b)
    ensures a == b
  {
    assert ChunkId(a)[4..] == Keys.Key(a.0, '_', a.1);
    assert ChunkId(b)[4..] == Keys.Key(b.0, '_', b.1);
    Keys.KeyInjective(a.0, a.1, b.0, b.1, '_');
  }

  const MAX_TITLE_LEN: nat := 120

  function Strip(s: string): string
    decreases |s|
  {
    if s == "" then ""
    else if Chunking.IsSpace(s[0]) then Strip(s[1..])
    else if Chunking.IsSpace(s[|s| - 1]) then Strip(s[..|s| - 1])
    else s
  }

  /** Position of the first ": ", or |text|. */
  function Colon(text: string, from: nat): (i: nat)
    requires from <= |text|
    ensures from <= i <= |text| && (i < |text| ==> i + 1 < |text| && text[i] == ':' && text[i + 1] == ' ')
    decreases |text| - from
  {
    if from + 1 >= |text| then |text|
    else if text[from] == ':' && text[from + 1] == ' ' then from
    else Colon(text, from + 1)
  }

  function TitleOf(text: string): Option<string> {
    var i := Colon(text, 0);
    if i == |text| || Strip(text[i + 2..]) == "" then None
    else
      var head := Strip(text[..i]);
      if 0 < |head| <= MAX_TITLE_LEN then Some(head) else None
  }

  function TitleFor(ev: Event): Option<string> {
    if ev.title.Some? && ev.title.value != "" then ev.title else TitleOf(ev.text)
  }

  function FixedOf(ev: Event): Fixed {
    Fixed(ev.incidentId, ev.service, ev.ts, ev.source)
  }

  function ContentOf(ev: Event, chunk: string, vector: Vector, model: Model): Content {
    Content(chunk, TitleFor(ev), ev.severity, ev.kind, vector, model.name)
  }

  /**
   What handling a message comes to: a dead letter, nothing to index, the rows to
   write, or an error that ends the process (a wrong number or shape of vectors).
   */
  datatype Plan =
    | DeadLetter(systemic: bool)
    | Blank
    | Write(eventId: EventId, records: seq<Record>)
    | Fatal

  function PlanOf(model: Model, m: Message): Plan {
    if m.Unparseable? then DeadLetter(false)
    else
      var ev := m.ev;
      var chunks := Chunking.ChunkText(ev.text, Chunking.DEFAULT_MAX_CHARS);
      if chunks == [] then Blank
      else
        var vectors := model.encode(chunks);
        if vectors.None? then DeadLetter(true)
        else if |vectors.value| != |chunks| || exists v :: v in vectors.value && |v| != EMBEDDING_DIM then Fatal
        else Write(ev.eventId, seq(|chunks|, i requires 0 <= i < |chunks| =>
                                     Record(FixedOf(ev), ContentOf(ev, chunks[i], vectors.value[i], model))))
  }

  /** The upsert: `ts`, `service`, `incident_id` and `source` keep their first value. */
  function Upsert(table: Table, key: Key, r: Record): Table {
    table[key := if key in table then table[key].(content := r.content) else r]
  }

  function DeleteOrphans(table: Table, id: EventId, n: nat): Table {
    map key | key in table && !(key.0 == id && key.1 >= n) :: table[key]
  }

  /** The completion receipt of an event. */
  datatype Receipt = Receipt(observed: bool, first: Option<Time>, last: Option<Time>)

  predicate Indexed(table: Table, id: EventId) {
    exists key :: key in table && key.0 == id
  }

  function Register(receipts: map<EventId, Receipt>, id: EventId, table: Table): map<EventId, Receipt> {
    if id in receipts then receipts else receipts[id := Receipt(!Indexed(table, id), None, None)]
  }

  function Complete(receipts: map<EventId, Receipt>, id: EventId, now: Time): map<EventId, Receipt> {
    if id !in receipts then receipts
    else
      var r := receipts[id];
      receipts[id := r.(first := if r.observed then Coalesce(r.first, Some(now)) else None, last := Some(now))]
  }

  /** Where the handler stands inside a message it is writing. */
  datatype Stage = Registering | Upserting(k: nat) | Completing

  datatype Phase = Idle | Writing(stage: Stage)

  datatype Worker = Worker(pos: nat, phase: Phase)

  /**
   One consumer per partition.  `begun` is history: how far into the partition
   any attempt has ever got.
   */
  datatype World = World(
    now: Time,
    table: Table,
    receipts: map<EventId, Receipt>,
    topic: seq<seq<Plan>>,
    workers: seq<Worker>,
    committed: seq<nat>,
    begun: seq<nat>)

  datatype Action = Poll | Statement | Commit | Crash

  datatype Step = Tick(d: nat) | Act(p: nat, action: Action)

  function Max(a: nat, b: nat): nat {
    if a < b then b else a
  }

  function SetWorker(s: World, p: nat, wk: Worker): World
    requires p < |s.workers|
  {
    s.(workers := s.workers[p := wk])
  }

  predicate Shaped(s: World) {
    |s.topic| == |s.workers| == |s.committed| == |s.begun|
  }

  function PollNext(s: World, p: nat): World
    requires Shaped(s) && p < |s.workers|
  {
    var wk := s.workers[p];
    if wk.pos >= |s.topic[p]| then s
    else
      var t := s.(begun := s.begun[p := Max(s.begun[p], wk.pos + 1)]);
      match s.topic[p][wk.pos]
      case Write(_, _) => SetWorker(t, p, wk.(phase := Writing(Registering)))
      case Fatal => s
      case _ => SetWorker(t, p, Worker(wk.pos + 1, Idle))
  }

  function StatementNext(s: World, p: nat, stage: Stage, id: EventId, records: seq<Record>): World
    requires Shaped(s) && p < |s.workers|
  {
    var wk := s.workers[p];
    match stage
    case Registering =>
      SetWorker(s.(receipts := Register(s.receipts, id, s.table)), p, wk.(phase := Writing(Upserting(0))))
    case Upserting(k) =>
      if k < |records| then
        SetWorker(s.(table := Upsert(s.table, (id, k), records[k])), p, wk.(phase := Writing(Upserting(k + 1))))
      else
        SetWorker(s.(table := DeleteOrphans(s.table, id, |records|)), p, wk.(phase := Writing(Completing)))
    case Completing =>
      SetWorker(s.(receipts := Complete(s.receipts, id, s.now)), p, Worker(wk.pos + 1, Idle))
  }

  function ActNext(s: World, p: nat, action: Action): World
    requires Shaped(s) && p < |s.workers|
  {
    var wk := s.workers[p];
    if action.Crash? then SetWorker(s, p, Worker(s.committed[p], Idle))
    else if wk.phase.Idle? then
      if action.Poll? then PollNext(s, p)
      else if action.Commit? then s.(committed := s.committed[p := wk.pos])
      else s
    else if action.Statement? && wk.pos < |s.topic[p]| && s.topic[p][wk.pos].Write? then
      StatementNext(s, p, wk.phase.stage, s.topic[p][wk.pos].eventId, s.topic[p][wk.pos].records)
    else s
  }

  function Next(s: World, step: Step): World {
    match step
    case Tick(d) => s.(now := s.now + d)
    case Act(p, action) => if Shaped(s) && p < |s.workers| then ActNext(s, p, action) else s
  }

  function Exec(s: World, run: seq<Step>): World
    decreases |run|
  {
    if run == [] then s else Exec(Next(s, run[0]), run[1..])
  }

  lemma {:induction false} ExecAppend(s: World, a: seq<Step>, b: seq<Step>)
    ensures Exec(s, a + b) == Exec(Exec(s, a), b)
    decreases |a|
  {
    if a == [] {
      assert a + b == b;
    } else {
      assert (a + b)[0] == a[0] && (a + b)[1..] == a[1..] + b;
      ExecAppend(Next(s, a[0]), a[1..], b);
    }
  }

  /** Nothing consumed yet; the index may already hold rows, without receipts. */
  ghost predicate Init(s: World) {
    && Shaped(s) && s.receipts == map[]
    && (forall p :: 0 <= p < |s.workers| ==> s.workers[p] == Worker(0, Idle) && s.committed[p] == 0 && s.begun[p] == 0)
  }

  /** Updates of one event all travel on one partition, because the key is the incident. */
  ghost predicate WellKeyed(topic: seq<seq<Plan>>) {
    forall p, q, i, j |
        0 <= p < |topic| && 0 <= q < |topic| && 0 <= i < |topic[p]| && 0 <= j < |topic[q]|
        && topic[p][i].Write? && topic[q][j].Write? && topic[p][i].eventId == topic[q][j].eventId ::
      p == q
  }

  /** Every partition is consumed to its end. */
  ghost predicate Drained(s: World) {
    Shaped(s) && forall p :: 0 <= p < |s.workers| ==> s.workers[p] == Worker(|s.topic[p]|, Idle)
  }
}
