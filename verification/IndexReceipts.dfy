/**
 What a completion receipt means, and that indexed text reads back.  A receipt
 is stamped only when the index holds exactly the chunks of the message being
 completed; its first stamp never moves, and an event whose rows predate the
 receipts never gets one.
 */
module IndexReceipts {
  import opened Basics
  import opened Embedder
  import opened EffectivelyOnce
  import Chunking
  import ChunkingTheorems

  /** The index holds the message's chunks with its contents, and no others of its event. */
  ghost predicate Written(table: Table, id: EventId, records: seq<Record>) {
    && (forall i: nat :: i < |records| ==> (id, i) in table && table[(id, i)].content == records[i].content)
    && (forall i: nat :: i >= |records| ==> (id, i) !in table)
  }

  ghost predicate ReceiptInv(s: World, start: Table) {
    && (forall id :: id in s.receipts ==> (s.receipts[id].observed <==> !Indexed(start, id)))
    && (forall id :: id in s.receipts && s.receipts[id].first.Some? ==> s.receipts[id].observed)
    && (forall key: Key :: key.0 !in s.receipts ==> Cell(s.table, key) == Cell(start, key))
    && (forall p :: 0 <= p < |s.workers| && s.workers[p].phase.Writing? ==> Opened(s, p))
  }

  /** A writing worker past its first statement has a receipt open for its event. */
  ghost predicate Opened(s: World, p: nat)
    requires p < |s.workers|
  {
    && p < |s.topic| && s.workers[p].pos < |s.topic[p]| && s.topic[p][s.workers[p].pos].Write?
    && (s.workers[p].phase.Writing? && !s.workers[p].phase.stage.Registering? ==>
          s.topic[p][s.workers[p].pos].eventId in s.receipts)
  }

  lemma SameRows(table: Table, start: Table, id: EventId)
    requires forall key: Key :: key.0 == id ==> Cell(table, key) == Cell(start, key)
    ensures Indexed(table, id) <==> Indexed(start, id)
  {
    if Indexed(table, id) {
      var key :| key in table && key.0 == id;
      assert Cell(table, key) == Cell(start, key);
      assert key in start;
    }
    if Indexed(start, id) {
      var key :| key in start && key.0 == id;
      assert Cell(table, key) == Cell(start, key);
      assert key in table;
    }
  }

  /** One worker moved on, and keeps a receipt open if it is writing. */
  lemma StillOpened(s: World, t: World, p: nat)
    requires Shaped(s) && p < |s.workers| == |t.workers| && t.topic == s.topic && s.receipts.Keys <= t.receipts.Keys
    requires t.workers == s.workers[p := t.workers[p]]
    requires forall q :: 0 <= q < |s.workers| && s.workers[q].phase.Writing? ==> Opened(s, q)
    requires t.workers[p].phase.Writing? ==> Opened(t, p)
    ensures forall q :: 0 <= q < |t.workers| && t.workers[q].phase.Writing? ==> Opened(t, q)
  {
    forall q | 0 <= q < |t.workers| && t.workers[q].phase.Writing?
      ensures Opened(t, q)
    {
      if q != p { assert Opened(s, q); }
    }
  }

  lemma RegisterReceipts(s: World, id: EventId, start: Table)
    requires ReceiptInv(s, start)
    ensures var receipts := Register(s.receipts, id, s.table);
      && (forall i :: i in receipts ==> (receipts[i].observed <==> !Indexed(start, i)))
      && (forall i :: i in receipts && receipts[i].first.Some? ==> receipts[i].observed)
  {
    if id !in s.receipts { SameRows(s.table, start, id); }
  }

  lemma StatementReceipts(s: World, p: nat, start: Table)
    requires Shaped(s) && p < |s.workers| && ReceiptInv(s, start) && s.workers[p].phase.Writing?
    ensures ReceiptInv(ActNext(s, p, Statement), start)
  {
    assert Opened(s, p);
    var wk, plan := s.workers[p], s.topic[p][s.workers[p].pos];
    var t := StatementNext(s, p, wk.phase.stage, plan.eventId, plan.records);
    RegisterReceipts(s, plan.eventId, start);
    StillOpened(s, t, p);
  }

  /** Any other step of a worker leaves receipts and table alone. */
  lemma QuietReceipts(s: World, p: nat, action: Action, start: Table)
    requires Shaped(s) && p < |s.workers| && ReceiptInv(s, start)
    requires !(s.workers[p].phase.Writing? && action.Statement?)
    ensures ReceiptInv(ActNext(s, p, action), start)
  {
    StillOpened(s, ActNext(s, p, action), p);
  }

  lemma ReceiptStep(s: World, step: Step, start: Table)
    requires Shaped(s) && ReceiptInv(s, start)
    ensures ReceiptInv(Next(s, step), start)
  {
    if step.Act? && step.p < |s.workers| {
      if s.workers[step.p].phase.Writing? && step.action.Statement? {
        StatementReceipts(s, step.p, start);
      } else {
        QuietReceipts(s, step.p, step.action, start);
      }
    } else {
      var t := Next(s, step);
      forall q | 0 <= q < |t.workers| && t.workers[q].phase.Writing?
        ensures Opened(t, q)
      {
        assert Opened(s, q);
      }
    }
  }

  lemma {:induction false} ReceiptRun(s: World, run: seq<Step>, start: Table)
    requires TableInv(s, start) && ReceiptInv(s, start)
    ensures ReceiptInv(Exec(s, run), start)
    decreases |run|
  {
    if run != [] {
      ReceiptStep(s, run[0], start);
      TableStep(s, run[0], start);
      ReceiptRun(Next(s, run[0]), run[1..], start);
    }
  }

  /** The first stamp says the event was unknown to the index before this run; rows without receipts never get one. */
  lemma FirstStampOnlyForNewEvents(s: World, run: seq<Step>, id: EventId)
    requires Init(s) && id in Exec(s, run).receipts && Exec(s, run).receipts[id].first.Some?
    ensures !Indexed(s.table, id)
  {
    InitTable(s);
    ReceiptRun(s, run, s.table);
  }

  lemma FrozenStep(s: World, step: Step, id: EventId)
    requires id in s.receipts
    ensures id in Next(s, step).receipts
    ensures s.receipts[id].first.Some? ==> Next(s, step).receipts[id].first == s.receipts[id].first || !s.receipts[id].observed
    ensures Next(s, step).receipts[id].observed == s.receipts[id].observed
  {
  }

  /** Replays never move the first stamp. */
  lemma {:induction false} FirstStampFrozen(s: World, run: seq<Step>, start: Table, id: EventId)
    requires TableInv(s, start) && ReceiptInv(s, start)
    requires id in s.receipts && s.receipts[id].first.Some?
    ensures id in Exec(s, run).receipts && Exec(s, run).receipts[id].first == s.receipts[id].first
    decreases |run|
  {
    if run != [] {
      FrozenStep(s, run[0], id);
      ReceiptStep(s, run[0], start);
      TableStep(s, run[0], start);
      FirstStampFrozen(Next(s, run[0]), run[1..], start, id);
    }
  }

  /** At its last statement the worker's message is fully in the index. */
  lemma CompletingIsWritten(s: World, start: Table, p: nat)
    requires TableInv(s, start) && WellKeyed(s.topic) && p < |s.workers| && s.workers[p].phase == Writing(Completing)
    ensures s.workers[p].pos < |s.topic[p]| && s.topic[p][s.workers[p].pos].Write?
    ensures var plan := s.topic[p][s.workers[p].pos]; Written(s.table, plan.eventId, plan.records)
  {
    var plan := s.topic[p][s.workers[p].pos];
    forall i: nat
      ensures var key := (plan.eventId, i); Apply(OpOf(plan, key), Cell(s.table, key)) == Cell(s.table, key)
    {
      var key := (plan.eventId, i);
      assert Owns(s.topic, p, key);
      assert RowInv(s, start, p, key);
    }
    forall i: nat | i < |plan.records|
      ensures (plan.eventId, i) in s.table && s.table[(plan.eventId, i)].content == plan.records[i].content
    {
      var key := (plan.eventId, i);
      assert OpOf(plan, key) == Put(plan.records[i]);
      assert Apply(OpOf(plan, key), Cell(s.table, key)) == Cell(s.table, key);
    }
    forall i: nat | i >= |plan.records|
      ensures (plan.eventId, i) !in s.table
    {
      var key := (plan.eventId, i);
      assert OpOf(plan, key) == Drop;
      assert Apply(OpOf(plan, key), Cell(s.table, key)) == Cell(s.table, key);
    }
  }

  /** A stamp is only ever given when all chunks of a message of that event, and no others, are in the index. */
  lemma StampAfterChunks(s: World, run: seq<Step>, step: Step, id: EventId)
    requires Init(s) && WellKeyed(s.topic)
    requires var t, t' := Exec(s, run), Next(Exec(s, run), step);
      id in t'.receipts && t'.receipts[id].last.Some? && (id in t.receipts ==> t'.receipts[id] != t.receipts[id])
    ensures var t := Exec(s, run);
      step.Act? && step.p < |t.workers| == |t.topic| && t.workers[step.p].pos < |t.topic[step.p]|
      && var plan := t.topic[step.p][t.workers[step.p].pos];
      plan.Write? && plan.eventId == id && Written(t.table, id, plan.records)
  {
    InitTable(s);
    TableRun(s, run, s.table);
    var t := Exec(s, run);
    assert step.Act? && step.p < |t.workers|;
    assert t.workers[step.p].phase == Writing(Completing);
    CompletingIsWritten(t, s.table, step.p);
  }

  // ----- what a drained run has stamped

  /** What a message's receipt says once it is completed: when last, and when first unless the index knew the event before. */
  predicate Completed(r: Receipt, now: Time) {
    && r.last.Some? && r.last.value <= now && (r.observed <==> r.first.Some?)
    && (r.first.Some? ==> r.first.value <= r.last.value)
  }

  predicate InTime(r: Receipt, now: Time) {
    (r.last.None? && r.first.None?) || Completed(r, now)
  }

  /** Every message that a worker or a commit has got past is completed. */
  ghost predicate StampInv(s: World) {
    && Shaped(s) && (forall id :: id in s.receipts ==> InTime(s.receipts[id], s.now))
    && forall p, i | 0 <= p < |s.topic| && 0 <= i < |s.topic[p]| && s.topic[p][i].Write? ::
         i < s.workers[p].pos || i < s.committed[p] ==> Past(s, s.topic[p][i].eventId)
  }

  predicate Past(s: World, id: EventId) {
    id in s.receipts && s.receipts[id].last.Some?
  }

  /** A step moves a receipt by opening it for an event, or by stamping it with the clock. */
  lemma StampIsTheClock(s: World, step: Step, id: EventId)
    ensures var t := Next(s, step);
      && (id !in s.receipts && id in t.receipts ==> t.receipts[id] == Receipt(!Indexed(s.table, id), None, None))
      && (id in s.receipts ==> id in t.receipts)
      && (id in s.receipts && t.receipts[id] != s.receipts[id] ==>
            var r, r' := s.receipts[id], t.receipts[id];
            r'.observed == r.observed && r'.last == Some(s.now)
            && r'.first == if !r.observed then None else if r.first.Some? then r.first else Some(s.now))
  {
  }

  lemma ReceiptsInTime(s: World, step: Step)
    requires forall id :: id in s.receipts ==> InTime(s.receipts[id], s.now)
    ensures forall id :: id in Next(s, step).receipts ==> InTime(Next(s, step).receipts[id], Next(s, step).now)
  {
    forall id | id in Next(s, step).receipts ensures InTime(Next(s, step).receipts[id], Next(s, step).now) {
      StampIsTheClock(s, step, id);
    }
  }

  /** No receipt loses its stamp. */
  lemma PastStays(s: World, step: Step, id: EventId)
    requires Past(s, id)
    ensures Past(Next(s, step), id)
  {
    StampIsTheClock(s, step, id);
  }

  /** How far a step takes a partition: past a message only by completing it. */
  lemma MovedPast(s: World, step: Step, p: nat, i: nat)
    requires Shaped(s) && p < |s.workers| && i < |s.topic[p]| && s.topic[p][i].Write?
    requires s.workers[p].phase.Writing? ==> Opened(s, p)
    ensures var t := Next(s, step);
      && Shaped(t) && |t.workers| == |s.workers| && t.topic == s.topic
      && (i < t.workers[p].pos || i < t.committed[p] ==>
            i < s.workers[p].pos || i < s.committed[p] || Past(t, s.topic[p][i].eventId))
  {
  }

  lemma StampStep(s: World, step: Step)
    requires StampInv(s) && forall p :: 0 <= p < |s.workers| && s.workers[p].phase.Writing? ==> Opened(s, p)
    ensures StampInv(Next(s, step))
  {
    var t := Next(s, step);
    ReceiptsInTime(s, step);
    forall p, i | 0 <= p < |t.topic| && 0 <= i < |t.topic[p]| && t.topic[p][i].Write?
        && (i < t.workers[p].pos || i < t.committed[p])
      ensures Past(t, t.topic[p][i].eventId)
    {
      WorkersStay(s, step);
      PassedStays(s, step, p, i);
    }
    WorkersStay(s, step);
  }

  lemma WorkersStay(s: World, step: Step)
    requires Shaped(s)
    ensures Shaped(Next(s, step)) && |Next(s, step).workers| == |s.workers| && Next(s, step).topic == s.topic
  {
  }

  lemma PassedStays(s: World, step: Step, p: nat, i: nat)
    requires StampInv(s) && p < |s.workers| && i < |s.topic[p]| && s.topic[p][i].Write?
    requires s.workers[p].phase.Writing? ==> Opened(s, p)
    ensures var t := Next(s, step);
      p < |t.workers| == |t.committed| && (i < t.workers[p].pos || i < t.committed[p] ==> Past(t, s.topic[p][i].eventId))
  {
    MovedPast(s, step, p, i);
    if i < s.workers[p].pos || i < s.committed[p] { PastStays(s, step, s.topic[p][i].eventId); }
  }

  lemma {:induction false} StampRun(s: World, run: seq<Step>, start: Table)
    requires TableInv(s, start) && ReceiptInv(s, start) && StampInv(s)
    ensures StampInv(Exec(s, run))
    decreases |run|
  {
    if run != [] {
      StampStep(s, run[0]);
      ReceiptStep(s, run[0], start);
      TableStep(s, run[0], start);
      StampRun(Next(s, run[0]), run[1..], start);
    }
  }

  /**
     After every run that consumes the topic each event that was written has its receipt
     completed; it has a first stamp if and only if the index did not hold the event
     before the run.
   */
  lemma DrainedIsStamped(s: World, run: seq<Step>, p: nat, i: nat)
    requires Init(s) && Drained(Exec(s, run)) && p < |s.topic| && i < |s.topic[p]| && s.topic[p][i].Write?
    ensures var t, id := Exec(s, run), s.topic[p][i].eventId;
      id in t.receipts && Completed(t.receipts[id], t.now) && (t.receipts[id].first.Some? <==> !Indexed(s.table, id))
  {
    InitTable(s);
    TableRun(s, run, s.table);
    ReceiptRun(s, run, s.table);
    StampRun(s, run, s.table);
    var t, id := Exec(s, run), s.topic[p][i].eventId;
    assert t.topic[p][i].Write? && i < t.workers[p].pos;
    assert Past(t, id) && InTime(t.receipts[id], t.now);
  }

  /** `string_agg(text, ' ' ORDER BY chunk_index)` over the event's rows with an index below `n`. */
  function Texts(table: Table, id: EventId, n: nat): seq<string> {
    if n == 0 then []
    else Texts(table, id, n - 1) + (if (id, n - 1) in table then [table[(id, n - 1)].content.text] else [])
  }

  function StringAgg(table: Table, id: EventId, n: nat): string {
    Chunking.Join(Texts(table, id, n))
  }

  lemma {:induction false} TextsOfWritten(table: Table, id: EventId, records: seq<Record>, n: nat)
    requires Written(table, id, records)
    ensures var m := if n < |records| then n else |records|;
      Texts(table, id, n) == seq(m, i requires 0 <= i < m => records[i].content.text)
  {
    if n > 0 {
      TextsOfWritten(table, id, records, n - 1);
      if n - 1 >= |records| { assert (id, n - 1) !in table; }
    }
  }

  /** Once its rows are in, reassembling an event's chunks gives its whitespace-normalised text. */
  lemma IndexedTextReadsBack(model: Model, ev: Event, table: Table, n: nat)
    requires var plan := PlanOf(model, Parsed(ev));
      plan.Write? && Written(table, ev.eventId, plan.records) && n >= |plan.records|
    ensures StringAgg(table, ev.eventId, n) == Chunking.Normalise(ev.text)
  {
    var plan := PlanOf(model, Parsed(ev));
    var chunks := Chunking.ChunkText(ev.text, Chunking.DEFAULT_MAX_CHARS);
    TextsOfWritten(table, ev.eventId, plan.records, n);
    assert Texts(table, ev.eventId, n) == chunks;
    ChunkingTheorems.ChunksReadBack(ev.text, Chunking.DEFAULT_MAX_CHARS);
  }
}
