/**
 What the columns of the index say: for every kind of message the plan it comes to,
 written out column by column, and for every run which message each column of each
 row was taken from.  Nothing here refers to how a plan is made.
 */
module IndexContents {
  import opened Basics
  import opened Embedder
  import opened EffectivelyOnce
  import Chunking
  import ChunkingTheorems
  import IndexReceipts

  // ----- the plan of a message

  /** The columns that are written once: the event's own. */
  predicate FixedSays(r: Record, ev: Event) {
    && r.fixed.incidentId == ev.incidentId && r.fixed.service == ev.service
    && r.fixed.ts == ev.ts && r.fixed.source == ev.source
  }

  /** The columns that every write sets: the chunk, its own vector, the model's name and the rest of the event. */
  predicate ContentSays(r: Record, ev: Event, chunk: string, vector: Vector, name: Option<string>) {
    && r.content.text == chunk && r.content.embedding == vector && r.content.model == name
    && r.content.severity == ev.severity && r.content.kind == ev.kind
    && (ev.title.Some? && ev.title.value != "" ==> r.content.title == ev.title)
    && (ev.title.None? || ev.title.value == "" ==> r.content.title == TitleOf(ev.text))
  }

  predicate RowSays(r: Record, ev: Event, chunk: string, vector: Vector, name: Option<string>) {
    FixedSays(r, ev) && ContentSays(r, ev, chunk, vector, name)
  }

  /** Vectors for all chunks, each of the schema's dimension. */
  predicate Fits(vectors: seq<Vector>, n: nat) {
    |vectors| == n && forall k :: 0 <= k < n ==> |vectors[k]| == 768
  }

  /**
     Exactly when a message becomes a dead letter, is passed over, ends the process or is
     written, and what is then written: one row per chunk in order, the k-th with the
     k-th chunk's text and the k-th vector the model returned for the chunks.
   */
  lemma PlanExactly(model: Model, m: Message)
    ensures m.Unparseable? ==> PlanOf(model, m) == DeadLetter(false)
    ensures m.Parsed? && Chunking.AllSpace(m.ev.text) ==> PlanOf(model, m) == Blank
    ensures m.Parsed? && !Chunking.AllSpace(m.ev.text) ==>
      var chunks := Chunking.ChunkText(m.ev.text, 400);
      var vectors, plan := model.encode(chunks), PlanOf(model, m);
      && (vectors.None? ==> plan == DeadLetter(true))
      && (vectors.Some? && !Fits(vectors.value, |chunks|) ==> plan == Fatal)
      && (vectors.Some? && Fits(vectors.value, |chunks|) ==>
            && plan.Write? && plan.eventId == m.ev.eventId && |plan.records| == |chunks| > 0
            && forall k :: 0 <= k < |chunks| ==> RowSays(plan.records[k], m.ev, chunks[k], vectors.value[k], model.name))
  {
    if m.Parsed? {
      ChunkingTheorems.NoWordsIsSpace(m.ev.text);
      ChunkingTheorems.BlankHasNoChunks(m.ev.text, 400);
      var vectors := model.encode(Chunking.ChunkText(m.ev.text, 400));
      if vectors.Some? && Fits(vectors.value, |Chunking.ChunkText(m.ev.text, 400)|) {
        assert forall v :: v in vectors.value ==> |v| == 768;
      }
    }
  }

  /** The event's rows are its chunks with their vectors, and no others. */
  ghost predicate IndexedAs(table: Table, model: Model, ev: Event) {
    var chunks := Chunking.ChunkText(ev.text, 400);
    && model.encode(chunks).Some? && |model.encode(chunks).value| == |chunks|
    && (forall k: nat :: k < |chunks| ==>
          (ev.eventId, k) in table && ContentSays(table[(ev.eventId, k)], ev, chunks[k], model.encode(chunks).value[k], model.name))
    && (forall k: nat :: k >= |chunks| ==> (ev.eventId, k) !in table)
  }

  lemma WrittenIsIndexed(table: Table, model: Model, ev: Event)
    requires var plan := PlanOf(model, Parsed(ev)); plan.Write? && IndexReceipts.Written(table, plan.eventId, plan.records)
    ensures IndexedAs(table, model, ev)
  {
    PlanExactly(model, Parsed(ev));
    var plan, chunks := PlanOf(model, Parsed(ev)), Chunking.ChunkText(ev.text, 400);
    forall k: nat | k < |chunks|
      ensures (ev.eventId, k) in table
      ensures ContentSays(table[(ev.eventId, k)], ev, chunks[k], model.encode(chunks).value[k], model.name)
    {
      assert RowSays(plan.records[k], ev, chunks[k], model.encode(chunks).value[k], model.name);
    }
  }

  // ----- titles

  predicate Trimmed(s: string) {
    s != "" && !Chunking.IsSpace(s[0]) && !Chunking.IsSpace(s[|s| - 1])
  }

  predicate HasColon(s: string) {
    exists i :: 0 <= i < |s| - 1 && s[i] == ':' && s[i + 1] == ' '
  }

  lemma {:induction false} FirstColon(text: string, from: nat, at: nat)
    requires from <= at && at + 1 < |text| && text[at] == ':' && text[at + 1] == ' '
    requires forall i :: from <= i < at ==> !(text[i] == ':' && text[i + 1] == ' ')
    ensures Colon(text, from) == at
    decreases at - from
  {
    if from < at { FirstColon(text, from + 1, at); }
  }

  lemma {:induction false} StripBlank(s: string)
    ensures Strip(s) == "" <==> Chunking.AllSpace(s)
    decreases |s|
  {
    if s != "" && Chunking.IsSpace(s[0]) {
      StripBlank(s[1..]);
      if Chunking.AllSpace(s[1..]) {
        forall i | 0 <= i < |s| ensures Chunking.IsSpace(s[i]) { if i > 0 { assert s[i] == s[1..][i - 1]; } }
      }
    } else if s != "" && Chunking.IsSpace(s[|s| - 1]) {
      StripBlank(s[..|s| - 1]);
      assert Strip(s) == Strip(s[..|s| - 1]) && s[..|s| - 1] != "" by { assert |s| > 1; }
      assert s[..|s| - 1][0] == s[0];
    }
  }

  /** The title of "name: rest" is the name, unless it is too long or nothing follows it. */
  lemma TitleIsTheName(name: string, rest: string)
    requires Trimmed(name) && !HasColon(name)
    ensures TitleOf(name + ": " + rest) == if |name| <= 120 && !Chunking.AllSpace(rest) then Some(name) else None
  {
    var text := name + ": " + rest;
    forall i | 0 <= i < |name| ensures !(text[i] == ':' && text[i + 1] == ' ') {
      if i + 1 < |name| { assert text[i] == name[i] && text[i + 1] == name[i + 1]; }
    }
    FirstColon(text, 0, |name|);
    assert text[..|name|] == name && text[|name| + 2..] == rest;
    StripBlank(rest);
  }

  lemma TitleNeedsColon(text: string)
    requires !HasColon(text)
    ensures TitleOf(text) == None
  {
    assert Colon(text, 0) == |text|;
  }

  // ----- which write a row shows

  lemma FirstOrRest(ops: seq<Op>)
    requires ops != []
    ensures Puts(ops) <==> ops[0].Put? || Puts(ops[1..])
    ensures Drops(ops) <==> ops[0].Drop? || Drops(ops[1..])
  {
    assert forall j :: 0 <= j < |ops| - 1 ==> ops[1..][j] == ops[j + 1];
    assert forall j :: 0 < j < |ops| ==> ops[j] == ops[1..][j - 1];
  }

  lemma FrontOrLast(front: seq<Op>, last: Op)
    ensures Puts(front + [last]) <==> Puts(front) || last.Put?
    ensures Drops(front + [last]) <==> Drops(front) || last.Drop?
  {
    var ops := front + [last];
    assert ops[|front|] == last;
    assert forall j :: 0 <= j < |front| ==> ops[j] == front[j];
  }

  /** A row that a pass has touched is gone or has the content of one of its writes. */
  lemma {:induction false} ReplayShows(ops: seq<Op>, x: Option<Record>)
    requires Puts(ops) || Drops(ops)
    ensures Replay(ops, x).None? || exists j :: 0 <= j < |ops| && ops[j].Put? && Replay(ops, x).value.content == ops[j].r.content
    decreases |ops|
  {
    var y, rest := Apply(ops[0], x), ops[1..];
    FirstOrRest(ops);
    if Puts(rest) || Drops(rest) {
      ReplayShows(rest, y);
      if j :| 0 <= j < |rest| && rest[j].Put? && Replay(rest, y).Some? && Replay(rest, y).value.content == rest[j].r.content {
        assert ops[j + 1] == rest[j];
      }
    } else {
      OnlyLeaves(rest, y);
    }
  }

  /** The row is not there: it never was, or nothing was written since it was dropped. */
  ghost predicate Vacant(ops: seq<Op>, x: Option<Record>) {
    Puts(ops) || x.Some? ==> exists d :: 0 <= d < |ops| && ops[d].Drop? && !Puts(ops[d..])
  }

  /** The j-th operation is the first write since the row was last vacant. */
  ghost predicate FirstWrite(ops: seq<Op>, x: Option<Record>, j: nat) {
    j < |ops| && ops[j].Put? && !Drops(ops[j..]) && Vacant(ops[..j], x)
  }

  /** Where the columns that an upsert keeps come from. */
  ghost predicate FixedFrom(ops: seq<Op>, x: Option<Record>, y: Option<Record>) {
    match y
    case None => Vacant(ops, x)
    case Some(r) => (x.Some? && !Drops(ops) && r.fixed == x.value.fixed) || exists j: nat :: FirstWrite(ops, x, j) && ops[j].r.fixed == r.fixed
  }

  lemma VacantMore(front: seq<Op>, last: Op, x: Option<Record>)
    requires last.Drop? || (last.Leave? && Vacant(front, x))
    ensures Vacant(front + [last], x)
  {
    var ops := front + [last];
    FrontOrLast(front, last);
    if last.Drop? {
      assert ops[|front|].Drop? && ops[|front|..] == [last];
    } else if Puts(ops) || x.Some? {
      var d :| 0 <= d < |front| && front[d].Drop? && !Puts(front[d..]);
      assert ops[d..] == front[d..] + [last];
      FrontOrLast(front[d..], last);
      assert ops[d].Drop?;
    }
  }

  lemma FirstWriteMore(front: seq<Op>, last: Op, x: Option<Record>, j: nat)
    requires FirstWrite(front, x, j) && !last.Drop?
    ensures FirstWrite(front + [last], x, j) && (front + [last])[j] == front[j]
  {
    assert (front + [last])[j..] == front[j..] + [last] && (front + [last])[..j] == front[..j];
    FrontOrLast(front[j..], last);
  }

  lemma FirstWriteNow(front: seq<Op>, last: Op, x: Option<Record>)
    requires Vacant(front, x) && last.Put?
    ensures FirstWrite(front + [last], x, |front|) && (front + [last])[|front|] == last
  {
    assert (front + [last])[|front|..] == [last] && (front + [last])[..|front|] == front;
  }

  /** Service, source, incident and time of a row are those of its first write; later writes leave them alone. */
  lemma {:induction false} FirstWriteStands(ops: seq<Op>, x: Option<Record>)
    ensures FixedFrom(ops, x, Replay(ops, x))
    decreases |ops|
  {
    if ops != [] {
      var front, last := ops[..|ops| - 1], ops[|ops| - 1];
      assert ops == front + [last];
      FirstWriteStands(front, x);
      ReplayAppend(front, [last], x);
      assert [last][1..] == [];
      var was, y := Replay(front, x), Replay(ops, x);
      assert y == Apply(last, was);
      FrontOrLast(front, last);
      if y.None? {
        VacantMore(front, last, x);
      } else if was.None? {
        FirstWriteNow(front, last, x);
      } else if !(x.Some? && !Drops(ops) && y.value.fixed == x.value.fixed) {
        var j: nat :| FirstWrite(front, x, j) && front[j].r.fixed == was.value.fixed;
        FirstWriteMore(front, last, x, j);
      }
    }
  }

  // ----- vectors and texts in every run

  /** A model whose vector for a text does not depend on the texts beside it. */
  ghost predicate OneByOne(model: Model, f: string -> Vector) {
    forall texts, k :: model.encode(texts).Some? && 0 <= k < |texts| && k < |model.encode(texts).value| ==>
      model.encode(texts).value[k] == f(texts[k])
  }

  /** The topic is what the messages come to. */
  ghost predicate Planned(topic: seq<seq<Plan>>, messages: seq<seq<Message>>, model: Model) {
    && |topic| == |messages|
    && forall p :: 0 <= p < |topic| ==>
         |topic[p]| == |messages[p]| && forall i :: 0 <= i < |topic[p]| ==> topic[p][i] == PlanOf(model, messages[p][i])
  }

  /** Every row to be written has its own text's vector. */
  predicate OwnVectors(plan: Plan, f: string -> Vector) {
    plan.Write? ==> forall r :: r in plan.records ==> r.content.embedding == f(r.content.text)
  }

  lemma PlanOwnVectors(model: Model, m: Message, f: string -> Vector)
    requires OneByOne(model, f)
    ensures OwnVectors(PlanOf(model, m), f)
  {
    PlanExactly(model, m);
    var plan := PlanOf(model, m);
    if plan.Write? {
      var chunks := Chunking.ChunkText(m.ev.text, 400);
      forall k | 0 <= k < |plan.records| ensures plan.records[k].content.embedding == f(plan.records[k].content.text) {
        assert RowSays(plan.records[k], m.ev, chunks[k], model.encode(chunks).value[k], model.name);
      }
    }
  }

  /** Each row is as it was at the start, or its embedding is that of its own text. */
  ghost predicate Embedded(table: Table, start: Table, f: string -> Vector) {
    forall key :: key in table ==>
      (key in start && table[key].content == start[key].content) || table[key].content.embedding == f(table[key].content.text)
  }

  lemma EmbeddedStep(s: World, step: Step, start: Table, f: string -> Vector)
    requires Embedded(s.table, start, f)
    requires forall plans, plan :: plans in s.topic && plan in plans ==> OwnVectors(plan, f)
    ensures Embedded(Next(s, step).table, start, f) && Next(s, step).topic == s.topic
  {
    if step.Act? && Shaped(s) && step.p < |s.workers| && s.workers[step.p].pos < |s.topic[step.p]| {
      var plan := s.topic[step.p][s.workers[step.p].pos];
      assert s.topic[step.p] in s.topic && plan in s.topic[step.p] && OwnVectors(plan, f);
    }
  }

  lemma {:induction false} EmbeddedRun(s: World, run: seq<Step>, start: Table, f: string -> Vector)
    requires Embedded(s.table, start, f)
    requires forall plans, plan :: plans in s.topic && plan in plans ==> OwnVectors(plan, f)
    ensures Embedded(Exec(s, run).table, start, f)
    decreases |run|
  {
    if run != [] {
      EmbeddedStep(s, run[0], start, f);
      EmbeddedRun(Next(s, run[0]), run[1..], start, f);
    }
  }

  lemma AllOwnVectors(topic: seq<seq<Plan>>, messages: seq<seq<Message>>, model: Model, f: string -> Vector)
    requires Planned(topic, messages, model) && OneByOne(model, f)
    ensures forall plans, plan :: plans in topic && plan in plans ==> OwnVectors(plan, f)
  {
    forall p, i | 0 <= p < |topic| && 0 <= i < |topic[p]| ensures OwnVectors(topic[p][i], f) {
      PlanOwnVectors(model, messages[p][i], f);
    }
  }

  /**
     In every state of every run, crashes and redelivery included, each row's embedding is
     that of its own text, unless the run has not touched the row yet.
   */
  lemma EmbeddingsFollowTexts(s: World, run: seq<Step>, messages: seq<seq<Message>>, model: Model, f: string -> Vector)
    requires Planned(s.topic, messages, model) && OneByOne(model, f)
    ensures Embedded(Exec(s, run).table, s.table, f)
  {
    AllOwnVectors(s.topic, messages, model, f);
    EmbeddedRun(s, run, s.table, f);
  }

  /** The row shows a chunk of one of the event's messages, with that chunk's own vector and the message's columns. */
  ghost predicate Shows(r: Record, id: EventId, k: nat, messages: seq<Message>, model: Model) {
    exists m :: m in messages && m.Parsed? && m.ev.eventId == id
      && var chunks := Chunking.ChunkText(m.ev.text, 400);
         model.encode(chunks).Some? && k < |chunks| == |model.encode(chunks).value|
         && ContentSays(r, m.ev, chunks[k], model.encode(chunks).value[k], model.name)
  }

  lemma PutShows(model: Model, m: Message, key: Key, messages: seq<Message>)
    requires m in messages && OpOf(PlanOf(model, m), key).Put?
    ensures Shows(OpOf(PlanOf(model, m), key).r, key.0, key.1, messages, model)
  {
    PlanExactly(model, m);
    var chunks, r := Chunking.ChunkText(m.ev.text, 400), OpOf(PlanOf(model, m), key).r;
    assert RowSays(r, m.ev, chunks[key.1], model.encode(chunks).value[key.1], model.name);
  }

  /**
     After every run that consumes the topic, each row of an event that was written shows
     a chunk of one of its messages: that chunk's text with that chunk's vector.
   */
  lemma DrainedShows(s: World, run: seq<Step>, messages: seq<seq<Message>>, model: Model, p: nat, i: nat, k: nat)
    requires Init(s) && WellKeyed(s.topic) && Planned(s.topic, messages, model) && Drained(Exec(s, run))
    requires p < |s.topic| && i < |s.topic[p]| && s.topic[p][i].Write?
    requires (s.topic[p][i].eventId, k) in Exec(s, run).table
    ensures var key := (s.topic[p][i].eventId, k);
      Shows(Exec(s, run).table[key], key.0, k, messages[p], model)
  {
    var key, plans := (s.topic[p][i].eventId, k), s.topic[p];
    assert Owns(s.topic, p, key);
    RowSettled(s, run, p, key);
    var ops := Ops(plans, 0, |plans|, key);
    assert ops[i] == OpOf(plans[i], key) && (ops[i].Put? || ops[i].Drop?);
    ReplayShows(ops, Cell(s.table, key));
    var j :| 0 <= j < |ops| && ops[j].Put? && Exec(s, run).table[key].content == ops[j].r.content;
    PutShows(model, messages[p][j], key, messages[p]);
  }

  /** For such a model that is the vector of the row's own text. */
  lemma DrainedEmbeddings(s: World, run: seq<Step>, messages: seq<seq<Message>>, model: Model, f: string -> Vector,
                          p: nat, i: nat, k: nat)
    requires Init(s) && WellKeyed(s.topic) && Planned(s.topic, messages, model) && Drained(Exec(s, run)) && OneByOne(model, f)
    requires p < |s.topic| && i < |s.topic[p]| && s.topic[p][i].Write?
    requires (s.topic[p][i].eventId, k) in Exec(s, run).table
    ensures var c := Exec(s, run).table[(s.topic[p][i].eventId, k)].content;
      c.embedding == f(c.text)
  {
    DrainedShows(s, run, messages, model, p, i, k);
  }

  lemma PutFixed(model: Model, m: Message, key: Key)
    requires OpOf(PlanOf(model, m), key).Put?
    ensures m.Parsed? && FixedSays(OpOf(PlanOf(model, m), key).r, m.ev)
  {
    PlanExactly(model, m);
    var chunks := Chunking.ChunkText(m.ev.text, 400);
    assert RowSays(OpOf(PlanOf(model, m), key).r, m.ev, chunks[key.1], model.encode(chunks).value[key.1], model.name);
  }

  /** The row's columns that are written once are those of the first message to write it. */
  ghost predicate FixedByFirst(r: Record, messages: seq<Message>, ops: seq<Op>, x: Option<Record>)
    requires |messages| == |ops|
  {
    exists j: nat :: FirstWrite(ops, x, j) && messages[j].Parsed? && FixedSays(r, messages[j].ev)
  }

  /**
     After every such run a row has the service, source, incident and time it had at the
     start, if it was there and was never dropped, and otherwise those of the first message
     that wrote it since it was last dropped.
   */
  lemma DrainedFirstWrite(s: World, run: seq<Step>, messages: seq<seq<Message>>, model: Model, p: nat, key: Key)
    requires Init(s) && Owns(s.topic, p, key) && Planned(s.topic, messages, model) && Drained(Exec(s, run))
    requires key in Exec(s, run).table
    ensures var r, ops, x := Exec(s, run).table[key], Ops(s.topic[p], 0, |s.topic[p]|, key), Cell(s.table, key);
      || (x.Some? && !Drops(ops) && r.fixed == x.value.fixed)
      || FixedByFirst(r, messages[p], ops, x)
  {
    var r, ops, x := Exec(s, run).table[key], Ops(s.topic[p], 0, |s.topic[p]|, key), Cell(s.table, key);
    RowSettled(s, run, p, key);
    FirstWriteStands(ops, x);
    if !(x.Some? && !Drops(ops) && r.fixed == x.value.fixed) {
      var j: nat :| FirstWrite(ops, x, j) && ops[j].r.fixed == r.fixed;
      assert ops[j] == OpOf(s.topic[p][j], key);
      PutFixed(model, messages[p][j], key);
    }
  }
}
