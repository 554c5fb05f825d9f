/**
 "At-least-once + idempotent = effectively once", freshet/pipeline/embedder.py:3-5.
 Seen from one row of the index, a partition is a word of operations: leave it,
 put it, drop it.  Redelivery replays part of the word from wherever a crash left
 the row; the theorem is that a run that reaches the end leaves every row as any
 other such run does.
 */
module EffectivelyOnce {
  import opened Basics
  import opened Embedder

  // ----- one row -----

  datatype Op = Leave | Put(r: Record) | Drop

  function Apply(op: Op, x: Option<Record>): Option<Record> {
    match op
    case Leave => x
    case Put(r) => Some(if x.Some? then x.value.(content := r.content) else r)
    case Drop => None
  }

  function Replay(ops: seq<Op>, x: Option<Record>): Option<Record> {
    if ops == [] then x else Replay(ops[1..], Apply(ops[0], x))
  }

  predicate Drops(ops: seq<Op>) {
    exists i :: 0 <= i < |ops| && ops[i].Drop?
  }

  predicate Puts(ops: seq<Op>) {
    exists i :: 0 <= i < |ops| && ops[i].Put?
  }

  /** What this pass has replayed has put the row back, unless it also drops it. */
  predicate Warm(ops: seq<Op>, x: Option<Record>) {
    Puts(ops) && !Drops(ops) ==> x.Some?
  }

  lemma {:induction false} ReplayAppend(a: seq<Op>, b: seq<Op>, x: Option<Record>)
    ensures Replay(a + b, x) == Replay(b, Replay(a, x))
    decreases |a|
  {
    if a == [] {
      assert a + b == b;
    } else {
      assert (a + b)[0] == a[0] && (a + b)[1..] == a[1..] + b;
      ReplayAppend(a[1..], b, Apply(a[0], x));
    }
  }

  /** A drop forgets where the replay started. */
  lemma {:induction false} DropForgets(ops: seq<Op>, x: Option<Record>, y: Option<Record>)
    requires Drops(ops)
    ensures Replay(ops, x) == Replay(ops, y)
    decreases |ops|
  {
    if !ops[0].Drop? {
      var i :| 0 <= i < |ops| && ops[i].Drop?;
      assert ops[1..][i - 1].Drop?;
      DropForgets(ops[1..], Apply(ops[0], x), Apply(ops[0], y));
    }
  }

  /** Without a drop, two rows that agree on the columns written once end alike as soon as something is put. */
  lemma {:induction false} PutOverwrites(ops: seq<Op>, x: Record, y: Record)
    requires x.fixed == y.fixed && Puts(ops)
    ensures Replay(ops, Some(x)) == Replay(ops, Some(y))
    decreases |ops|
  {
    if ops[0].Drop? || ops[0].Put? {
    } else {
      var i :| 0 <= i < |ops| && ops[i].Put?;
      assert ops[1..][i - 1].Put?;
      PutOverwrites(ops[1..], x, y);
    }
  }

  /** A part of a word puts or drops only if the word does. */
  lemma Part(ops: seq<Op>, i: nat, j: nat)
    requires i <= j <= |ops|
    ensures Puts(ops[i..j]) ==> Puts(ops)
    ensures Drops(ops[i..j]) ==> Drops(ops)
  {
    assert forall k :: 0 <= k < j - i ==> ops[i..j][k] == ops[i + k];
  }

  lemma {:induction false} NothingPut(ops: seq<Op>)
    requires !Puts(ops)
    ensures Replay(ops, None) == None
    decreases |ops|
  {
    if ops != [] {
      assert !ops[0].Put?;
      Part(ops, 1, |ops|);
      assert ops[1..|ops|] == ops[1..];
      NothingPut(ops[1..]);
    }
  }

  lemma {:induction false} OnlyLeaves(ops: seq<Op>, x: Option<Record>)
    requires !Puts(ops) && !Drops(ops)
    ensures Replay(ops, x) == x
    decreases |ops|
  {
    if ops != [] {
      assert !ops[0].Put? && !ops[0].Drop?;
      Part(ops, 1, |ops|);
      assert ops[1..|ops|] == ops[1..];
      OnlyLeaves(ops[1..], x);
    }
  }

  /** Doing operation `i` early changes nothing about the replay of the whole word. */
  lemma Absorb(ops: seq<Op>, i: nat, x: Option<Record>)
    requires i < |ops| && (ops[i].Put? ==> Warm(ops[..i], x))
    ensures Replay(ops, Apply(ops[i], x)) == Replay(ops, x)
  {
    var op := ops[i];
    if Drops(ops) {
      DropForgets(ops, x, Apply(op, x));
    } else if op.Put? && x.Some? {
      PutOverwrites(ops, x.value, Apply(op, x).value);
    } else if op.Put? {
      var before, after := ops[..i], ops[i..];
      assert ops == before + after;
      Part(ops, 0, i);
      assert ops[0..i] == before;
      OnlyLeaves(before, x);
      OnlyLeaves(before, Apply(op, x));
      ReplayAppend(before, after, x);
      ReplayAppend(before, after, Apply(op, x));
      assert after[0] == op;
      assert Apply(op, Apply(op, x)) == Apply(op, x);
    }
  }

  // ----- rows of the index -----

  function Cell(table: Table, key: Key): Option<Record> {
    if key in table then Some(table[key]) else None
  }

  function OpOf(plan: Plan, key: Key): Op {
    if plan.Write? && plan.eventId == key.0 then
      if key.1 < |plan.records| then Put(plan.records[key.1]) else Drop
    else Leave
  }

  /** What messages [from, to) of a partition do to one row. */
  function Ops(plans: seq<Plan>, from: nat, to: nat, key: Key): seq<Op>
    requires from <= to <= |plans|
  {
    seq(to - from, i requires 0 <= i < to - from => OpOf(plans[from + i], key))
  }

  /** The row after the partition was handled once, in order, without a crash. */
  function Settled(plans: seq<Plan>, to: nat, key: Key, x: Option<Record>): Option<Record>
    requires to <= |plans|
  {
    Replay(Ops(plans, 0, to, key), x)
  }

  lemma ReplayStep(plans: seq<Plan>, from: nat, to: nat, key: Key, x: Option<Record>)
    requires from < to <= |plans|
    ensures Replay(Ops(plans, from, to, key), x) == Replay(Ops(plans, from + 1, to, key), Apply(OpOf(plans[from], key), x))
  {
    assert Ops(plans, from, to, key)[1..] == Ops(plans, from + 1, to, key);
  }

  /** No other partition touches the row. */
  ghost predicate Owns(topic: seq<seq<Plan>>, p: nat, key: Key) {
    && p < |topic|
    && (forall q, i :: 0 <= q < |topic| && q != p && 0 <= i < |topic[q]| ==> OpOf(topic[q][i], key).Leave?)
  }

  /** How many of the row's event's statements this attempt has executed. */
  predicate Done(stage: Stage, n: nat, i: nat) {
    match stage
    case Registering => false
    case Upserting(k) => i < k && i < n
    case Completing => true
  }

  /**
   For the partition that owns the row: replaying from the committed offset, or
   from the current one, leads from the row as it is now to the row of an
   undisturbed run, for every end of the partition not yet passed.
   */
  ghost predicate RowInv(s: World, start: Table, p: nat, key: Key)
    requires Shaped(s) && p < |s.workers|
  {
    var plans, x, x0 := s.topic[p], Cell(s.table, key), Cell(start, key);
    var c, wk := s.committed[p], s.workers[p];
    && c <= wk.pos <= s.begun[p] <= |plans|
    && (forall j: nat :: s.begun[p] <= j <= |plans| ==> Replay(Ops(plans, c, j, key), x) == Settled(plans, j, key, x0))
    && (forall j: nat :: s.begun[p] <= j <= |plans| ==> Replay(Ops(plans, wk.pos, j, key), x) == Settled(plans, j, key, x0))
    && (wk.phase.Writing? ==> wk.pos < s.begun[p] && plans[wk.pos].Write?)
    && (wk.phase.Writing? && wk.phase.stage.Upserting? ==> wk.phase.stage.k <= |plans[wk.pos].records|)
    && (Warm(Ops(plans, c, wk.pos, key), x) || (wk.phase.Writing? && OpOf(plans[wk.pos], key).Drop?))
    && (wk.phase.Writing? && plans[wk.pos].eventId == key.0 && Done(wk.phase.stage, |plans[wk.pos].records|, key.1) ==>
          Apply(OpOf(plans[wk.pos], key), x) == x)
  }

  /** The row's operation was applied, in the middle of its message. */
  lemma RowApplied(s: World, t: World, start: Table, p: nat, key: Key)
    requires Shaped(s) && Shaped(t) && p < |s.workers| == |t.workers| && RowInv(s, start, p, key)
    requires s.workers[p].phase.Writing? && t.workers[p] == s.workers[p].(phase := t.workers[p].phase)
    requires t.topic == s.topic && t.committed == s.committed && t.begun == s.begun
    requires Cell(t.table, key) == Apply(OpOf(s.topic[p][s.workers[p].pos], key), Cell(s.table, key))
    requires t.workers[p].phase.Writing?
    requires t.workers[p].phase.stage.Upserting? ==>
      t.workers[p].phase.stage.k <= |s.topic[p][s.workers[p].pos].records|
    ensures RowInv(t, start, p, key)
  {
    var plans, x, x' := s.topic[p], Cell(s.table, key), Cell(t.table, key);
    var c, pos := s.committed[p], s.workers[p].pos;
    var op := OpOf(plans[pos], key);
    forall j: nat | s.begun[p] <= j <= |plans|
      ensures Replay(Ops(plans, c, j, key), x') == Replay(Ops(plans, c, j, key), x)
      ensures Replay(Ops(plans, pos, j, key), x') == Replay(Ops(plans, pos, j, key), x)
    {
      var word := Ops(plans, c, j, key);
      assert word[pos - c] == op && word[..pos - c] == Ops(plans, c, pos, key);
      Absorb(word, pos - c, x);
      ReplayStep(plans, pos, j, key, x);
      ReplayStep(plans, pos, j, key, x');
      assert Apply(op, Apply(op, x)) == Apply(op, x);
    }
  }

  /** Nothing happened to the row, and its message goes on. */
  lemma RowUntouched(s: World, t: World, start: Table, p: nat, key: Key)
    requires Shaped(s) && Shaped(t) && p < |s.workers| == |t.workers| && RowInv(s, start, p, key)
    requires t.topic == s.topic && t.committed[p] == s.committed[p] && t.begun[p] == s.begun[p]
    requires Cell(t.table, key) == Cell(s.table, key)
    requires t.workers[p] == s.workers[p]
      || (s.workers[p].phase.Writing? && t.workers[p] == s.workers[p].(phase := t.workers[p].phase) && t.workers[p].phase.Writing?
          && (t.workers[p].phase.stage.Upserting? ==> t.workers[p].phase.stage.k <= |s.topic[p][s.workers[p].pos].records|)
          && (s.topic[p][s.workers[p].pos].eventId == key.0 ==>
                (Done(t.workers[p].phase.stage, |s.topic[p][s.workers[p].pos].records|, key.1)
                 ==> Done(s.workers[p].phase.stage, |s.topic[p][s.workers[p].pos].records|, key.1))))
    ensures RowInv(t, start, p, key)
  {
  }

  /** The message is finished, every row of its event is as it asks, and the offset moves on. */
  lemma RowFinished(s: World, t: World, start: Table, p: nat, key: Key)
    requires Shaped(s) && Shaped(t) && p < |s.workers| == |t.workers| && RowInv(s, start, p, key)
    requires t.topic == s.topic && t.committed[p] == s.committed[p]
    requires s.workers[p].pos < |s.topic[p]| && t.begun[p] == Max(s.begun[p], s.workers[p].pos + 1)
    requires Cell(t.table, key) == Cell(s.table, key)
    requires Apply(OpOf(s.topic[p][s.workers[p].pos], key), Cell(s.table, key)) == Cell(s.table, key)
    requires t.workers[p] == Worker(s.workers[p].pos + 1, Idle)
    requires s.workers[p].phase.Idle? ==> OpOf(s.topic[p][s.workers[p].pos], key).Leave?
    ensures RowInv(t, start, p, key)
  {
    var plans, x := s.topic[p], Cell(s.table, key);
    var c, pos := s.committed[p], s.workers[p].pos;
    forall j: nat | t.begun[p] <= j <= |plans|
      ensures Replay(Ops(plans, pos + 1, j, key), x) == Replay(Ops(plans, pos, j, key), x)
    {
      ReplayStep(plans, pos, j, key, x);
    }
    var before, after := Ops(plans, c, pos, key), Ops(plans, c, pos + 1, key);
    var op := OpOf(plans[pos], key);
    assert after == before + [op];
    if Puts(after) && !Drops(after) {
      assert after[|before|] == op;
      assert !op.Drop?;
      Part(after, 0, |before|);
      assert after[0..|before|] == before;
      if !op.Put? {
        var i :| 0 <= i < |after| && after[i].Put?;
        assert before[i].Put?;
      }
      assert x.Some?;
    }
  }

  lemma RowPolled(s: World, t: World, start: Table, p: nat, key: Key)
    requires Shaped(s) && p < |s.workers| && RowInv(s, start, p, key) && s.workers[p].phase.Idle?
    requires t == PollNext(s, p)
    ensures RowInv(t, start, p, key)
  {
    var wk := s.workers[p];
    if wk.pos < |s.topic[p]| {
      var plan := s.topic[p][wk.pos];
      if plan.DeadLetter? || plan.Blank? { RowFinished(s, t, start, p, key); }
    }
  }

  lemma RowCommitted(s: World, t: World, start: Table, p: nat, key: Key)
    requires Shaped(s) && p < |s.workers| && RowInv(s, start, p, key) && s.workers[p].phase.Idle?
    requires t == s.(committed := s.committed[p := s.workers[p].pos])
    ensures RowInv(t, start, p, key)
  {
    assert Ops(s.topic[p], s.workers[p].pos, s.workers[p].pos, key) == [];
  }

  lemma RowCrashed(s: World, t: World, start: Table, p: nat, key: Key)
    requires Shaped(s) && p < |s.workers| && RowInv(s, start, p, key)
    requires t == SetWorker(s, p, Worker(s.committed[p], Idle))
    ensures RowInv(t, start, p, key)
  {
    assert Ops(s.topic[p], s.committed[p], s.committed[p], key) == [];
  }

  lemma RowStatement(s: World, start: Table, p: nat, key: Key)
    requires Shaped(s) && p < |s.workers| && RowInv(s, start, p, key) && s.workers[p].phase.Writing?
    ensures RowInv(ActNext(s, p, Statement), start, p, key)
  {
    var wk := s.workers[p];
    var plan := s.topic[p][wk.pos];
    var t := StatementNext(s, p, wk.phase.stage, plan.eventId, plan.records);
    assert ActNext(s, p, Statement) == t;
    match wk.phase.stage
    case Registering =>
      RowUntouched(s, t, start, p, key);
    case Upserting(k) =>
      if plan.eventId == key.0 && ((k < |plan.records| && key.1 == k) || (k == |plan.records| && key.1 >= k)) {
        RowApplied(s, t, start, p, key);
      } else {
        RowUntouched(s, t, start, p, key);
      }
    case Completing =>
      RowFinished(s, t, start, p, key);
  }

  /** Another partition's step does not touch the row. */
  lemma RowForeign(s: World, start: Table, p: nat, q: nat, action: Action, key: Key)
    requires Shaped(s) && p < |s.workers| && q < |s.workers| && q != p
    requires Owns(s.topic, p, key) && RowInv(s, start, p, key)
    requires s.workers[q].phase.Writing? && s.workers[q].phase.stage.Upserting? ==>
      s.workers[q].pos < |s.topic[q]| && s.topic[q][s.workers[q].pos].Write?
    ensures Shaped(ActNext(s, q, action)) && RowInv(ActNext(s, q, action), start, p, key)
  {
    var t := ActNext(s, q, action);
    var wk := s.workers[q];
    if action.Statement? && wk.phase.Writing? && wk.pos < |s.topic[q]| && s.topic[q][wk.pos].Write? {
      assert OpOf(s.topic[q][wk.pos], key).Leave?;
      assert s.topic[q][wk.pos].eventId != key.0;
    }
    assert Cell(t.table, key) == Cell(s.table, key);
    RowUntouched(s, t, start, p, key);
  }

  predicate WritesInPlace(s: World) {
    Shaped(s) && forall q :: 0 <= q < |s.workers| && s.workers[q].phase.Writing? ==>
      s.workers[q].pos < |s.topic[q]| && s.topic[q][s.workers[q].pos].Write?
  }

  ghost predicate TableInv(s: World, start: Table) {
    && WritesInPlace(s)
    && forall p, key :: 0 <= p < |s.workers| && Owns(s.topic, p, key) ==> RowInv(s, start, p, key)
  }

  /** The partition's own step, whatever it is. */
  lemma {:induction false} RowOwn(s: World, action: Action, start: Table, p: nat, key: Key)
    requires Shaped(s) && p < |s.workers| && Owns(s.topic, p, key) && RowInv(s, start, p, key)
    requires s.workers[p].phase.Writing? ==> s.workers[p].pos < |s.topic[p]| && s.topic[p][s.workers[p].pos].Write?
    ensures Shaped(ActNext(s, p, action)) && RowInv(ActNext(s, p, action), start, p, key)
  {
    var t := ActNext(s, p, action);
    if action.Crash? {
      RowCrashed(s, t, start, p, key);
    } else if s.workers[p].phase.Idle? {
      if action.Poll? { RowPolled(s, t, start, p, key); }
      else if action.Commit? { RowCommitted(s, t, start, p, key); }
    } else if action.Statement? {
      RowStatement(s, start, p, key);
    }
  }

  lemma {:induction false} RowStep(s: World, step: Step, start: Table, p: nat, key: Key)
    requires TableInv(s, start) && p < |s.workers| && Owns(s.topic, p, key)
    ensures Shaped(Next(s, step)) && RowInv(Next(s, step), start, p, key)
  {
    assert RowInv(s, start, p, key);
    if !step.Act? || step.p >= |s.workers| {
      RowUntouched(s, Next(s, step), start, p, key);
    } else if step.p == p {
      RowOwn(s, step.action, start, p, key);
    } else {
      RowForeign(s, start, p, step.p, step.action, key);
    }
  }

  lemma {:induction false} WritesStay(s: World, step: Step)
    requires WritesInPlace(s)
    ensures WritesInPlace(Next(s, step)) && Next(s, step).topic == s.topic && |Next(s, step).workers| == |s.workers|
  {
  }

  lemma {:induction false} TableStep(s: World, step: Step, start: Table)
    requires TableInv(s, start)
    ensures TableInv(Next(s, step), start) && Next(s, step).topic == s.topic
  {
    var t := Next(s, step);
    WritesStay(s, step);
    forall p, key | 0 <= p < |t.workers| && Owns(t.topic, p, key)
      ensures RowInv(t, start, p, key)
    {
      RowStep(s, step, start, p, key);
    }
  }

  lemma {:induction false} TableRun(s: World, run: seq<Step>, start: Table)
    requires TableInv(s, start)
    ensures TableInv(Exec(s, run), start) && Exec(s, run).topic == s.topic
    decreases |run|
  {
    if run != [] {
      TableStep(s, run[0], start);
      TableRun(Next(s, run[0]), run[1..], start);
    }
  }

  lemma InitTable(s: World)
    requires Init(s)
    ensures TableInv(s, s.table)
  {
    forall p, key | 0 <= p < |s.workers| && Owns(s.topic, p, key)
      ensures RowInv(s, s.table, p, key)
    {
      assert Ops(s.topic[p], 0, 0, key) == [];
    }
  }

  /** Under the partition key every row has an owner. */
  lemma EveryRowOwned(topic: seq<seq<Plan>>, key: Key) returns (p: nat)
    requires WellKeyed(topic) && topic != []
    ensures Owns(topic, p, key)
  {
    if q, i :| 0 <= q < |topic| && 0 <= i < |topic[q]| && !OpOf(topic[q][i], key).Leave? {
      p := q;
    } else {
      p := 0;
    }
  }

  /** A run that reaches the end of every partition leaves each row as one undisturbed pass would. */
  lemma RowSettled(s: World, run: seq<Step>, p: nat, key: Key)
    requires Init(s) && Drained(Exec(s, run)) && Owns(s.topic, p, key)
    ensures Cell(Exec(s, run).table, key) == Settled(s.topic[p], |s.topic[p]|, key, Cell(s.table, key))
  {
    InitTable(s);
    TableRun(s, run, s.table);
    var t := Exec(s, run);
    assert RowInv(t, s.table, p, key);
    var n := |t.topic[p]|;
    assert Ops(t.topic[p], n, n, key) == [];
    assert Replay(Ops(t.topic[p], t.workers[p].pos, n, key), Cell(t.table, key)) == Cell(t.table, key);
  }

  /**
   Effectively once.  Two runs over the same topic and the same starting index
   that both consume every partition to its end leave the same index, whatever
   crashes and redeliveries either of them contains.
   */
  lemma RunsAgree(s: World, run: seq<Step>, run': seq<Step>)
    requires Init(s) && WellKeyed(s.topic)
    requires Drained(Exec(s, run)) && Drained(Exec(s, run'))
    ensures Exec(s, run).table == Exec(s, run').table
  {
    var t, t' := Exec(s, run), Exec(s, run');
    if s.topic == [] {
      NoPartitions(s, run);
      NoPartitions(s, run');
    } else {
      forall key: Key
        ensures Cell(t.table, key) == Cell(t'.table, key)
      {
        var p := EveryRowOwned(s.topic, key);
        RowSettled(s, run, p, key);
        RowSettled(s, run', p, key);
      }
      SameCells(t.table, t'.table);
    }
  }

  lemma SameCells(a: Table, b: Table)
    requires forall key: Key :: Cell(a, key) == Cell(b, key)
    ensures a == b
  {
    forall key: Key
      ensures key in a <==> key in b
      ensures key in a && key in b ==> a[key] == b[key]
    {
      assert Cell(a, key) == Cell(b, key);
    }
  }

  lemma {:induction false} NoPartitions(s: World, run: seq<Step>)
    requires Shaped(s) && s.topic == []
    ensures Exec(s, run).table == s.table
    decreases |run|
  {
    if run != [] { NoPartitions(Next(s, run[0]), run[1..]); }
  }
}
