/**
 The embedder process: `make_handler`'s handler in its own form, one SQL
 statement at a time with the other partitions' consumers in between, and the
 dead-letter breaker.  Every call is a run of the Embedder machine, so a crash
 anywhere in it is covered by EffectivelyOnce.
 */
module IndexWorker {
  import opened Basics
  import opened Embedder
  import opened EffectivelyOnce
  import IndexReceipts
  import opened IndexContents

  const MAX_CONSECUTIVE_DEADLETTERS: nat := 10

  /** Normal return, or an exception that ends the process before the offset is committed. */
  datatype Result = Handled | Raised | Unhealthy

  /** The breaker's counter after one handled message: only a systemic dead letter adds, blank text leaves it. */
  function StreakNext(streak: nat, plan: Plan): nat {
    match plan
    case DeadLetter(systemic) => if systemic then streak + 1 else 0
    case Blank => streak
    case Write(_, _) => 0
    case Fatal => streak
  }

  function Streak(plans: seq<Plan>): nat {
    if plans == [] then 0 else StreakNext(Streak(plans[..|plans| - 1]), plans[|plans| - 1])
  }

  /** The messages that say something about the worker or reset the count. */
  function Telling(plans: seq<Plan>): seq<Plan> {
    if plans == [] then []
    else
      var front, last := Telling(plans[..|plans| - 1]), plans[|plans| - 1];
      if last.Blank? || last.Fatal? then front else front + [last]
  }

  /** The breaker counts how many of the latest telling messages, without a gap, failed to embed. */
  lemma {:induction false} StreakIsTrailingRun(plans: seq<Plan>)
    ensures var told, n := Telling(plans), Streak(plans);
      && n <= |told|
      && (forall i :: |told| - n <= i < |told| ==> told[i] == DeadLetter(true))
      && (n < |told| ==> told[|told| - n - 1] != DeadLetter(true))
    decreases |plans|
  {
    if plans != [] { StreakIsTrailingRun(plans[..|plans| - 1]); }
  }

  /** No other partition has messages of the event. */
  ghost predicate Sole(topic: seq<seq<Plan>>, p: nat, id: EventId) {
    forall q, i :: 0 <= q < |topic| && q != p && 0 <= i < |topic[q]| && topic[q][i].Write? ==> topic[q][i].eventId != id
  }

  /** The event's rows. */
  function RowsOf(table: Table, id: EventId): Table {
    map key | key in table && key.0 == id :: table[key]
  }

  lemma OthersKeepRows(s: World, step: Step, p: nat, id: EventId)
    requires Shaped(s) && p < |s.workers| && !(step.Act? && step.p == p) && Sole(s.topic, p, id)
    ensures RowsOf(Next(s, step).table, id) == RowsOf(s.table, id)
  {
  }

  /** The first k chunks are in the index with the contents of this message. */
  ghost predicate WrittenTo(table: Table, id: EventId, records: seq<Record>, k: nat) {
    forall i: nat :: i < k && i < |records| ==> (id, i) in table && table[(id, i)].content == records[i].content
  }

  lemma SameRowsWritten(a: Table, b: Table, id: EventId, records: seq<Record>, k: nat)
    requires RowsOf(a, id) == RowsOf(b, id)
    ensures WrittenTo(a, id, records, k) ==> WrittenTo(b, id, records, k)
    ensures IndexReceipts.Written(a, id, records) ==> IndexReceipts.Written(b, id, records)
  {
    forall i: nat
      ensures (id, i) in a <==> (id, i) in b
      ensures (id, i) in a ==> a[(id, i)] == b[(id, i)]
    {
      assert (id, i) in a <==> (id, i) in RowsOf(a, id);
      assert (id, i) in b <==> (id, i) in RowsOf(b, id);
      assert (id, i) in a ==> RowsOf(a, id)[(id, i)] == a[(id, i)] && RowsOf(b, id)[(id, i)] == b[(id, i)];
    }
  }

  lemma UpsertWrites(table: Table, id: EventId, records: seq<Record>, k: nat)
    requires k < |records| && WrittenTo(table, id, records, k)
    ensures WrittenTo(Upsert(table, (id, k), records[k]), id, records, k + 1)
  {
  }

  lemma DeleteLeavesWritten(table: Table, id: EventId, records: seq<Record>)
    requires WrittenTo(table, id, records, |records|)
    ensures IndexReceipts.Written(DeleteOrphans(table, id, |records|), id, records)
  {
  }

  lemma WellKeyedIsSole(topic: seq<seq<Plan>>, p: nat, i: nat)
    requires WellKeyed(topic) && p < |topic| && i < |topic[p]| && topic[p][i].Write?
    ensures Sole(topic, p, topic[p][i].eventId)
  {
  }

  lemma OthersKeepMine(s: World, step: Step, p: nat)
    requires Shaped(s) && p < |s.workers| && !(step.Act? && step.p == p)
    ensures var t := Next(s, step);
      Shaped(t) && |t.workers| == |s.workers| && t.workers[p] == s.workers[p] && t.topic == s.topic
      && t.committed[p] == s.committed[p]
  {
  }

  lemma ExecStep(origin: World, run: seq<Step>, step: Step)
    ensures Exec(origin, run + [step]) == Next(Exec(origin, run), step)
  {
    ExecAppend(origin, run, [step]);
    assert [step][1..] == [];
  }

  class Process {
    const me: nat
    const model: Model
    var s: World
    var streak: nat
    ghost var origin: World
    ghost var run: seq<Step>

    ghost predicate Valid()
      reads this
    {
      Shaped(s) && me < |s.workers| && s == Exec(origin, run)
    }

    /** The run was only extended; the topic is fixed and our committed offset is ours alone. */
    twostate predicate Continues()
      reads this
    {
      && origin == old(origin) && old(run) <= run
      && |s.workers| == |old(s).workers| && s.topic == old(s).topic
    }

    /** Idle at an offset. */
    ghost predicate At(pos: nat)
      reads this
    {
      Valid() && s.workers[me] == Worker(pos, Idle)
    }

    constructor (me: nat, model: Model, s: World)
      requires Shaped(s) && me < |s.workers|
      ensures Valid() && this.me == me && this.model == model && this.s == s && streak == 0 && origin == s && run == []
    {
      this.me, this.model, this.s, streak := me, model, s, 0;
      origin, run := s, [];
    }

    /** The other partitions' consumers, and time. */
    method Others()
      requires Valid()
      modifies this`s, this`run
      ensures Valid() && Continues() && s.workers[me] == old(s).workers[me] && s.committed[me] == old(s).committed[me]
      ensures forall id :: Sole(s.topic, me, id) ==> RowsOf(s.table, id) == RowsOf(old(s).table, id)
    {
      var steps: seq<Step> := *;
      for i := 0 to |steps|
        invariant Valid() && Continues() && s.workers[me] == old(s).workers[me] && s.committed[me] == old(s).committed[me]
        invariant forall id :: Sole(s.topic, me, id) ==> RowsOf(s.table, id) == RowsOf(old(s).table, id)
      {
        if !(steps[i].Act? && steps[i].p == me) {
          OthersKeepMine(s, steps[i], me);
          forall id | Sole(s.topic, me, id) ensures RowsOf(Next(s, steps[i]).table, id) == RowsOf(s.table, id) {
            OthersKeepRows(s, steps[i], me, id);
          }
          ExecStep(origin, run, steps[i]);
          s, run := Next(s, steps[i]), run + [steps[i]];
        }
      }
    }

    method Local(action: Action)
      requires Valid()
      modifies this`s, this`run
      ensures Valid() && Continues() && s == Next(old(s), Act(me, action))
    {
      ExecStep(origin, run, Act(me, action));
      s, run := Next(s, Act(me, action)), run + [Act(me, action)];
    }

    /** One statement after whatever others do first; a statement that raises changes nothing. */
    method Execute(action: Action) returns (raised: bool, ghost before: World)
      requires Valid()
      modifies this`s, this`run
      ensures Valid() && Continues()
      ensures Shaped(before) && |before.workers| == |s.workers| && before.topic == s.topic
      ensures before.workers[me] == old(s).workers[me] && before.committed[me] == old(s).committed[me]
      ensures forall id :: Sole(s.topic, me, id) ==> RowsOf(before.table, id) == RowsOf(old(s).table, id)
      ensures s == if raised then before else Next(before, Act(me, action))
    {
      Others();
      before := s;
      raised := *;
      if !raised { Local(action); }
    }

    /** The exception leaves the consume loop: redelivery starts from the committed offset. */
    method Die()
      requires Valid()
      modifies this`s, this`run
      ensures Continues() && At(old(s).committed[me]) && s.committed[me] == old(s).committed[me]
    {
      Local(Crash);
    }

    /**
     The handler.  It returns normally with the offset done and every statement
     of its message executed in order, or the process dies back to the committed
     offset; the breaker follows StreakNext and trips at ten.
     */
    method Handle(m: Message) returns (r: Result)
      requires Valid() && s.workers[me].phase.Idle?
      requires s.workers[me].pos < |s.topic[me]| && s.topic[me][s.workers[me].pos] == PlanOf(model, m)
      modifies this
      ensures Continues()
      ensures r.Handled? ==> At(old(s).workers[me].pos + 1) && streak == StreakNext(old(streak), PlanOf(model, m))
                             && !PlanOf(model, m).Fatal?
      ensures !r.Handled? ==> At(old(s).committed[me])
      ensures r.Raised? ==> streak == old(streak)
      ensures r.Unhealthy? ==> streak == StreakNext(old(streak), PlanOf(model, m))
      ensures !r.Raised? ==>
        (r.Unhealthy? <==> PlanOf(model, m) == DeadLetter(true) && streak >= 10)
      ensures r.Handled? && PlanOf(model, m).Write? && WellKeyed(s.topic) ==> IndexedAs(s.table, model, m.ev)
    {
      var plan := PlanOf(model, m);
      var raised, before := Execute(Poll);
      if raised || plan.Fatal? { Die(); return Raised; }
      PollResult(before, me);
      match plan
      case DeadLetter(systemic) =>
        streak := if systemic then streak + 1 else 0;
        if streak >= MAX_CONSECUTIVE_DEADLETTERS { Die(); return Unhealthy; }
        return Handled;
      case Blank =>
        return Handled;
      case Write(id, records) =>
        if WellKeyed(s.topic) { WellKeyedIsSole(s.topic, me, s.workers[me].pos); }
        var ok := WriteRecords(id, records);
        if !ok { return Raised; }
        streak := 0;
        if WellKeyed(s.topic) { WrittenIsIndexed(s.table, model, m.ev); }
        return Handled;
    }

    /** One statement of the message being written. */
    method Write(id: EventId, records: seq<Record>) returns (ok: bool, ghost before: World)
      requires Valid() && s.workers[me].phase.Writing?
      requires s.workers[me].pos < |s.topic[me]| && s.topic[me][s.workers[me].pos] == Plan.Write(id, records)
      modifies this`s, this`run
      ensures Continues() && Valid()
      ensures Sole(s.topic, me, id) ==> RowsOf(before.table, id) == RowsOf(old(s).table, id)
      ensures !ok ==> At(old(s).committed[me])
      ensures ok ==> StatementDone(before, s, me, old(s).workers[me], id, records) && s.committed[me] == old(s).committed[me]
    {
      var raised;
      raised, before := Execute(Statement);
      ok := !raised;
      if raised { Die(); } else { StatementResult(before, me); }
    }

    /**
     Register the event, upsert its chunks, delete its orphans, stamp its receipt.
     When it returns normally the index holds exactly the message's chunks of the
     event, unless another partition writes the same event.
     */
    method WriteRecords(id: EventId, records: seq<Record>) returns (ok: bool)
      requires Valid() && s.workers[me].phase == Writing(Registering)
      requires s.workers[me].pos < |s.topic[me]| && s.topic[me][s.workers[me].pos] == Plan.Write(id, records)
      modifies this`s, this`run
      ensures Continues()
      ensures At(if ok then old(s).workers[me].pos + 1 else old(s).committed[me])
      ensures ok && Sole(s.topic, me, id) ==> IndexReceipts.Written(s.table, id, records)
    {
      ghost var before, was;
      ok, before := Write(id, records);
      if !ok { return; }
      for k := 0 to |records|
        invariant Valid() && Continues() && s.committed[me] == old(s).committed[me]
        invariant s.workers[me] == Worker(old(s).workers[me].pos, Writing(Upserting(k)))
        invariant Sole(s.topic, me, id) ==> WrittenTo(s.table, id, records, k)
      {
        was := s.table;
        ok, before := Write(id, records);
        if !ok { return; }
        if Sole(s.topic, me, id) {
          SameRowsWritten(was, before.table, id, records, k);
          UpsertWrites(before.table, id, records, k);
        }
      }
      was := s.table;
      ok, before := Write(id, records);
      if !ok { return; }
      if Sole(s.topic, me, id) {
        SameRowsWritten(was, before.table, id, records, |records|);
        DeleteLeavesWritten(before.table, id, records);
      }
      was := s.table;
      ok, before := Write(id, records);
      if ok && Sole(s.topic, me, id) { SameRowsWritten(was, before.table, id, records, |records|); }
    }
  }

  /** The handler's next statement, what it does to the table, and that it leaves the offset uncommitted. */
  ghost predicate StatementDone(s: World, t: World, p: nat, wk: Worker, id: EventId, records: seq<Record>) {
    && p < |t.workers| && wk.phase.Writing?
    && match wk.phase.stage
       case Registering => t.workers[p] == wk.(phase := Writing(Upserting(0))) && t.table == s.table
       case Upserting(k) =>
         if k < |records|
         then t.workers[p] == wk.(phase := Writing(Upserting(k + 1))) && t.table == Upsert(s.table, (id, k), records[k])
         else t.workers[p] == wk.(phase := Writing(Completing)) && t.table == DeleteOrphans(s.table, id, |records|)
       case Completing => t.workers[p] == Worker(wk.pos + 1, Idle) && t.table == s.table
  }

  lemma StatementResult(s: World, p: nat)
    requires Shaped(s) && p < |s.workers| && s.workers[p].phase.Writing?
    requires s.workers[p].pos < |s.topic[p]| && s.topic[p][s.workers[p].pos].Write?
    ensures var plan, t := s.topic[p][s.workers[p].pos], Next(s, Act(p, Statement));
      t.committed == s.committed && StatementDone(s, t, p, s.workers[p], plan.eventId, plan.records)
  {
  }

  lemma PollResult(s: World, p: nat)
    requires Shaped(s) && p < |s.workers| && s.workers[p].phase.Idle? && s.workers[p].pos < |s.topic[p]|
    ensures var wk, t := s.workers[p], Next(s, Act(p, Poll));
      t.committed == s.committed &&
      t.workers[p] == match s.topic[p][wk.pos]
        case Write(_, _) => wk.(phase := Writing(Registering))
        case Fatal => wk
        case DeadLetter(_) => Worker(wk.pos + 1, Idle)
        case Blank => Worker(wk.pos + 1, Idle)
  {
  }

  // ----- the undisturbed run -----

  ghost predicate NoCrash(run: seq<Step>) {
    forall i :: 0 <= i < |run| ==> !(run[i].Act? && run[i].action.Crash?)
  }

  ghost predicate NoFatal(topic: seq<seq<Plan>>) {
    forall p, i :: 0 <= p < |topic| && 0 <= i < |topic[p]| ==> !topic[p][i].Fatal?
  }

  /** Only worker `p` differs. */
  ghost predicate OnlyMoved(s: World, t: World, p: nat) {
    && Shaped(s) && Shaped(t) && t.topic == s.topic && p < |s.workers| == |t.workers|
    && t.workers == s.workers[p := t.workers[p]]
  }

  lemma Extend(s: World, run: seq<Step>, step: Step) returns (run': seq<Step>)
    requires NoCrash(run) && !(step.Act? && step.action.Crash?)
    ensures run' == run + [step] && NoCrash(run') && Exec(s, run') == Next(Exec(s, run), step)
  {
    run' := run + [step];
    ExecStep(s, run, step);
  }

  lemma {:induction false} WriteChunks(s: World, p: nat, k: nat, n: nat) returns (run: seq<Step>)
    requires Shaped(s) && p < |s.workers| && s.workers[p].pos < |s.topic[p]| && s.topic[p][s.workers[p].pos].Write?
    requires n == |s.topic[p][s.workers[p].pos].records| && k <= n
    requires s.workers[p].phase == Writing(Upserting(0))
    ensures NoCrash(run) && OnlyMoved(s, Exec(s, run), p)
    ensures Exec(s, run).workers[p] == s.workers[p].(phase := Writing(Upserting(k)))
  {
    if k == 0 {
      run := [];
    } else {
      var before := WriteChunks(s, p, k - 1, n);
      run := Extend(s, before, Act(p, Statement));
    }
  }

  lemma HandleOne(s: World, p: nat) returns (run: seq<Step>)
    requires Shaped(s) && p < |s.workers| && s.workers[p].phase.Idle? && s.workers[p].pos < |s.topic[p]|
    requires NoFatal(s.topic)
    ensures NoCrash(run) && OnlyMoved(s, Exec(s, run), p)
    ensures Exec(s, run).workers[p] == Worker(s.workers[p].pos + 1, Idle)
  {
    var plan := s.topic[p][s.workers[p].pos];
    run := Extend(s, [], Act(p, Poll));
    if plan.Write? {
      run := Extend(s, run, Act(p, Statement));
      var mid := Exec(s, run);
      assert mid.workers[p].phase == Writing(Upserting(0));
      var chunks := WriteChunks(mid, p, |plan.records|, |plan.records|);
      ExecAppend(s, run, chunks);
      run := run + chunks;
      run := Extend(s, run, Act(p, Statement));
      run := Extend(s, run, Act(p, Statement));
    }
  }

  lemma {:induction false} HandleUpTo(s: World, p: nat, n: nat) returns (run: seq<Step>)
    requires Shaped(s) && p < |s.workers| && s.workers[p] == Worker(0, Idle) && n <= |s.topic[p]|
    requires NoFatal(s.topic)
    ensures NoCrash(run) && OnlyMoved(s, Exec(s, run), p) && Exec(s, run).workers[p] == Worker(n, Idle)
  {
    if n == 0 {
      run := [];
    } else {
      var before := HandleUpTo(s, p, n - 1);
      var last := HandleOne(Exec(s, before), p);
      ExecAppend(s, before, last);
      run := before + last;
    }
  }

  lemma {:induction false} HandleFirst(s: World, n: nat) returns (run: seq<Step>)
    requires Init(s) && NoFatal(s.topic) && n <= |s.workers|
    ensures NoCrash(run)
    ensures var t := Exec(s, run);
      && Shaped(t) && t.topic == s.topic && |t.workers| == |s.workers|
      && (forall p :: 0 <= p < n ==> t.workers[p] == Worker(|s.topic[p]|, Idle))
      && (forall p :: n <= p < |s.workers| ==> t.workers[p] == Worker(0, Idle))
  {
    if n == 0 {
      run := [];
    } else {
      var before := HandleFirst(s, n - 1);
      var last := HandleUpTo(Exec(s, before), n - 1, |s.topic[n - 1]|);
      ExecAppend(s, before, last);
      run := before + last;
    }
  }

  /** Unless some message is fatal for every attempt, the crash-free run exists, and every other complete run leaves its index. */
  lemma SameAsCrashFreeRun(s: World, run: seq<Step>) returns (calm: seq<Step>)
    requires Init(s) && WellKeyed(s.topic) && NoFatal(s.topic) && Drained(Exec(s, run))
    ensures NoCrash(calm) && Drained(Exec(s, calm)) && Exec(s, run).table == Exec(s, calm).table
  {
    calm := HandleFirst(s, |s.workers|);
    RunsAgree(s, run, calm);
  }
}
