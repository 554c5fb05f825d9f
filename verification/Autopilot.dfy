/**
 freshet/autopilot/consumer.py in its own form: methods of one autopilot process
 over the shared tables, with other workers' steps interleaved before every
 statement.  Each method is proved to perform a run of the Delivery machine, so
 what DeliveryPosts, DeliveryIntent, DeliveryRecords and DeliveryThreads say of
 runs holds of it.  What a drain achieves depends on three things it cannot see,
 which are constants of the process: whether it is `alone`, so that between its
 statements only time passes; whether the database is `steady`, so that no
 statement raises; and whether each post is `welcome`, so that neither the
 evidence, the budget nor the sink stops a delivery.
 */
module Autopilot {
  import opened Basics
  import opened Incidents
  import opened Delivery
  import opened DeliveryHandling
  import opened DeliveryIntent
  import opened DeliveryRecords
  import opened DrainBacklog

  /** How a call of the sink, with the evidence gathering before it, ends. */
  datatype SinkAnswer = Accepted(ts: Option<string>, channel: Option<string>) | BudgetExhausted | Raised

  lemma OthersKeepMine(s: World, step: Step, w: nat)
    requires w < |s.workers| && !(step.Act? && step.w == w)
    ensures var t := Next(s, step);
      |t.workers| == |s.workers| && t.workers[w] == s.workers[w] && t.topic == s.topic
  {
  }

  lemma ExecStep(origin: World, run: seq<Step>, step: Step)
    ensures Exec(origin, run + [step]) == Next(Exec(origin, run), step)
  {
    ExecAppend(origin, run, [step]);
    assert [step][1..] == [];
  }

  /** Where a worker that has lost its place starts over. */
  function CommittedPos(s: World, part: nat): nat {
    if part < |s.committed| then s.committed[part] else 0
  }

  /** The statements of one message's branch, up to and with its claim. */
  function Statements(kind: Kind): nat {
    match kind
    case Opened => 2
    case InProgress => 5
    case Resolved => 4
    case Other => 1
  }

  class Process {
    const me: nat
    const window: Time
    const alone: bool     // nobody else acts
    const steady: bool    // no statement of ours raises
    const welcome: bool   // every post we try is accepted
    var s: World
    ghost var origin: World    // where this process's history starts
    ghost var run: seq<Step>   // every step taken since, by anyone

    /** The shared state is what the recorded run makes of the origin. */
    ghost predicate Valid()
      reads this
    {
      && me < |s.workers| && s == Exec(origin, run)
      && (s.workers[me].phase.Trying? ==> s.workers[me].phase.attempt.id in s.rows)
    }

    ghost predicate AtRest()
      reads this
    {
      Valid() && s.workers[me].phase.Idle?
    }

    /** The run was only extended; the topic and the set of workers are fixed. */
    twostate predicate Continues()
      reads this
    {
      && origin == old(origin) && old(run) <= run
      && |s.workers| == |old(s).workers| && s.topic == old(s).topic
    }

    /** Idle at the committed offset of the partition, as after a restart. */
    ghost predicate AtCommitted(part: nat)
      reads this
    {
      me < |s.workers| && s.workers[me] == Worker(part, CommittedPos(s, part), Idle)
    }

    constructor (me: nat, window: Time, alone: bool, steady: bool, welcome: bool, s: World)
      requires me < |s.workers| && !s.workers[me].phase.Trying?
      ensures Valid() && this.me == me && this.window == window
      ensures this.alone == alone && this.steady == steady && this.welcome == welcome
      ensures this.s == s && origin == s && run == []
    {
      this.me, this.window, this.alone, this.steady, this.welcome, this.s := me, window, alone, steady, welcome, s;
      origin, run := s, [];
    }

    method Take(step: Step)
      requires Valid()
      requires var t := Next(s, step);
        |t.workers| == |s.workers| && t.topic == s.topic && (t.workers[me].phase.Trying? ==> t.workers[me].phase.attempt.id in t.rows)
      modifies this
      ensures Valid() && Continues() && s == Next(old(s), step)
    {
      ExecStep(origin, run, step);
      s, run := Next(s, step), run + [step];
    }

    /** Whatever the rest of the system does between two of our statements. */
    method Others()
      requires Valid()
      modifies this
      ensures Valid() && Continues() && Kept(old(s).rows, s.rows)
      ensures s.workers[me] == old(s).workers[me]
      ensures alone ==> s == old(s).(now := s.now) && old(s).now <= s.now
    {
      if alone {
        var d: nat := *;
        KeptStep(s, Tick(d));
        Take(Tick(d));
      } else {
        var steps: seq<Step> := *;
        for i := 0 to |steps|
          invariant Valid() && Continues() && Kept(old(s).rows, s.rows)
          invariant s.workers[me] == old(s).workers[me]
        {
          if !(steps[i].Act? && steps[i].w == me) {
            OthersKeepMine(s, steps[i], me);
            KeptStep(s, steps[i]);
            Take(steps[i]);
          }
        }
      }
    }

    /** One statement of ours, after whatever others do first.  A statement that raises changes nothing. */
    method Execute(action: Action) returns (raised: bool, ghost before: World)
      requires Valid()
      modifies this
      ensures Valid() && Continues() && Kept(old(s).rows, before.rows)
      ensures |before.workers| == |s.workers| && before.topic == s.topic
      ensures before.workers[me] == old(s).workers[me]
      ensures s == if raised then before else Next(before, Act(me, action))
      ensures steady ==> !raised
      ensures alone ==> before == old(s).(now := before.now) && old(s).now <= before.now
    {
      Others();
      before := s;
      if steady { raised := false; } else { raised := *; }
      if !raised { Local(action); }
    }

    /** A step of ours that cannot fail: an exception of our own, the sink's answer, our death. */
    method Local(action: Action)
      requires Valid()
      modifies this
      ensures Valid() && Continues() && s == Next(old(s), Act(me, action))
    {
      MineKeepsRow(s, me, action);
      Take(Act(me, action));
    }

    /** An exception leaves the consume loop; the process restarts at its committed offset. */
    method Die()
      requires Valid()
      modifies this
      ensures AtRest() && Continues() && AtCommitted(old(s).workers[me].part)
      ensures s.rows == old(s).rows && s.posts == old(s).posts && s.now == old(s).now
    {
      Local(Crash(s.workers[me].part));
    }

    /** Gathering the evidence, composing and posting: foreign calls with three ways to end. */
    method Deliver() returns (answer: SinkAnswer)
      ensures welcome ==> answer.Accepted?
    {
      if welcome {
        var ts: Option<string>, channel: Option<string> := *, *;
        answer := Accepted(ts, channel);
      } else {
        answer := *;
      }
    }

    /** The message at offset `pos` is done, and its verdict is on the books. */
    ghost predicate Handled(part: nat, pos: nat)
      reads this
    {
      Valid() && s.workers[me] == Worker(part, pos + 1, Idle) && (part, pos) in s.verdicts
    }

    /** A post the sink accepted, then its mark; in the drain the mark is outside the try, so its failure releases nothing. */
    method AcceptAndMark(ts: Option<string>, channel: Option<string>) returns (marked: bool)
      requires Valid() && s.workers[me].phase.Trying? && s.workers[me].phase.attempt.progress.Ready?
      modifies this
      ensures Valid() && Continues()
      ensures var wk := old(s).workers[me]; var a := wk.phase.attempt;
        && (marked && a.origin.Drain? ==> s.workers[me] == wk.(phase := Idle))
        && (marked && a.origin.Direct? ==> Handled(wk.part, wk.pos))
        && (!marked ==> s.workers[me] == wk.(phase := Trying(a.(progress := Sent(ts, channel)))))
        && (alone && marked && (a.slot != Brief ==> a.thread == old(s).rows[a.id].slackTs) ==> Marked(old(s), s, a.id, a.slot))
      ensures var wk := old(s).workers[me];
        alone && marked && wk.phase.attempt.origin.Direct? ==> s.verdicts == old(s).verdicts[(wk.part, wk.pos) := Recorded]
      ensures steady ==> marked
      ensures alone ==> old(s).now <= s.now
    {
      ghost var a := s.workers[me].phase.attempt;
      AcceptResult(s, me, a, ts, channel);
      Local(Accept(ts, channel));
      var raised, before := Execute(MarkDelivered);
      if raised { return false; }
      MarkResult(before, me, a.(progress := Sent(ts, channel)));
      if alone && (a.slot != Brief ==> a.thread == old(s).rows[a.id].slackTs) {
        assert s.rows == old(s).rows[a.id := Mark(old(s).rows[a.id], a.slot, before.now, ts, channel)];
        MarkMeans(old(s), s, a.id, a.slot, before.now, ts, channel);
      }
      return true;
    }

    /**
     The delivery inside `handle_lifecycle`: every exception, the mark's included,
     releases the claim and escapes, and the process restarts at its committed offset.
     */
    method DeliverDirect() returns (ok: bool)
      requires Valid() && s.workers[me].phase.Trying?
      requires var a := s.workers[me].phase.attempt; a.origin.Direct? && a.progress.Claimed?
      modifies this
      ensures AtRest() && Continues()
      ensures ok ==> Handled(old(s).workers[me].part, old(s).workers[me].pos)
      ensures !ok ==> AtCommitted(old(s).workers[me].part)
      ensures steady && welcome ==> ok
      ensures var a := old(s).workers[me].phase.attempt;
        && (alone && ok ==> Marked(old(s), s, a.id, a.slot))
        && (alone && steady && !ok ==> Released(old(s), s, a.id, a.slot))
      ensures alone ==> old(s).now <= s.now
      ensures alone && ok ==> s.verdicts == old(s).verdicts[(old(s).workers[me].part, old(s).workers[me].pos) := Recorded]
    {
      ghost var a := s.workers[me].phase.attempt;
      var raised, before := Execute(ReadThread);
      if raised { Abandon(Raise); return false; }
      ReadResult(before, me, a);
      var answer := Deliver();
      Others();
      if !answer.Accepted? { Abandon(Raise); return false; }
      ok := AcceptAndMark(answer.ts, answer.channel);
      if !ok { Abandon(MarkRaises); }
    }

    /** The exception branch of the direct delivery: release, then let the exception end the process. */
    method Abandon(failure: Action)
      requires Valid() && s.workers[me].phase.Trying? && s.workers[me].phase.attempt.origin.Direct?
      requires failure == if s.workers[me].phase.attempt.progress.Sent? then MarkRaises else Raise
      requires !s.workers[me].phase.attempt.progress.Failing?
      modifies this
      ensures AtRest() && Continues() && AtCommitted(old(s).workers[me].part)
      ensures var a := old(s).workers[me].phase.attempt; alone && steady ==> Released(old(s), s, a.id, a.slot)
      ensures alone ==> old(s).now <= s.now
    {
      ghost var a := s.workers[me].phase.attempt;
      RaiseResult(s, me, a);
      Local(failure);
      var _, before := Execute(ReleaseClaim);
      ReleaseResult(before, me, a.(progress := Failing));
      Die();
    }

    /** The statements of the message's branch: they end it, or leave the worker with its direct claim. */
    method RunStatements(ev: Event, ghost begun: World) returns (ok: bool)
      requires Valid() && s.workers[me].phase == Handling(0, false) && HasMessage(s, s.workers[me])
      requires ev == s.topic[s.workers[me].part][s.workers[me].pos]
      requires alone ==> Making(begun, s, s.workers[me], ev, window)
      modifies this
      ensures Valid() && Continues()
      ensures alone && ok && ev.id != "" ==> MadeOn(begun, s, me, (old(s).workers[me].part, old(s).workers[me].pos), ev, window)
      ensures ok && s.workers[me].phase.Trying? ==> DirectlyAt(old(s).workers[me], ev)
      ensures ok && !s.workers[me].phase.Trying? ==> Handled(old(s).workers[me].part, old(s).workers[me].pos)
      ensures !ok ==> AtCommitted(old(s).workers[me].part)
      ensures steady ==> ok
      ensures alone && ok && s.workers[me].phase.Trying? ==> OwedIn(s.rows, (ev.id, OwnSlot(ev.kind)))
    {
      ghost var wk := s.workers[me];
      var statements := Statements(ev.kind);
      var stage := 0;
      while stage < statements
        invariant 0 <= stage <= statements
        invariant Valid() && Continues()
        invariant stage < statements ==>
          s.workers[me] == wk.(phase := s.workers[me].phase) && s.workers[me].phase.Handling? && s.workers[me].phase.stage == stage
        invariant stage == statements ==>
          if s.workers[me].phase.Trying? then DirectlyAt(wk, ev) else Handled(wk.part, wk.pos)
        invariant alone && !s.workers[me].phase.Idle? ==> OwesOnceRecorded(s, ev, stage)
        invariant alone && ev.id != "" ==> MadeOn(begun, s, me, (wk.part, wk.pos), ev, window)
      {
        ghost var mid := s;
        var raised, before := Execute(Handle(window));
        if raised { Die(); return false; }
        HandlerStage(before, me, ev, stage, window);
        if alone {
          HandlerOwes(before, me, ev, stage, window);
          if ev.id != "" { NextMade(begun, mid, before, me, ev, stage, window); }
        }
        stage := if s.workers[me].phase.Handling? then stage + 1 else statements;
      }
      return true;
    }

    /** The direct attempt of the message `wk` was handling has its claim. */
    ghost predicate DirectlyAt(wk: Worker, ev: Event)
      reads this
    {
      && Valid() && s.workers[me] == wk.(phase := s.workers[me].phase) && s.workers[me].phase.Trying?
      && (ev.kind == InProgress || ev.kind == Resolved)
      && var a := s.workers[me].phase.attempt;
      a.origin.Direct? && a.progress.Claimed? && a.id == ev.id
    }

    /** The direct delivery of the message whose handling began in `begun`. */
    method DeliverFor(ev: Event, ghost begun: World) returns (ok: bool)
      requires Valid() && DirectlyAt(s.workers[me], ev)
      requires alone ==> OwedIn(s.rows, (ev.id, OwnSlot(ev.kind)))
      requires alone && ev.id != "" ==> MadeOn(begun, s, me, (s.workers[me].part, s.workers[me].pos), ev, window)
      modifies this
      ensures AtRest() && Continues()
      ensures ok ==> Handled(old(s).workers[me].part, old(s).workers[me].pos)
      ensures !ok ==> AtCommitted(old(s).workers[me].part)
      ensures steady && welcome ==> ok
      ensures alone && steady && !ok ==> OwedIn(s.rows, (ev.id, OwnSlot(ev.kind)))
      ensures alone && ok && ev.id != "" ==>
        HandledAs(begun, s, (old(s).workers[me].part, old(s).workers[me].pos), ev, window)
      ensures alone && steady && !ok && ev.id != "" ==> GivenBack(begun, s, ev, window)
    {
      ghost var mid, wk := s, s.workers[me];
      ok := DeliverDirect();
      if alone && ev.id != "" { DirectMeans(begun, mid, s, me, (wk.part, wk.pos), ev, window, ok, steady); }
    }

    /**
     `handle_lifecycle` for the message at this worker's offset.  A normal
     return means the offset is done with a verdict that is true of the tables;
     when only a delivery failed, the message's work is still owed.
     */
    method HandleLifecycle(ev: Event) returns (ok: bool)
      requires AtRest() && HasMessage(s, s.workers[me])
      requires ev == s.topic[s.workers[me].part][s.workers[me].pos]
      modifies this
      ensures AtRest() && Continues()
      ensures ok ==> Handled(old(s).workers[me].part, old(s).workers[me].pos)
      ensures !ok ==> AtCommitted(old(s).workers[me].part)
      ensures steady && welcome ==> ok
      ensures alone && steady && !ok ==> OwedIn(s.rows, (ev.id, OwnSlot(ev.kind)))
      ensures alone && ok && ev.id != "" ==>
        HandledAs(old(s), s, (old(s).workers[me].part, old(s).workers[me].pos), ev, window)
      ensures alone && steady && !ok && ev.id != "" ==> GivenBack(old(s), s, ev, window)
      ensures ok && Init(origin) ==> TrueVerdict(old(s).workers[me].part, old(s).workers[me].pos)
    {
      ghost var was, wk := s, s.workers[me];
      var raised, before := Execute(Poll);
      if raised { Die(); return false; }
      if alone { MakingBegins(was, s, me, ev, window); }
      ok := RunStatements(ev, was);
      if ok && s.workers[me].phase.Trying? {
        ok := DeliverFor(ev, was);
      } else if ok && alone && ev.id != "" {
        UndeliveredMeans(was, s, me, (wk.part, wk.pos), ev, window);
      }
      if ok && Init(origin) { JustifiedNow(origin, run, wk.part, wk.pos); }
    }

    /** The verdict on a handled message is true of the tables, and a message given up missed its row. */
    ghost predicate TrueVerdict(part: nat, pos: nat)
      reads this
    {
      && Valid() && (part, pos) in s.verdicts && part < |s.topic| && pos < |s.topic[part]|
      && Justified(s, s.topic[part][pos], s.verdicts[(part, pos)])
      && (s.verdicts[(part, pos)] == NoRow ==> MissedAt(origin, run, (part, pos)))
    }

    /** The exception branch of the drain: release, then stop the pass if it was the budget, or let the exception escape. */
    method GiveBack(exhausted: bool) returns (o: Outcome)
      requires Valid() && s.workers[me].phase.Trying?
      requires var a := s.workers[me].phase.attempt; a.origin.Drain? && a.progress.Ready?
      modifies this
      ensures AtRest() && Continues() && !o.Done?
      ensures if o.Died? then AtCommitted(old(s).workers[me].part) else s.workers[me] == old(s).workers[me].(phase := Idle)
      ensures alone ==> old(s).now <= s.now
      ensures var a := old(s).workers[me].phase.attempt;
        alone && (o.Exhausted? || steady) ==> Released(old(s), s, a.id, a.slot)
    {
      ghost var a := s.workers[me].phase.attempt;
      RaiseResult(s, me, a);
      Local(Raise);
      var raised, before := Execute(ReleaseClaim);
      if !raised { ReleaseResult(before, me, a.(progress := Failing)); }
      if raised || !exhausted { Die(); return Died; }
      return Exhausted;
    }

    /** The drain's attempt after its claim. */
    method FinishDrain(id: Id, slot: Slot) returns (o: Outcome)
      requires Valid() && s.workers[me].phase.Trying?
      requires var a := s.workers[me].phase.attempt;
        a.origin.Drain? && a.progress.Ready? && a.id == id && a.slot == slot && a.thread == s.rows[id].slackTs
      modifies this
      ensures AtRest() && Continues() && o != Done(false)
      ensures if o.Died? then AtCommitted(old(s).workers[me].part) else s.workers[me] == old(s).workers[me].(phase := Idle)
      ensures steady && welcome ==> o.Done?
      ensures alone ==> old(s).now <= s.now
      ensures alone && o.Done? ==> Marked(old(s), s, id, slot)
      ensures alone && (o.Exhausted? || (o.Died? && steady)) ==> Released(old(s), s, id, slot)
    {
      var answer := Deliver();
      Others();
      if !answer.Accepted? {
        o := GiveBack(answer.BudgetExhausted?);
        return;
      }
      var marked := AcceptAndMark(answer.ts, answer.channel);
      if !marked { Die(); return Died; }
      return Done(true);
    }

    /** One slot of the drain: a lost claim skips it, an exhausted budget releases it, any other exception escapes. */
    method ClaimAndDeliver(id: Id, slot: Slot) returns (o: Outcome)
      requires AtRest()
      modifies this
      ensures AtRest() && Continues()
      ensures if o.Died? then AtCommitted(old(s).workers[me].part) else s.workers[me] == old(s).workers[me]
      ensures steady && welcome ==> o.Done?
      ensures alone && (o.Died? ==> steady) ==> Attempted(old(s), s, id, slot, o)
    {
      var raised, before := Execute(DrainClaim(id, slot));
      if raised { Die(); return Died; }
      DrainClaimResult(before, me, id, slot);
      if s.workers[me].phase.Idle? { return Done(false); }
      o := FinishDrain(id, slot);
      if alone && o.Done? { ClaimedThenMarked(old(s), before, s, id, slot); }
    }

    /** Both follow-ups of one incident, the progress update first. */
    method CatchUp(id: Id) returns (delivered: nat, o: Outcome)
      requires AtRest()
      modifies this
      ensures AtRest() && Continues()
      ensures if o.Died? then AtCommitted(old(s).workers[me].part) else s.workers[me] == old(s).workers[me]
      ensures steady && welcome ==> o.Done?
      ensures alone && (o.Died? ==> steady) && NoLiveLeases(old(s)) && id in old(s).rows ==>
        && NoLiveLeases(s) && Spared(old(s).rows, s.rows, {id}) && old(s).now <= s.now
        && (o.Done? ==> !Pending(s.rows[id]))
    {
      ghost var quiet := alone && NoLiveLeases(s) && id in s.rows;
      o := ClaimAndDeliver(id, Slot.Progress);
      if !o.Done? {
        if quiet && (o.Died? ==> steady) { HalfCaughtUp(old(s), s, id, o); }
        return 0, o;
      }
      delivered := if o.delivered then 1 else 0;
      ghost var first, mid := o, s;
      o := ClaimAndDeliver(id, Postmortem);
      if quiet && (o.Died? ==> steady) { CaughtUp(old(s), mid, s, id, first, o); }
      if o == Done(true) { delivered := delivered + 1; }
    }

    /** The loop of `drain_pending_followups`: a death ends the pass, an exhausted budget stops it. */
    method CatchUpEach(ids: seq<Id>) returns (delivered: nat, alive: bool)
      requires AtRest()
      modifies this
      ensures AtRest() && Continues()
      ensures if alive then s.workers[me] == old(s).workers[me] else AtCommitted(old(s).workers[me].part)
      ensures steady && welcome ==> alive
      ensures alone && (alive || steady) && NoLiveLeases(old(s)) && Ids(ids) <= old(s).rows.Keys ==>
        && NoLiveLeases(s) && Spared(old(s).rows, s.rows, Ids(ids)) && old(s).now <= s.now
        && (steady && welcome ==> forall id :: id in ids ==> !Pending(s.rows[id]))
    {
      ghost var quiet := alone && NoLiveLeases(s) && Ids(ids) <= s.rows.Keys;
      delivered, alive := 0, true;
      var i, going := 0, true;
      while i < |ids| && going
        invariant 0 <= i <= |ids| && AtRest() && Continues()
        invariant if alive then s.workers[me] == old(s).workers[me] else !going && AtCommitted(old(s).workers[me].part)
        invariant steady && welcome ==> going
        invariant quiet && (alive || steady) ==> CaughtTo(old(s), s, ids, i, going)
      {
        ghost var mid := s;
        var count, o := CatchUp(ids[i]);
        assert ids[i] in Ids(ids);
        if quiet && (o.Died? ==> steady) { CaughtNext(old(s), mid, s, ids, i, o.Done?); }
        delivered, going, alive := delivered + count, o.Done?, !o.Died?;
        i := i + 1;
      }
    }

    /**
     `drain_pending_followups`.  `start` is the state its query saw and `taken` the
     incidents it took: the earliest briefed ones, up to the limit.
     */
    method DrainPendingFollowUps(limit: nat) returns (delivered: nat, alive: bool, ghost start: World, ghost taken: seq<Id>)
      requires AtRest()
      modifies this
      ensures AtRest() && Continues()
      ensures if alive then s.workers[me] == old(s).workers[me] else AtCommitted(old(s).workers[me].part)
      ensures steady && welcome ==> alive
      ensures alone ==> start == old(s).(now := start.now) && old(s).now <= start.now
      ensures PendingAt(start.rows, start.now) <= BriefedTimes(start.rows).Keys
      ensures FirstBy(taken, PendingAt(start.rows, start.now), BriefedTimes(start.rows), limit)
      ensures alone && (alive || steady) && NoLiveLeases(old(s)) ==>
        NoLiveLeases(s) && Spared(old(s).rows, s.rows, Ids(taken)) && old(s).now <= s.now
      ensures alone && steady && welcome && NoLiveLeases(old(s)) ==>
        && Pendings(s.rows) == Pendings(old(s).rows) - Ids(taken)
        && PendingAt(start.rows, start.now) == Pendings(old(s).rows)
        && (|taken| < limit ==> FollowUpsSent(s))
    {
      Others();
      start := s;
      var ids := Select(PendingAt(s.rows, s.now), BriefedTimes(s.rows), limit);
      taken := ids;
      delivered, alive := CatchUpEach(ids);
      if alone && (alive || steady) && NoLiveLeases(old(s)) {
        FreeLater(old(s), start);
        FreeIsPending(start);
        if steady && welcome {
          assert forall id :: id in Ids(ids) ==> id in ids;
          CaughtExactly(start.rows, s.rows, Ids(ids));
          if |ids| < limit {
            AllTaken(ids, PendingAt(start.rows, start.now), BriefedTimes(start.rows), limit);
            NothingPending(s);
          }
        }
      }
    }

    /** The loop of `drain_due_briefs`. */
    method BriefEach(ids: seq<Id>) returns (delivered: nat, alive: bool)
      requires AtRest() && Distinct(ids)
      modifies this
      ensures AtRest() && Continues()
      ensures if alive then s.workers[me] == old(s).workers[me] else AtCommitted(old(s).workers[me].part)
      ensures steady && welcome ==> alive
      ensures alone && (alive || steady) && NoLiveLeases(old(s)) && Ids(ids) <= Owing(old(s).rows) ==>
        && NoLiveLeases(s) && delivered <= |ids| && BriefedAll(old(s).rows, s.rows, Ids(ids[..delivered]))
        && old(s).now <= s.now
        && (steady && welcome ==> delivered == |ids|)
    {
      ghost var quiet := alone && NoLiveLeases(s) && Ids(ids) <= Owing(s.rows);
      delivered, alive := 0, true;
      var i, going := 0, true;
      while i < |ids| && going
        invariant 0 <= i <= |ids| && AtRest() && Continues()
        invariant if alive then s.workers[me] == old(s).workers[me] else !going && AtCommitted(old(s).workers[me].part)
        invariant steady && welcome ==> going
        invariant quiet && (alive || steady) ==>
          NoLiveLeases(s) && delivered <= i && BriefedAll(old(s).rows, s.rows, Ids(ids[..delivered])) && old(s).now <= s.now
        invariant quiet && going ==> delivered == i
      {
        ghost var mid := s;
        assert ids[i] in Ids(ids) && ids[i] !in Ids(ids[..i]);
        var o := ClaimAndDeliver(ids[i], Brief);
        if quiet && (o.Died? ==> steady) {
          BriefedOne(old(s).rows, mid, s, ids, i, o);
          AttemptedLeases(mid, s, ids[i], Brief, o);
          if o.Done? { AttemptedExactly(mid, s, ids[i], Brief, o); }
        }
        if o == Done(true) { delivered := delivered + 1; }
        going, alive := o.Done?, !o.Died?;
        i := i + 1;
      }
    }

    /** The brief half of a pass: `start` is the state its query saw and `taken` the due briefs it took. */
    method DeliverDue(limit: nat) returns (delivered: nat, alive: bool, ghost start: World, ghost taken: seq<Id>)
      requires AtRest()
      modifies this
      ensures AtRest() && Continues()
      ensures if alive then s.workers[me] == old(s).workers[me] else AtCommitted(old(s).workers[me].part)
      ensures steady && welcome ==> alive
      ensures alone ==> start == old(s).(now := start.now) && old(s).now <= start.now
      ensures DueAt(start.rows, start.now) <= DueTimes(start.rows).Keys
      ensures FirstBy(taken, DueAt(start.rows, start.now), DueTimes(start.rows), limit)
      ensures alone && (alive || steady) && NoLiveLeases(old(s)) ==>
        NoLiveLeases(s) && Backlog(s.rows) <= Backlog(old(s).rows)
      ensures alone && steady && welcome && NoLiveLeases(old(s)) ==>
        BriefedAll(old(s).rows, s.rows, Ids(taken)) && delivered == |taken| && (delivered < limit ==> DueSent(old(s), s))
      ensures alone && (alive || steady) && NoLiveLeases(old(s)) ==> OnTime(old(s), s)
    {
      Others();
      start := s;
      if alone && NoLiveLeases(old(s)) { FreeLater(old(s), start); }
      var ids := Select(DueAt(s.rows, s.now), DueTimes(s.rows), limit);
      taken := ids;
      TakenOwe(s.rows, s.now, ids, |ids|);
      delivered, alive := BriefEach(ids);
      if alone && (alive || steady) && NoLiveLeases(old(s)) {
        TakenOwe(start.rows, start.now, ids, delivered);
        BriefedBacklog(start.rows, s.rows, Ids(ids[..delivered]));
        BriefsOnTime(old(s), start, s, Ids(ids[..delivered]));
        if delivered == |ids| {
          assert ids[..delivered] == ids;
          if |ids| < limit {
            AllTaken(ids, DueAt(start.rows, start.now), DueTimes(start.rows), limit);
            DueAreSent(old(s), start, s, Ids(ids));
          }
        }
      }
    }

    /**
     `drain_due_briefs`.  Alone and without foreign live leases the backlog never
     grows, whatever fails; when nothing fails, a pass that finds anything due
     shrinks it.
     */
    method DrainDueBriefs(limit: nat) returns (delivered: nat, alive: bool)
      requires AtRest()
      modifies this
      ensures AtRest() && Continues()
      ensures if alive then s.workers[me] == old(s).workers[me] else AtCommitted(old(s).workers[me].part)
      ensures steady && welcome ==> alive
      ensures alone && (alive || steady) && NoLiveLeases(old(s)) ==>
        NoLiveLeases(s) && Backlog(s.rows) <= Backlog(old(s).rows) && OnTime(old(s), s)
      ensures alone && steady && welcome && NoLiveLeases(old(s)) ==>
        && (limit > 0 && AnythingDue(old(s)) ==> Backlog(s.rows) < Backlog(old(s).rows))
        && (delivered < limit ==> DueSent(old(s), s))
    {
      ghost var start, briefs;
      delivered, alive, start, briefs := DeliverDue(limit);
      // An exhausted budget leaves the brief loop, not the pass.
      if alive {
        ghost var mid := s;
        var _, alive2, query, taken := DrainPendingFollowUps(limit);
        alive := alive2;
        if alone && (alive || steady) && NoLiveLeases(old(s)) {
          SparedBacklog(mid.rows, s.rows, Ids(taken));
          StillOnTime(old(s), mid, s, Ids(taken));
          if delivered < limit && steady && welcome { StillSent(old(s), mid, s, Ids(taken)); }
          if steady && welcome {
            PassShrinks(start, mid, query, s.rows, briefs, taken, limit);
            if AnythingDue(old(s)) { DueLater(old(s), start); }
          }
        }
      }
    }

    /**
     The idle ticks of the consumer while anything is due: when nothing fails, the
     work that is due runs out after no more passes than the backlog.
     */
    method DrainUntilQuiet(limit: nat) returns (passes: nat)
      requires AtRest() && alone && steady && welcome && NoLiveLeases(s) && limit > 0
      modifies this
      ensures AtRest() && Continues() && NoLiveLeases(s)
      ensures FollowUpsSent(s) && NothingOverdue(s) && passes + Backlog(s.rows) <= Backlog(old(s).rows)
    {
      passes := 0;
      while AnythingDue(s)
        invariant AtRest() && Continues() && NoLiveLeases(s)
        invariant passes + Backlog(s.rows) <= Backlog(old(s).rows)
        decreases Backlog(s.rows)
      {
        var _, _ := DrainDueBriefs(limit);
        passes := passes + 1;
      }
      NothingDue(s);
    }

    /** `handle_and_drain`: the handler, then anything already due.  The drain leaves the message's verdict standing. */
    method HandleAndDrain(ev: Event, limit: nat) returns (ok: bool)
      requires AtRest() && HasMessage(s, s.workers[me])
      requires ev == s.topic[s.workers[me].part][s.workers[me].pos]
      modifies this
      ensures AtRest() && Continues()
      ensures ok ==> Handled(old(s).workers[me].part, old(s).workers[me].pos)
      ensures ok && Init(origin) ==> TrueVerdict(old(s).workers[me].part, old(s).workers[me].pos)
      ensures !ok ==> AtCommitted(old(s).workers[me].part)
      ensures steady && welcome ==> ok
    {
      ghost var wk := s.workers[me];
      ok := HandleLifecycle(ev);
      if ok {
        ghost var handled := run;
        var _, alive := DrainDueBriefs(limit);
        ok := alive;
        VerdictsStayLonger(origin, handled, run);
        if ok && Init(origin) { JustifiedNow(origin, run, wk.part, wk.pos); }
      }
    }
  }

  /** What each step of an attempt makes of a given state. */
  lemma ReadResult(s: World, w: nat, a: Attempt)
    requires w < |s.workers| && s.workers[w].phase == Trying(a) && a.progress.Claimed? && a.id in s.rows
    ensures Next(s, Act(w, ReadThread)) == SetPhase(s, w, Trying(a.(progress := Ready, thread := s.rows[a.id].slackTs)))
  {
  }

  lemma AcceptResult(s: World, w: nat, a: Attempt, ts: Option<string>, channel: Option<string>)
    requires w < |s.workers| && s.workers[w].phase == Trying(a) && a.progress.Ready?
    ensures Next(s, Act(w, Accept(ts, channel))) ==
      SetPhase(s.(posts := s.posts + [Post(a.id, a.slot, if a.slot == Brief then None else a.thread, ts)]), w,
               Trying(a.(progress := Sent(ts, channel))))
  {
  }

  lemma RaiseResult(s: World, w: nat, a: Attempt)
    requires w < |s.workers| && s.workers[w].phase == Trying(a)
    ensures a.progress.Claimed? || a.progress.Ready? ==>
      Next(s, Act(w, Raise)) == SetPhase(s, w, Trying(a.(progress := Failing)))
    ensures a.progress.Sent? && a.origin.Direct? ==>
      Next(s, Act(w, MarkRaises)) == SetPhase(s.(lost := s.lost + multiset{(a.id, a.slot)}), w, Trying(a.(progress := Failing)))
  {
  }

  lemma MarkResult(s: World, w: nat, a: Attempt)
    requires w < |s.workers| && s.workers[w].phase == Trying(a) && a.progress.Sent? && a.id in s.rows
    ensures var t, wk := Next(s, Act(w, MarkDelivered)), s.workers[w];
      && t.rows == s.rows[a.id := Mark(s.rows[a.id], a.slot, s.now, a.progress.ts, a.progress.channel)]
      && t.now == s.now && t.posts == s.posts
      && (a.origin.Drain? ==> t.workers[w] == wk.(phase := Idle))
      && (a.origin.Direct? ==> t.verdicts == s.verdicts[(wk.part, wk.pos) := Recorded])
      && (a.origin.Direct? ==> t.workers[w] == Worker(wk.part, wk.pos + 1, Idle) && (wk.part, wk.pos) in t.verdicts)
  {
  }

  lemma MarkMeans(s: World, t: World, id: Id, slot: Slot, end: Time, ts: Option<string>, channel: Option<string>)
    requires id in s.rows && s.now <= end <= t.now && t.rows == s.rows[id := Mark(s.rows[id], slot, end, ts, channel)]
    requires t.posts == s.posts + [Post(id, slot, if slot == Brief then None else s.rows[id].slackTs, ts)]
    ensures Marked(s, t, id, slot)
  {
    assert DeliveredAs(s.rows[id], t.rows[id], slot, end, ts, channel);
  }

  lemma ReleaseResult(s: World, w: nat, a: Attempt)
    requires w < |s.workers| && s.workers[w].phase == Trying(a) && a.progress.Failing? && a.id in s.rows
    ensures var t, wk := Next(s, Act(w, ReleaseClaim)), s.workers[w];
      && t.rows == s.rows[a.id := Release(s.rows[a.id], a.slot)]
      && t.now == s.now && t.posts == s.posts && t.workers[w].part == wk.part
      && (a.origin.Drain? ==> t.workers[w] == wk.(phase := Idle))
  {
  }

  lemma DrainClaimResult(s: World, w: nat, id: Id, slot: Slot)
    requires w < |s.workers| && s.workers[w].phase.Idle?
    ensures var t := Next(s, Act(w, DrainClaim(id, slot)));
      if id in s.rows && DrainClaimable(s.rows[id], slot, s.now)
      then t == Start(s, w, id, slot, Drain) else t == s
  {
  }

  /** The drain's claim, then its mark, with nobody else about. */
  lemma ClaimedThenMarked(s: World, before: World, t: World, id: Id, slot: Slot)
    requires before == s.(now := before.now) && s.now <= before.now && id in s.rows && DrainClaimable(s.rows[id], slot, before.now)
    requires Marked(before.(rows := s.rows[id := Claim(s.rows[id], slot, before.now)], workers := s.workers), t, id, slot)
    ensures Settled(s, t, id, slot)
  {
    var r := Claim(s.rows[id], slot, before.now);
    assert MayTake(s.rows[id], slot, before.now) && LeaseIs(s.rows[id], r, slot, Some(before.now));
    assert Marked(s.(now := before.now, rows := s.rows[id := r]), t, id, slot);
  }

  /** Past its recording statement the handler's message has its work on the row, if there is a row. */
  predicate OwesOnceRecorded(s: World, ev: Event, stage: nat) {
    (ev.kind == InProgress && stage >= 4) || (ev.kind == Resolved && stage >= 3) ==>
      (ev.id in s.rows ==> s.rows[ev.id].Owed(OwnSlot(ev.kind)))
  }

  /** Where one statement of the handler leaves its worker: one statement on, done, or with its claim. */
  ghost predicate StageDone(s: World, t: World, w: nat, ev: Event, stage: nat) {
    && w < |s.workers| == |t.workers|
    && var wk, wk' := s.workers[w], t.workers[w];
    || (wk' == wk.(phase := wk'.phase) && wk'.phase.Handling? && wk'.phase.stage == stage + 1
        && stage + 1 < Statements(ev.kind))
    || (wk' == Worker(wk.part, wk.pos + 1, Idle) && (wk.part, wk.pos) in t.verdicts)
    || (wk' == wk.(phase := wk'.phase) && wk'.phase.Trying? && stage + 1 == Statements(ev.kind)
        && (ev.kind == InProgress || ev.kind == Resolved) && wk'.phase.attempt.id == ev.id
        && wk'.phase.attempt.origin.Direct? && wk'.phase.attempt.progress.Claimed?)
  }

  lemma OpenedStage(s: World, w: nat, ev: Event, stage: nat, window: Time)
    requires w < |s.workers| && ev.kind == Opened && stage < Statements(ev.kind)
    ensures StageDone(s, HandleOpened(s, w, ev, stage, window), w, ev, stage)
  {
  }

  lemma InProgressStage(s: World, w: nat, ev: Event, stage: nat, recorded: bool, window: Time)
    requires w < |s.workers| && ev.kind == InProgress && stage < Statements(ev.kind)
    ensures StageDone(s, HandleInProgress(s, w, ev, stage, recorded, window), w, ev, stage)
  {
  }

  lemma ResolvedStage(s: World, w: nat, ev: Event, stage: nat, recorded: bool)
    requires w < |s.workers| && ev.kind == Resolved && stage < Statements(ev.kind)
    ensures StageDone(s, HandleResolved(s, w, ev, stage, recorded), w, ev, stage)
  {
  }

  lemma HandlerStage(s: World, w: nat, ev: Event, stage: nat, window: Time)
    requires w < |s.workers| && s.workers[w].phase.Handling? && s.workers[w].phase.stage == stage
    requires HasMessage(s, s.workers[w]) && ev == s.topic[s.workers[w].part][s.workers[w].pos]
    requires stage < Statements(ev.kind)
    ensures StageDone(s, Next(s, Act(w, Handle(window))), w, ev, stage)
  {
    var recorded := s.workers[w].phase.recorded;
    match ev.kind {
      case Opened => OpenedStage(s, w, ev, stage, window);
      case InProgress => InProgressStage(s, w, ev, stage, recorded, window);
      case Resolved => ResolvedStage(s, w, ev, stage, recorded);
      case Other =>
    }
  }

  lemma HandlerOwes(s: World, w: nat, ev: Event, stage: nat, window: Time)
    requires w < |s.workers| && s.workers[w].phase.Handling? && s.workers[w].phase.stage == stage
    requires HasMessage(s, s.workers[w]) && ev == s.topic[s.workers[w].part][s.workers[w].pos]
    requires OwesOnceRecorded(s, ev, stage)
    ensures OwesOnceRecorded(Next(s, Act(w, Handle(window))), ev, stage + 1)
  {
    var wk, t := s.workers[w], Next(s, Act(w, Handle(window)));
    assert t == HandleNext(s, w, ev, stage, wk.phase.recorded, window);
    HandleOwes(s, w, ev, stage, wk.phase.recorded, window);
    assert OwedIn(t.rows, (ev.id, OwnSlot(ev.kind))) <== OwedIn(s.rows, (ev.id, OwnSlot(ev.kind)));
  }

  /** Time passes, then the handler's next statement runs. */
  lemma NextMade(begun: World, mid: World, before: World, w: nat, ev: Event, stage: nat, window: Time)
    requires w < |mid.workers| && Making(begun, mid, mid.workers[w], ev, window) && mid.workers[w].phase.stage == stage
    requires before == mid.(now := before.now) && mid.now <= before.now && ev.id != "" && stage < Statements(ev.kind)
    requires HasMessage(before, before.workers[w]) && ev == before.topic[before.workers[w].part][before.workers[w].pos]
    ensures MadeOn(begun, Next(before, Act(w, Handle(window))), w, (mid.workers[w].part, mid.workers[w].pos), ev, window)
  {
    MakingLater(begun, mid, before, w, ev, window);
    StatementMade(begun, before, w, (mid.workers[w].part, mid.workers[w].pos), ev, stage, window);
  }

  /** What the claim found, with what the delivery made of it. */
  lemma DirectMeans(begun: World, mid: World, t: World, w: nat, key: (nat, nat), ev: Event, window: Time, ok: bool, steady: bool)
    requires w < |mid.workers| && mid.workers[w].phase.Trying? && MadeOn(begun, mid, w, key, ev, window) && mid.now <= t.now
    requires var a := mid.workers[w].phase.attempt;
      && (ok ==> Marked(mid, t, a.id, a.slot) && t.verdicts == mid.verdicts[key := Recorded])
      && (!ok && steady ==> Released(mid, t, a.id, a.slot))
    ensures ok ==> HandledAs(begun, t, key, ev, window)
    ensures !ok && steady ==> GivenBack(begun, t, ev, window)
  {
    var made :| ClaimHeld(begun, mid, mid.workers[w], ev, made, window);
    if ok { DeliveredMeans(begun, mid, t, mid.workers[w], key, ev, made, window); }
    if !ok && steady { ReleasedMeans(begun, mid, t, mid.workers[w], ev, made, window); }
  }

  lemma UndeliveredMeans(begun: World, t: World, w: nat, key: (nat, nat), ev: Event, window: Time)
    requires w < |t.workers| && t.workers[w].phase.Idle? && MadeOn(begun, t, w, key, ev, window)
    ensures HandledAs(begun, t, key, ev, window)
  {
  }

  lemma JustifiedNow(origin: World, run: seq<Step>, part: nat, pos: nat)
    requires Init(origin) && (part, pos) in Exec(origin, run).verdicts
    ensures var t := Exec(origin, run);
      && part < |t.topic| && pos < |t.topic[part]| && Justified(t, t.topic[part][pos], t.verdicts[(part, pos)])
      && (t.verdicts[(part, pos)] == NoRow ==> MissedAt(origin, run, (part, pos)))
  {
    IntentRun(origin, run);
    var t, key := Exec(origin, run), (part, pos);
    assert Justified(t, t.topic[key.0][key.1], t.verdicts[key]);
    if t.verdicts[key] == NoRow { GivenUpMissed(origin, run, key); }
  }

  lemma VerdictsStay(s: World, step: Step)
    ensures s.verdicts.Keys <= Next(s, step).verdicts.Keys
  {
    if step.Act? && step.w < |s.workers| {
      var wk := s.workers[step.w];
      if wk.phase.Handling? && step.action.Handle? && HasMessage(s, wk) {
        var ev := s.topic[wk.part][wk.pos];
        StatementKeepsVerdicts(s, step.w, ev, wk.phase.stage, wk.phase.recorded, step.action.window);
      }
    }
  }

  lemma StatementKeepsVerdicts(s: World, w: nat, ev: Event, stage: nat, recorded: bool, window: Time)
    requires w < |s.workers|
    ensures s.verdicts.Keys <= HandleNext(s, w, ev, stage, recorded, window).verdicts.Keys
  {
  }

  lemma {:induction false} VerdictsStayAlong(s: World, run: seq<Step>)
    ensures s.verdicts.Keys <= Exec(s, run).verdicts.Keys
    decreases |run|
  {
    if run != [] {
      VerdictsStay(s, run[0]);
      VerdictsStayAlong(Next(s, run[0]), run[1..]);
    }
  }

  lemma VerdictsStayLonger(s: World, run: seq<Step>, longer: seq<Step>)
    requires run <= longer
    ensures Exec(s, run).verdicts.Keys <= Exec(s, longer).verdicts.Keys
  {
    assert longer == run + longer[|run|..];
    ExecAppend(s, run, longer[|run|..]);
    VerdictsStayAlong(Exec(s, run), longer[|run|..]);
  }

  lemma MineKeepsRow(s: World, w: nat, action: Action)
    requires w < |s.workers| && (s.workers[w].phase.Trying? ==> s.workers[w].phase.attempt.id in s.rows)
    ensures var t := ActNext(s, w, action);
      && |t.workers| == |s.workers| && t.topic == s.topic
      && (t.workers[w].phase.Trying? ==> t.workers[w].phase.attempt.id in t.rows)
  {
    var wk, t := s.workers[w], ActNext(s, w, action);
    if wk.phase.Trying? && !action.Crash? {
      assert t == TryNext(s, w, action, wk.phase.attempt);
      assert t.workers[w].phase.Trying? ==> t.workers[w].phase.attempt.id == wk.phase.attempt.id;
    }
  }
}
