/**
 Owed work survives.  Whatever crashes, failures, releases or redeliveries a run
 contains, work once recorded on a row stays recorded or done, and an offset is
 committed only after its message's intent was recorded or had nothing to record.
 No timing assumption is made here.
 */
module DeliveryIntent {
  import opened Basics
  import opened Incidents
  import opened Delivery
  import opened DeliverySafety

  /** What handling the message promises: an opening owes a brief, a follow-up its own post. */
  predicate Intent(rows: map<Id, Row>, ev: Event) {
    match ev.kind
    case Opened => ev.id in rows && rows[ev.id].Owed(Brief)
    case InProgress => ev.id in rows && rows[ev.id].Owed(Brief) && rows[ev.id].Owed(Slot.Progress)
    case Resolved => ev.id in rows && rows[ev.id].Owed(Postmortem)
    case Other => true
  }

  /** A verdict is true of the row it was given for, whenever one looks. */
  predicate Justified(s: World, ev: Event, verdict: Verdict) {
    match verdict
    case Recorded => Intent(s.rows, ev)
    case TooOld(at) => ev.kind == Opened && at <= s.now && at - EventTs(ev, at) > MAX_BRIEF_AGE
    case Stale(at) =>
      && (ev.kind == InProgress || ev.kind == Resolved)
      && at <= s.now && ev.id in s.rows && EventTs(ev, at) < s.rows[ev.id].openedAt
    case NoRow => ev.kind == Resolved || ev.id == ""
    case NoAction => ev.kind == Other
  }

  /** Rows are never removed, openings never move, and owed work stays owed or done. */
  ghost predicate Kept(rows: map<Id, Row>, rows': map<Id, Row>) {
    && (forall id :: id in rows ==>
          && id in rows'
          && rows'[id].openedAt == rows[id].openedAt
          && forall slot: Slot :: rows[id].Owed(slot) ==> rows'[id].Owed(slot))
    && ("" !in rows ==> "" !in rows')
  }

  lemma KeptQuiet(s: World, t: World)
    requires Quiet(s, t) && ("" !in s.rows ==> "" !in t.rows)
    ensures Kept(s.rows, t.rows)
  {
  }

  lemma KeptUpdate(rows: map<Id, Row>, id: Id, r': Row)
    requires id in rows && r'.openedAt == rows[id].openedAt && (forall slot: Slot :: rows[id].Owed(slot) ==> r'.Owed(slot))
    ensures Kept(rows, rows[id := r'])
  {
  }

  lemma ClaimKeepsOwed(r: Row, slot: Slot, now: Time)
    ensures forall other: Slot :: r.Owed(other) ==> Claim(r, slot, now).Owed(other) && Release(r, slot).Owed(other)
  {
  }

  lemma KeptStep(s: World, step: Step)
    ensures Kept(s.rows, Next(s, step).rows)
    ensures s.now <= Next(s, step).now
  {
    var t := Next(s, step);
    StepShape(s, step);
    UnnamedStep(s, step);
    if Quiet(s, t) {
      KeptQuiet(s, t);
    } else if exists w, id, slot :: Claims(s, t, w, id, slot) {
      var w, id, slot :| Claims(s, t, w, id, slot);
      KeptClaim(s, t, w, id, slot);
    } else {
      var a := s.workers[step.w].phase.attempt;
      ClaimKeepsOwed(s.rows[a.id], a.slot, s.now);
      KeptUpdate(s.rows, a.id, Release(s.rows[a.id], a.slot));
      if a.progress.Sent? {
        MarkKeepsOwed(s.rows[a.id], a.slot, s.now, a.progress.ts, a.progress.channel);
        KeptUpdate(s.rows, a.id, Mark(s.rows[a.id], a.slot, s.now, a.progress.ts, a.progress.channel));
      }
    }
  }

  lemma KeptClaim(s: World, t: World, w: nat, id: Id, slot: Slot)
    requires Claims(s, t, w, id, slot)
    ensures Kept(s.rows, t.rows) && t.now == s.now
  {
    var origin :| t == Start(s, w, id, slot, origin);
    ClaimKeepsOwed(s.rows[id], slot, s.now);
    KeptUpdate(s.rows, id, Claim(s.rows[id], slot, s.now));
  }

  lemma MarkKeepsOwed(r: Row, slot: Slot, now: Time, ts: Option<string>, channel: Option<string>)
    ensures forall other: Slot :: r.Owed(other) ==> Mark(r, slot, now, ts, channel).Owed(other)
  {
  }

  lemma UnnamedHandle(s: World, w: nat, ev: Event, stage: nat, recorded: bool, window: Time)
    requires w < |s.workers| && "" !in s.rows
    ensures "" !in HandleNext(s, w, ev, stage, recorded, window).rows
  {
  }

  /** No row is ever created for an empty incident id. */
  lemma UnnamedStep(s: World, step: Step)
    ensures "" !in s.rows ==> "" !in Next(s, step).rows
  {
    if step.Act? && step.w < |s.workers| && "" !in s.rows {
      var wk := s.workers[step.w];
      if wk.phase.Handling? && !step.action.Crash? && HasMessage(s, wk) && step.action.Handle? {
        UnnamedHandle(s, step.w, s.topic[wk.part][wk.pos], wk.phase.stage, wk.phase.recorded, step.action.window);
      }
    }
  }

  /** Work once recorded on a row stays recorded or done, through any run at all. */
  lemma {:induction false} OwedForever(s: World, run: seq<Step>, id: Id, slot: Slot)
    requires id in s.rows && s.rows[id].Owed(slot)
    ensures id in Exec(s, run).rows && Exec(s, run).rows[id].Owed(slot)
    decreases |run|
  {
    if run != [] {
      KeptStep(s, run[0]);
      OwedForever(Next(s, run[0]), run[1..], id, slot);
    }
  }

  /** What the statements executed so far have established for the message in hand. */
  predicate Underway(s: World, ev: Event, stage: nat, recorded: bool) {
    match ev.kind
    case Opened => stage >= 1 && ev.id != "" ==> ev.id in s.rows
    case InProgress =>
      && (stage >= 2 && ev.id != "" ==> ev.id in s.rows)
      && (stage >= 3 && ev.id != "" ==> s.rows[ev.id].Owed(Brief))
      && (stage >= 4 ==> recorded == (ev.id != ""))
      && (stage >= 4 && recorded ==> s.rows[ev.id].Owed(Slot.Progress))
    case Resolved => stage >= 3 && recorded ==> ev.id in s.rows && s.rows[ev.id].Owed(Postmortem)
    case Other => true
  }

  /** The direct attempt is at the follow-up its message asks for, on a row that exists. */
  predicate DirectFacts(s: World, ev: Event, a: Attempt) {
    && a.id == ev.id && ev.id in s.rows
    && ((ev.kind == InProgress && a.slot == Slot.Progress && s.rows[ev.id].Owed(Brief))
        || (ev.kind == Resolved && a.slot == Postmortem))
  }

  ghost predicate WorkerFacts(s: World, wk: Worker) {
    && (wk.part < |s.topic| ==> forall o: nat :: o < wk.pos ==> (wk.part, o) in s.verdicts)
    && (wk.phase.Handling? ==>
          HasMessage(s, wk) && Underway(s, s.topic[wk.part][wk.pos], wk.phase.stage, wk.phase.recorded))
    && (wk.phase.Trying? && wk.phase.attempt.origin.Direct? ==>
          HasMessage(s, wk) && DirectFacts(s, s.topic[wk.part][wk.pos], wk.phase.attempt))
  }

  ghost predicate Books(s: World) {
    && (forall key :: key in s.verdicts ==>
          key.0 < |s.topic| && key.1 < |s.topic[key.0]| && Justified(s, s.topic[key.0][key.1], s.verdicts[key]))
    && |s.committed| == |s.topic|
    && (forall p: nat, o: nat :: p < |s.committed| && o < s.committed[p] ==> (p, o) in s.verdicts)
  }

  ghost predicate IntentInv(s: World) {
    && "" !in s.rows
    && Books(s)
    && (forall w :: 0 <= w < |s.workers| ==> WorkerFacts(s, s.workers[w]))
  }

  /** One worker moved; rows were kept and verdicts only added. */
  ghost predicate Moves(s: World, t: World, w: nat) {
    && t.topic == s.topic && s.now <= t.now && Kept(s.rows, t.rows)
    && w < |s.workers| && |t.workers| == |s.workers| && t.workers == s.workers[w := t.workers[w]]
    && (forall key :: key in s.verdicts ==> key in t.verdicts)
  }

  lemma KeptFacts(s: World, t: World, wk: Worker)
    requires WorkerFacts(s, wk)
    requires t.topic == s.topic && Kept(s.rows, t.rows)
    requires forall key :: key in s.verdicts ==> key in t.verdicts
    ensures WorkerFacts(t, wk)
  {
  }

  lemma KeptJustified(s: World, t: World, ev: Event, verdict: Verdict)
    requires Justified(s, ev, verdict) && Kept(s.rows, t.rows) && s.now <= t.now
    ensures Justified(t, ev, verdict)
  {
  }

  lemma MoveKeepsIntent(s: World, t: World, w: nat)
    requires IntentInv(s) && Moves(s, t, w)
    requires WorkerFacts(t, t.workers[w]) && Books(t) && "" !in t.rows
    ensures IntentInv(t)
  {
    forall v | 0 <= v < |t.workers|
      ensures WorkerFacts(t, t.workers[v])
    {
      if v != w { KeptFacts(s, t, s.workers[v]); }
    }
  }

  /** Books whose only new entry is the offset worker `w` has just finished. */
  lemma FinishBooks(s: World, mid: World, w: nat, verdict: Verdict)
    requires IntentInv(s) && w < |s.workers| && HasMessage(s, s.workers[w])
    requires mid.workers == s.workers && mid.topic == s.topic && mid.committed == s.committed && mid.verdicts == s.verdicts
    requires Kept(s.rows, mid.rows) && s.now <= mid.now
    requires Justified(mid, s.topic[s.workers[w].part][s.workers[w].pos], verdict)
    ensures IntentInv(Finish(mid, w, verdict))
  {
    var t := Finish(mid, w, verdict);
    var wk := s.workers[w];
    forall key | key in t.verdicts
      ensures key.0 < |t.topic| && key.1 < |t.topic[key.0]| && Justified(t, t.topic[key.0][key.1], t.verdicts[key])
    {
      if key in s.verdicts { KeptJustified(s, t, s.topic[key.0][key.1], s.verdicts[key]); }
    }
    assert WorkerFacts(s, wk);
    assert t.workers[w].pos == wk.pos + 1;
    MoveKeepsIntent(s, t, w);
  }

  /** A statement that leaves the handler where it was, one stage on. */
  lemma StageBooks(s: World, t: World, w: nat)
    requires IntentInv(s) && Moves(s, t, w) && t.verdicts == s.verdicts && t.committed == s.committed
    requires WorkerFacts(t, t.workers[w])
    ensures IntentInv(t)
  {
    forall key | key in t.verdicts
      ensures Justified(t, t.topic[key.0][key.1], t.verdicts[key])
    {
      KeptJustified(s, t, s.topic[key.0][key.1], s.verdicts[key]);
    }
    MoveKeepsIntent(s, t, w);
  }

  lemma OpenedIntent(s: World, w: nat, ev: Event, stage: nat, window: Time)
    requires IntentInv(s) && w < |s.workers| && s.workers[w].phase.Handling? && s.workers[w].phase.stage == stage
    requires HasMessage(s, s.workers[w]) && ev == s.topic[s.workers[w].part][s.workers[w].pos] && ev.kind == Opened
    requires Kept(s.rows, HandleOpened(s, w, ev, stage, window).rows)
    ensures IntentInv(HandleOpened(s, w, ev, stage, window))
  {
    var t := HandleOpened(s, w, ev, stage, window);
    assert WorkerFacts(s, s.workers[w]);
    if stage == 0 {
      if s.now - EventTs(ev, s.now) > MAX_BRIEF_AGE { FinishBooks(s, s, w, TooOld(s.now)); }
      else { StageBooks(s, t, w); }
    } else if ev.id in s.rows {
      var mid := s.(rows := s.rows[ev.id := Schedule(s.rows[ev.id], s.now, window)]);
      FinishBooks(s, mid, w, Recorded);
    } else {
      FinishBooks(s, s, w, NoRow);
    }
  }

  lemma DirectIntent(s: World, w: nat, ev: Event, slot: Slot, recorded: bool)
    requires IntentInv(s) && w < |s.workers| && HasMessage(s, s.workers[w])
    requires ev == s.topic[s.workers[w].part][s.workers[w].pos] && Justified(s, ev, RecordedOr(recorded))
    requires (ev.kind == InProgress && slot == Slot.Progress) || (ev.kind == Resolved && slot == Postmortem)
    requires Kept(s.rows, DirectClaim(s, w, ev.id, slot, recorded).rows)
    ensures IntentInv(DirectClaim(s, w, ev.id, slot, recorded))
  {
    var t := DirectClaim(s, w, ev.id, slot, recorded);
    if ev.id in s.rows && Claimable(s.rows[ev.id], slot, s.now) {
      assert WorkerFacts(s, s.workers[w]);
      StageBooks(s, t, w);
    } else {
      FinishBooks(s, s, w, RecordedOr(recorded));
    }
  }

  lemma InProgressIntent(s: World, w: nat, ev: Event, stage: nat, recorded: bool, window: Time)
    requires IntentInv(s) && w < |s.workers| && s.workers[w].phase == Handling(stage, recorded)
    requires HasMessage(s, s.workers[w]) && ev == s.topic[s.workers[w].part][s.workers[w].pos] && ev.kind == InProgress
    requires Kept(s.rows, HandleInProgress(s, w, ev, stage, recorded, window).rows)
    ensures IntentInv(HandleInProgress(s, w, ev, stage, recorded, window))
  {
    var t := HandleInProgress(s, w, ev, stage, recorded, window);
    assert WorkerFacts(s, s.workers[w]);
    if stage == 0 && ev.id in s.rows && EventTs(ev, s.now) < s.rows[ev.id].openedAt {
      FinishBooks(s, s, w, Stale(s.now));
    } else if stage >= 4 {
      DirectIntent(s, w, ev, Slot.Progress, recorded);
    } else {
      StageBooks(s, t, w);
    }
  }

  lemma ResolvedIntent(s: World, w: nat, ev: Event, stage: nat, recorded: bool)
    requires IntentInv(s) && w < |s.workers| && s.workers[w].phase == Handling(stage, recorded)
    requires HasMessage(s, s.workers[w]) && ev == s.topic[s.workers[w].part][s.workers[w].pos] && ev.kind == Resolved
    requires Kept(s.rows, HandleResolved(s, w, ev, stage, recorded).rows)
    ensures IntentInv(HandleResolved(s, w, ev, stage, recorded))
  {
    var t := HandleResolved(s, w, ev, stage, recorded);
    assert WorkerFacts(s, s.workers[w]);
    if stage == 0 && ev.id in s.rows && EventTs(ev, s.now) < s.rows[ev.id].openedAt {
      FinishBooks(s, s, w, Stale(s.now));
    } else if stage >= 3 {
      DirectIntent(s, w, ev, Postmortem, recorded);
    } else {
      StageBooks(s, t, w);
    }
  }

  /** A step of an attempt that keeps the message in hand, or gives the worker a fresh start. */
  lemma AttemptBooks(s: World, t: World, w: nat)
    requires IntentInv(s) && w < |s.workers|
    requires t.topic == s.topic && t.now == s.now && t.verdicts == s.verdicts && t.committed == s.committed
    requires Kept(s.rows, t.rows) && |t.workers| == |s.workers| && t.workers == s.workers[w := t.workers[w]]
    requires s.workers[w].phase.Trying?
    requires var wk, wk' := s.workers[w], t.workers[w];
      || (wk'.phase.Trying? && wk' == wk.(phase := wk'.phase) && wk'.phase.attempt.origin == wk.phase.attempt.origin
          && wk'.phase.attempt.id == wk.phase.attempt.id && wk'.phase.attempt.slot == wk.phase.attempt.slot)
      || (wk'.phase.Idle? && wk' == wk.(phase := Idle))
      || (wk'.phase.Idle? && wk' == Worker(wk.part, if wk.part < |s.committed| then s.committed[wk.part] else 0, Idle))
    ensures IntentInv(t)
  {
    assert WorkerFacts(s, s.workers[w]);
    StageBooks(s, t, w);
  }

  lemma MarkIntent(s: World, w: nat, a: Attempt)
    requires IntentInv(s) && w < |s.workers| && s.workers[w].phase == Trying(a)
    requires a.progress.Sent? && a.id in s.rows
    requires Kept(s.rows, TryNext(s, w, MarkDelivered, a).rows)
    ensures IntentInv(TryNext(s, w, MarkDelivered, a))
  {
    var r := Mark(s.rows[a.id], a.slot, s.now, a.progress.ts, a.progress.channel);
    var mid := s.(rows := s.rows[a.id := r], marks := s.marks + multiset{(a.id, a.slot)});
    if a.origin.Direct? {
      var ev := s.topic[s.workers[w].part][s.workers[w].pos];
      assert WorkerFacts(s, s.workers[w]);
      FinishBooks(s, mid, w, Recorded);
    } else {
      AttemptBooks(s, SetPhase(mid, w, Idle), w);
    }
  }

  /** An attempt that ends without a mark: its row is kept, and the worker is idle or starts over. */
  lemma EndIntent(s: World, w: nat, action: Action, a: Attempt)
    requires IntentInv(s) && w < |s.workers| && s.workers[w].phase == Trying(a)
    requires action.MarkRaises? || action.ReleaseClaim?
    requires Kept(s.rows, TryNext(s, w, action, a).rows)
    ensures IntentInv(TryNext(s, w, action, a))
  {
    var t := TryNext(s, w, action, a);
    if t != s { AttemptBooks(s, t, w); }
  }

  lemma TryIntent(s: World, w: nat, action: Action, a: Attempt)
    requires IntentInv(s) && w < |s.workers| && s.workers[w].phase == Trying(a)
    requires Kept(s.rows, TryNext(s, w, action, a).rows)
    ensures IntentInv(TryNext(s, w, action, a))
  {
    if action.MarkDelivered? {
      if a.progress.Sent? && a.id in s.rows { MarkIntent(s, w, a); }
    } else if action.MarkRaises? || action.ReleaseClaim? {
      EndIntent(s, w, action, a);
    } else {
      var t := TryNext(s, w, action, a);
      if t != s { AttemptBooks(s, t, w); }
    }
  }

  lemma CommitIntent(s: World, w: nat)
    requires IntentInv(s) && w < |s.workers| && s.workers[w].part < |s.committed|
    ensures IntentInv(s.(committed := s.committed[s.workers[w].part := s.workers[w].pos]))
  {
    var t := s.(committed := s.committed[s.workers[w].part := s.workers[w].pos]);
    assert WorkerFacts(s, s.workers[w]);
    forall v | 0 <= v < |t.workers|
      ensures WorkerFacts(t, t.workers[v])
    {
      KeptFacts(s, t, s.workers[v]);
    }
  }

  lemma ActIntent(s: World, w: nat, action: Action)
    requires IntentInv(s) && w < |s.workers| && Kept(s.rows, ActNext(s, w, action).rows)
    ensures IntentInv(ActNext(s, w, action))
  {
    var wk, t := s.workers[w], ActNext(s, w, action);
    assert WorkerFacts(s, wk);
    if action.Crash? {
      StageBooks(s, t, w);
    } else if wk.phase.Idle? {
      if action.Commit? && wk.part < |s.committed| { CommitIntent(s, w); }
      else { StageBooks(s, t, w); }
    } else if wk.phase.Trying? {
      TryIntent(s, w, action, wk.phase.attempt);
    } else if action.Handle? && HasMessage(s, wk) {
      var ev := s.topic[wk.part][wk.pos];
      match ev.kind
      case Opened => OpenedIntent(s, w, ev, wk.phase.stage, action.window);
      case InProgress => InProgressIntent(s, w, ev, wk.phase.stage, wk.phase.recorded, action.window);
      case Resolved => ResolvedIntent(s, w, ev, wk.phase.stage, wk.phase.recorded);
      case Other => FinishBooks(s, s, w, NoAction);
    }
  }

  lemma IntentStep(s: World, step: Step)
    requires IntentInv(s)
    ensures IntentInv(Next(s, step))
  {
    var t := Next(s, step);
    KeptStep(s, step);
    if step.Act? && step.w < |s.workers| {
      ActIntent(s, step.w, step.action);
    } else {
      forall v | 0 <= v < |t.workers|
        ensures WorkerFacts(t, t.workers[v])
      {
        KeptFacts(s, t, s.workers[v]);
      }
      forall key | key in t.verdicts
        ensures Justified(t, t.topic[key.0][key.1], t.verdicts[key])
      {
        KeptJustified(s, t, s.topic[key.0][key.1], s.verdicts[key]);
      }
    }
  }

  lemma {:induction false} IntentRun(s: World, run: seq<Step>)
    requires IntentInv(s)
    ensures IntentInv(Exec(s, run))
    decreases |run|
  {
    if run != [] {
      IntentStep(s, run[0]);
      IntentRun(Next(s, run[0]), run[1..]);
    }
  }

  /**
   The one message whose intent can be lost: a resolution that arrives before
   anything created the row.  Its offset is committed, and when the row appears
   it owes no postmortem.
   */
  lemma ResolvedBeforeRow() returns (s: World, t: World)
    ensures Init(s) && Reaches(s, t)
    ensures t.committed == [1] && t.topic == [[Event(Resolved, "p:1", "p", Some(5), "t")]]
    ensures "p:1" in t.rows && !t.rows["p:1"].Owed(Postmortem)
  {
    var ev := Event(Resolved, "p:1", "p", Some(5), "t");
    s := World(9, map[], [], [Worker(0, 0, Idle)], [[ev]], [0], map[], multiset{}, multiset{});
    MissingHandled(s, ev);
    var done := Finish(Missing(s, 3), 0, NoRow);
    ReachesNext(s, done, Act(0, Commit));
    t := Next(done, Act(0, Commit));
    ReachesNext(s, t, Index("p:1", "t", 1, "p"));
    t := Next(t, Index("p:1", "t", 1, "p"));
  }

  /** The whole handling of a resolution whose incident has no row. */
  lemma MissingHandled(s: World, ev: Event)
    requires |s.workers| == 1 && s.workers[0].phase == Idle && s.rows == map[] && ev.kind == Resolved
    requires HasMessage(s, s.workers[0]) && ev == s.topic[s.workers[0].part][s.workers[0].pos]
    ensures Reaches(s, Finish(Missing(s, 3), 0, NoRow))
  {
    ReachesSelf(s);
    ReachesNext(s, s, Act(0, Poll));
    assert Next(s, Act(0, Poll)) == Missing(s, 0);
    for stage := 0 to 3
      invariant Reaches(s, Missing(s, stage))
    {
      MissingStep(s, stage, ev);
      ReachesNext(s, Missing(s, stage), Act(0, Handle(0)));
    }
    MissingFinish(s, ev);
    ReachesNext(s, Missing(s, 3), Act(0, Handle(0)));
  }

  /** One worker handling a resolution of an incident without a row. */
  function Missing(s: World, stage: nat): World
    requires |s.workers| == 1
  {
    s.(workers := [s.workers[0].(phase := Handling(stage, false))])
  }

  lemma MissingStep(s: World, stage: nat, ev: Event)
    requires |s.workers| == 1 && s.rows == map[] && ev.kind == Resolved && stage < 3
    requires HasMessage(s, s.workers[0]) && ev == s.topic[s.workers[0].part][s.workers[0].pos]
    ensures Next(Missing(s, stage), Act(0, Handle(0))) == Missing(s, stage + 1)
  {
    assert Next(Missing(s, stage), Act(0, Handle(0))) == HandleResolved(Missing(s, stage), 0, ev, stage, false);
  }

  lemma MissingFinish(s: World, ev: Event)
    requires |s.workers| == 1 && s.rows == map[] && ev.kind == Resolved
    requires HasMessage(s, s.workers[0]) && ev == s.topic[s.workers[0].part][s.workers[0].pos]
    ensures Next(Missing(s, 3), Act(0, Handle(0))) == Finish(Missing(s, 3), 0, NoRow)
  {
    assert Next(Missing(s, 3), Act(0, Handle(0))) == HandleResolved(Missing(s, 3), 0, ev, 3, false);
  }
}
