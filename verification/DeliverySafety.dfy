/**
 Safety of the delivery protocol over whole runs: what the leases exclude, how
 often a slot can be posted, and under which brief a follow-up appears.
 */
module DeliverySafety {
  import opened Basics
  import opened Incidents
  import opened Delivery

  /** Every attempt in progress is at most one lease old. */
  ghost predicate Timely(s: World) {
    forall w :: 0 <= w < |s.workers| && s.workers[w].phase.Trying? ==> s.now - s.workers[w].phase.attempt.since <= LEASE
  }

  /** Every state a step of the run starts from is timely. */
  ghost predicate TimelyRun(s: World, run: seq<Step>)
    decreases |run|
  {
    run != [] ==> Timely(s) && TimelyRun(Next(s, run[0]), run[1..])
  }

  ghost predicate Holds(s: World, w: nat, id: Id, slot: Slot) {
    && w < |s.workers| && s.workers[w].phase.Trying?
    && s.workers[w].phase.attempt.id == id && s.workers[w].phase.attempt.slot == slot
  }

  /** An attempt in progress owns the row's lease for its slot, and the slot is still undelivered. */
  ghost predicate Leased(s: World, w: nat)
    requires w < |s.workers| && s.workers[w].phase.Trying?
  {
    var a := s.workers[w].phase.attempt;
    && a.id in s.rows
    && s.rows[a.id].Lease(a.slot) == Some(a.since)
    && a.since <= s.now
    && s.rows[a.id].Delivered(a.slot).None?
    && (a.slot != Brief ==> s.rows[a.id].briefDeliveredAt.Some?)
  }

  ghost predicate LeaseInv(s: World) {
    && (forall w :: 0 <= w < |s.workers| && s.workers[w].phase.Trying? ==> Leased(s, w))
    && Exclusive(s)
  }

  /** No two workers are attempting the same slot of the same incident. */
  ghost predicate Exclusive(s: World) {
    forall v, w :: 0 <= v < w < |s.workers| && s.workers[v].phase.Trying? && s.workers[w].phase.Trying? ==>
      (s.workers[v].phase.attempt.id, s.workers[v].phase.attempt.slot)
      != (s.workers[w].phase.attempt.id, s.workers[w].phase.attempt.slot)
  }

  /** Everything about a row that leases, deliveries and threads depend on. */
  ghost predicate SameDelivery(r: Row, r': Row) {
    && r'.openedAt == r.openedAt && r'.slackTs == r.slackTs
    && (forall slot: Slot :: r'.Lease(slot) == r.Lease(slot) && r'.Delivered(slot) == r.Delivered(slot))
    && (forall slot: Slot :: r.Owed(slot) ==> r'.Owed(slot))
  }

  ghost predicate SameDeliveries(rows: map<Id, Row>, rows': map<Id, Row>) {
    forall id :: id in rows ==> id in rows' && SameDelivery(rows[id], rows'[id])
  }

  /** The worker's attempt, if it has one, is an attempt it already had. */
  ghost predicate KeepsAttempt(p: Phase, p': Phase) {
    p'.Trying? ==>
      && p.Trying?
      && p'.attempt.id == p.attempt.id && p'.attempt.slot == p.attempt.slot && p'.attempt.since == p.attempt.since
  }

  /** A row no attempt has touched: all a fresh insert can look like. */
  ghost predicate Untouched(r: Row) {
    && r.slackTs.None?
    && (forall slot: Slot :: r.Lease(slot).None? && r.Delivered(slot).None?)
  }

  ghost predicate QuietRows(rows: map<Id, Row>, rows': map<Id, Row>) {
    SameDeliveries(rows, rows') && (forall id :: id in rows' && id !in rows ==> Untouched(rows'[id]))
  }

  /** A step that neither claims, marks nor releases. */
  ghost predicate Quiet(s: World, t: World) {
    && s.now <= t.now
    && QuietRows(s.rows, t.rows)
    && |t.workers| == |s.workers|
    && (forall w :: 0 <= w < |s.workers| ==> KeepsAttempt(s.workers[w].phase, t.workers[w].phase))
    && t.marks == s.marks
  }

  /** A step that starts an attempt. */
  ghost predicate Claims(s: World, t: World, w: nat, id: Id, slot: Slot) {
    && w < |s.workers| && !s.workers[w].phase.Trying?
    && id in s.rows && Claimable(s.rows[id], slot, s.now)
    && (exists origin :: t == Start(s, w, id, slot, origin))
  }

  /** A step that releases or marks the attempt of worker `w`. */
  ghost predicate Settles(s: World, t: World, w: nat, r': Row) {
    && w < |s.workers| && s.workers[w].phase.Trying?
    && var a := s.workers[w].phase.attempt;
    && a.id in s.rows && t.rows == s.rows[a.id := r']
    && t.now == s.now && |t.workers| == |s.workers|
    && !t.workers[w].phase.Trying?
    && (forall v :: 0 <= v < |s.workers| && v != w ==> t.workers[v] == s.workers[v])
  }

  /** A step that marks the posted attempt of worker `w`. */
  ghost predicate Marks(s: World, t: World, w: nat) {
    && w < |s.workers| && s.workers[w].phase.Trying?
    && var a := s.workers[w].phase.attempt;
    && a.progress.Sent? && a.id in s.rows
    && Settles(s, t, w, Mark(s.rows[a.id], a.slot, s.now, a.progress.ts, a.progress.channel))
    && t.marks == s.marks + multiset{(a.id, a.slot)}
  }

  lemma EnsureIsQuiet(rows: map<Id, Row>, id: Id, title: string, openedAt: Time, service: string)
    ensures QuietRows(rows, Ensure(rows, id, title, openedAt, service))
  {
  }

  lemma UpdateIsQuiet(rows: map<Id, Row>, id: Id, r': Row)
    requires id in rows && SameDelivery(rows[id], r')
    ensures QuietRows(rows, rows[id := r'])
  {
  }

  lemma QuietUpdates(r: Row, now: Time, window: Time, slot: Slot, at: Time)
    ensures SameDelivery(r, Schedule(r, now, window))
    ensures SameDelivery(r, Defer(r, slot))
    ensures SameDelivery(r, MarkResolved(r, at))
  {
  }

  /** One worker moves on without starting an attempt. */
  lemma QuietMove(s: World, t: World, w: nat, wk': Worker)
    requires w < |s.workers| && t.workers == s.workers[w := wk'] && KeepsAttempt(s.workers[w].phase, wk'.phase)
    requires t.now == s.now && t.marks == s.marks && QuietRows(s.rows, t.rows)
    ensures Quiet(s, t)
  {
  }

  /** The handler's last statement in both follow-up branches. */
  lemma DirectClaimShape(s: World, w: nat, id: Id, slot: Slot, recorded: bool)
    requires w < |s.workers| && !s.workers[w].phase.Trying?
    ensures var t := DirectClaim(s, w, id, slot, recorded);
      Quiet(s, t) || Claims(s, t, w, id, slot)
  {
    var t := DirectClaim(s, w, id, slot, recorded);
    if !(id in s.rows && Claimable(s.rows[id], slot, s.now)) {
      QuietMove(s, t, w, t.workers[w]);
    }
  }

  /** Every step of the handler is quiet, except the claim that ends a follow-up branch. */
  lemma HandleShape(s: World, w: nat, ev: Event, stage: nat, recorded: bool, window: Time)
    requires w < |s.workers| && s.workers[w].phase.Handling?
    ensures var t := HandleNext(s, w, ev, stage, recorded, window);
      Quiet(s, t) || (exists slot :: Claims(s, t, w, ev.id, slot))
  {
    var t := HandleNext(s, w, ev, stage, recorded, window);
    if ev.kind == InProgress && stage >= 4 {
      DirectClaimShape(s, w, ev.id, Slot.Progress, recorded);
    } else if ev.kind == Resolved && stage >= 3 {
      DirectClaimShape(s, w, ev.id, Postmortem, recorded);
    } else {
      HandleRowsQuiet(s, w, ev, stage, recorded, window);
      QuietMove(s, t, w, t.workers[w]);
    }
  }

  lemma OpenedRowsQuiet(s: World, w: nat, ev: Event, stage: nat, window: Time)
    requires w < |s.workers|
    ensures QuietRows(s.rows, HandleOpened(s, w, ev, stage, window).rows)
  {
    EnsureIsQuiet(s.rows, ev.id, ev.title, EventTs(ev, s.now), ev.service);
    if ev.id in s.rows {
      QuietUpdates(s.rows[ev.id], s.now, window, Brief, 0);
      UpdateIsQuiet(s.rows, ev.id, Schedule(s.rows[ev.id], s.now, window));
    }
  }

  lemma InProgressRowsQuiet(s: World, w: nat, ev: Event, stage: nat, recorded: bool, window: Time)
    requires w < |s.workers| && stage < 4
    ensures QuietRows(s.rows, HandleInProgress(s, w, ev, stage, recorded, window).rows)
  {
    if stage == 1 {
      EnsureIsQuiet(s.rows, ev.id, ev.title, EventTs(ev, s.now), ev.service);
    } else if stage >= 2 && ev.id in s.rows {
      var r := s.rows[ev.id];
      var r' := if stage == 2 then Schedule(r, s.now, window) else Defer(r, Slot.Progress);
      QuietUpdates(r, s.now, window, Slot.Progress, 0);
      UpdateIsQuiet(s.rows, ev.id, r');
    }
  }

  lemma ResolvedRowsQuiet(s: World, w: nat, ev: Event, stage: nat, recorded: bool)
    requires w < |s.workers| && stage < 3
    ensures QuietRows(s.rows, HandleResolved(s, w, ev, stage, recorded).rows)
  {
    if ev.id in s.rows {
      var r, at := s.rows[ev.id], EventTs(ev, s.now);
      QuietUpdates(r, s.now, 0, Postmortem, at);
      UpdateIsQuiet(s.rows, ev.id, if stage == 1 then MarkResolved(r, at) else Defer(r, Postmortem));
    }
  }

  lemma HandleRowsQuiet(s: World, w: nat, ev: Event, stage: nat, recorded: bool, window: Time)
    requires w < |s.workers|
    requires ev.kind == InProgress ==> stage < 4
    requires ev.kind == Resolved ==> stage < 3
    ensures QuietRows(s.rows, HandleNext(s, w, ev, stage, recorded, window).rows)
  {
    match ev.kind
    case Opened => OpenedRowsQuiet(s, w, ev, stage, window);
    case InProgress => InProgressRowsQuiet(s, w, ev, stage, recorded, window);
    case Resolved => ResolvedRowsQuiet(s, w, ev, stage, recorded);
    case Other =>
  }

  /** What one attempt does to the other slots of its row. */
  lemma OtherSlot(r: Row, slot: Slot, other: Slot, now: Time, ts: Option<string>, channel: Option<string>)
    requires slot != other
    ensures Claim(r, slot, now).Lease(other) == r.Lease(other) && Claim(r, slot, now).Delivered(other) == r.Delivered(other)
    ensures Release(r, slot).Lease(other) == r.Lease(other) && Release(r, slot).Delivered(other) == r.Delivered(other)
    ensures var m := Mark(r, slot, now, ts, channel);
      m.Lease(other) == r.Lease(other) && m.Delivered(other) == r.Delivered(other)
  {
  }

  lemma TryShape(s: World, w: nat, action: Action, a: Attempt)
    requires w < |s.workers| && s.workers[w].phase == Trying(a)
    ensures var t := TryNext(s, w, action, a);
      || Quiet(s, t)
      || (a.id in s.rows && Settles(s, t, w, Release(s.rows[a.id], a.slot)) && t.marks == s.marks)
      || Marks(s, t, w)
  {
    var t := TryNext(s, w, action, a);
    if action.ReleaseClaim? && a.progress.Failing? && a.id in s.rows {
    } else if action.MarkDelivered? && a.progress.Sent? && a.id in s.rows {
    } else {
      QuietMove(s, t, w, t.workers[w]);
    }
  }

  /** The four kinds of step, as far as leases go. */
  lemma StepShape(s: World, step: Step)
    ensures var t := Next(s, step);
      || Quiet(s, t)
      || (exists w, id, slot :: Claims(s, t, w, id, slot))
      || (step.Act? && step.w < |s.workers| && s.workers[step.w].phase.Trying?
          && var a := s.workers[step.w].phase.attempt;
          a.id in s.rows
          && ((Settles(s, t, step.w, Release(s.rows[a.id], a.slot)) && t.marks == s.marks) || Marks(s, t, step.w)))
  {
    var t := Next(s, step);
    match step
    case Tick(d) =>
    case Index(id, title, openedAt, service) => EnsureIsQuiet(s.rows, id, title, openedAt, service);
    case Act(w, action) =>
      if w < |s.workers| {
        var wk := s.workers[w];
        if action.Crash? {
          QuietMove(s, t, w, t.workers[w]);
        } else if wk.phase.Idle? {
          if action.DrainClaim? && action.id in s.rows && DrainClaimable(s.rows[action.id], action.slot, s.now) {
            assert Claims(s, t, w, action.id, action.slot);
          } else {
            QuietMove(s, t, w, t.workers[w]);
          }
        } else if wk.phase.Trying? {
          TryShape(s, w, action, wk.phase.attempt);
        } else if action.Handle? && HasMessage(s, wk) {
          HandleShape(s, w, s.topic[wk.part][wk.pos], wk.phase.stage, wk.phase.recorded, action.window);
        }
      }
  }

  /** The exact guard: while an attempt owns its lease, its slot can be claimed again if and only if the attempt is overlong. */
  lemma ReclaimedExactly(s: World, w: nat)
    requires w < |s.workers| && s.workers[w].phase.Trying? && Leased(s, w)
    ensures var a := s.workers[w].phase.attempt;
      Claimable(s.rows[a.id], a.slot, s.now) <==> s.now - a.since > LEASE
  {
    var a := s.workers[w].phase.attempt;
    assert s.rows[a.id].Lease(a.slot) == Some(a.since);
  }

  /** The step claims a slot that another worker is still attempting. */
  ghost predicate Overtakes(s: World, step: Step) {
    exists v: nat, w: nat, id, slot :: v != w && Claims(s, Next(s, step), v, id, slot) && Holds(s, w, id, slot)
  }

  ghost predicate Overtaken(s: World, run: seq<Step>)
    decreases |run|
  {
    run != [] && (Overtakes(s, run[0]) || Overtaken(Next(s, run[0]), run[1..]))
  }

  ghost predicate ExclusiveThroughout(s: World, run: seq<Step>)
    decreases |run|
  {
    Exclusive(s) && (run != [] ==> ExclusiveThroughout(Next(s, run[0]), run[1..]))
  }

  /** The overtaken attempt is overlong, so a timely state is never overtaken. */
  lemma OnlyOverlongIsOvertaken(s: World, step: Step)
    requires LeaseInv(s) && Overtakes(s, step)
    ensures !Timely(s)
  {
    var v: nat, w: nat, id, slot :| v != w && Claims(s, Next(s, step), v, id, slot) && Holds(s, w, id, slot);
    ReclaimedExactly(s, w);
  }

  lemma LeaseStep(s: World, step: Step)
    requires LeaseInv(s) && !Overtakes(s, step)
    ensures LeaseInv(Next(s, step))
  {
    StepShape(s, step);
    var t := Next(s, step);
    if Quiet(s, t) {
      QuietKeepsLeases(s, t);
    } else if exists w, id, slot :: Claims(s, t, w, id, slot) {
      var w, id, slot :| Claims(s, t, w, id, slot);
      ClaimKeepsLeases(s, t, w, id, slot);
    } else {
      var a := s.workers[step.w].phase.attempt;
      if Settles(s, t, step.w, Release(s.rows[a.id], a.slot)) {
        SettleKeepsLeases(s, t, step.w, Release(s.rows[a.id], a.slot));
      } else {
        SettleKeepsLeases(s, t, step.w, Mark(s.rows[a.id], a.slot, s.now, a.progress.ts, a.progress.channel));
      }
    }
  }

  /** When every attempt ends within its lease nothing is overtaken. */
  lemma {:induction false} TimelyIsNotOvertaken(s: World, run: seq<Step>)
    requires LeaseInv(s) && TimelyRun(s, run)
    ensures !Overtaken(s, run)
    decreases |run|
  {
    if run != [] {
      if Overtakes(s, run[0]) { OnlyOverlongIsOvertaken(s, run[0]); }
      LeaseStep(s, run[0]);
      TimelyIsNotOvertaken(Next(s, run[0]), run[1..]);
    }
  }

  lemma OvertakingBreaksExclusion(s: World, step: Step)
    requires Overtakes(s, step)
    ensures !Exclusive(Next(s, step))
  {
    var t := Next(s, step);
    var v: nat, w: nat, id, slot :| v != w && Claims(s, t, v, id, slot) && Holds(s, w, id, slot);
    var origin :| t == Start(s, v, id, slot, origin);
    assert Holds(t, v, id, slot) && Holds(t, w, id, slot);
    var lower, upper := if v < w then v else w, if v < w then w else v;
    assert 0 <= lower < upper < |t.workers| && t.workers[lower].phase.Trying? && t.workers[upper].phase.Trying?;
  }

  /** Every state of a run is free of double attempts if and only if no step of it overtakes. */
  lemma {:induction false} ExclusionExactly(s: World, run: seq<Step>)
    requires LeaseInv(s)
    ensures ExclusiveThroughout(s, run) <==> !Overtaken(s, run)
    decreases |run|
  {
    if run != [] {
      if Overtakes(s, run[0]) {
        OvertakingBreaksExclusion(s, run[0]);
      } else {
        LeaseStep(s, run[0]);
        ExclusionExactly(Next(s, run[0]), run[1..]);
      }
    }
  }

  lemma QuietKeepsLeases(s: World, t: World)
    requires LeaseInv(s) && Quiet(s, t)
    ensures LeaseInv(t)
  {
    forall w | 0 <= w < |t.workers| && t.workers[w].phase.Trying?
      ensures Leased(t, w)
    {
      assert KeepsAttempt(s.workers[w].phase, t.workers[w].phase);
      assert Leased(s, w);
      var id := s.workers[w].phase.attempt.id;
      assert t.rows[id].Delivered(Brief) == s.rows[id].Delivered(Brief);
    }
    forall v, w | 0 <= v < w < |t.workers| && t.workers[v].phase.Trying? && t.workers[w].phase.Trying?
      ensures (t.workers[v].phase.attempt.id, t.workers[v].phase.attempt.slot)
           != (t.workers[w].phase.attempt.id, t.workers[w].phase.attempt.slot)
    {
      assert KeepsAttempt(s.workers[v].phase, t.workers[v].phase);
      assert KeepsAttempt(s.workers[w].phase, t.workers[w].phase);
    }
  }

  lemma ClaimKeepsLeases(s: World, t: World, w: nat, id: Id, slot: Slot)
    requires LeaseInv(s) && Claims(s, t, w, id, slot)
    requires forall v: nat :: v != w ==> !Holds(s, v, id, slot)
    ensures LeaseInv(t)
  {
    var origin :| t == Start(s, w, id, slot, origin);
    assert t.rows == s.rows[id := Claim(s.rows[id], slot, s.now)];
    assert t.rows[id].Lease(slot) == Some(s.now) && t.rows[id].Delivered(slot) == s.rows[id].Delivered(slot);
    forall v | 0 <= v < |t.workers| && t.workers[v].phase.Trying?
      ensures Leased(t, v)
    {
      if v != w {
        assert Leased(s, v) && !Holds(s, v, id, slot);
        var b := s.workers[v].phase.attempt;
        if b.id == id { OtherSlot(s.rows[id], slot, b.slot, s.now, None, None); }
      }
    }
    forall u, v | 0 <= u < v < |t.workers| && t.workers[u].phase.Trying? && t.workers[v].phase.Trying?
      ensures (t.workers[u].phase.attempt.id, t.workers[u].phase.attempt.slot)
           != (t.workers[v].phase.attempt.id, t.workers[v].phase.attempt.slot)
    {
      if u == w { assert !Holds(s, v, id, slot); }
      else if v == w { assert !Holds(s, u, id, slot); }
    }
  }

  lemma SettleKeepsLeases(s: World, t: World, w: nat, r': Row)
    requires LeaseInv(s) && Settles(s, t, w, r')
    requires var a := s.workers[w].phase.attempt;
      || r' == Release(s.rows[a.id], a.slot)
      || (a.progress.Sent? && r' == Mark(s.rows[a.id], a.slot, s.now, a.progress.ts, a.progress.channel))
    ensures LeaseInv(t)
  {
    var a := s.workers[w].phase.attempt;
    forall v | 0 <= v < |t.workers| && t.workers[v].phase.Trying?
      ensures Leased(t, v)
    {
      assert v != w && Leased(s, v);
      var b := s.workers[v].phase.attempt;
      assert (b.id, b.slot) != (a.id, a.slot);
      if b.id == a.id && a.progress.Sent? {
        OtherSlot(s.rows[a.id], a.slot, b.slot, s.now, a.progress.ts, a.progress.channel);
      } else if b.id == a.id {
        OtherSlot(s.rows[a.id], a.slot, b.slot, s.now, None, None);
      }
    }
    forall u, v | 0 <= u < v < |t.workers| && t.workers[u].phase.Trying? && t.workers[v].phase.Trying?
      ensures (t.workers[u].phase.attempt.id, t.workers[u].phase.attempt.slot)
           != (t.workers[v].phase.attempt.id, t.workers[v].phase.attempt.slot)
    {
      assert u != w && v != w;
    }
  }
}
