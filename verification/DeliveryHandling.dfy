/**
 What handling one message does to the incidents table when nobody else acts: every
 field of the message's row, in terms of the row as it was, the message and the time
 the handling took.  Nothing here refers to the statements; that they have this
 effect is what is proved.
 */
module DeliveryHandling {
  import opened Basics
  import opened Incidents
  import opened Delivery
  import opened DrainBacklog

  /** The message's own stamp, or some moment of the handling when it does not parse. */
  predicate StampWithin(ev: Event, from: Time, to: Time, at: Time) {
    if ev.ts.Some? then at == ev.ts.value else from <= at <= to
  }

  predicate FollowUp(kind: Kind) {
    kind == InProgress || kind == Resolved
  }

  // ----- how far the handling has come

  predicate RowEnsured(kind: Kind, stage: nat) {
    (kind == Opened && stage >= 1) || (kind == InProgress && stage >= 2)
  }

  predicate BriefScheduled(kind: Kind, stage: nat) {
    (kind == Opened && stage >= 2) || (kind == InProgress && stage >= 3)
  }

  predicate ResolutionNoted(kind: Kind, stage: nat) {
    kind == Resolved && stage >= 2
  }

  predicate FollowUpDeferred(kind: Kind, stage: nat) {
    (kind == InProgress && stage >= 4) || (kind == Resolved && stage >= 3)
  }

  /** A row with nothing on it but its opening. */
  function Bare(title: string, openedAt: Time, service: string): Row {
    Row(title := title, openedAt := openedAt, resolvedAt := None, service := Some(service),
        briefDueAt := None, briefedAt := None, briefDeliveredAt := None,
        progressNeeded := false, progressAt := None, progressDeliveredAt := None,
        postmortemNeeded := false, postmortemAt := None, postmortemDeliveredAt := None,
        slackTs := None, slackChannel := None)
  }

  /** The message's row after so many statements: every field that may have changed, and that no other has. */
  predicate RowMade(r: Row, r': Row, ev: Event, stage: nat, from: Time, to: Time, window: Time) {
    && r' == r.(title := r'.title, service := r'.service, resolvedAt := r'.resolvedAt, briefDueAt := r'.briefDueAt,
                progressNeeded := r'.progressNeeded, postmortemNeeded := r'.postmortemNeeded)
    && r'.title == (if r.title == "" && RowEnsured(ev.kind, stage) then ev.title else r.title)
    && r'.service == (if r.service.None? && RowEnsured(ev.kind, stage) then Some(ev.service) else r.service)
    && (if r.resolvedAt.None? && ResolutionNoted(ev.kind, stage)
        then r'.resolvedAt.Some? && StampWithin(ev, from, to, r'.resolvedAt.value)
        else r'.resolvedAt == r.resolvedAt)
    && (if r.briefDeliveredAt.None? && r.briefDueAt.None? && BriefScheduled(ev.kind, stage)
        then r'.briefDueAt.Some? && from + window <= r'.briefDueAt.value <= to + window
        else r'.briefDueAt == r.briefDueAt)
    && (r'.progressNeeded <==>
          r.progressNeeded || (ev.kind == InProgress && FollowUpDeferred(ev.kind, stage) && r.progressDeliveredAt.None?))
    && (r'.postmortemNeeded <==>
          r.postmortemNeeded || (ev.kind == Resolved && FollowUpDeferred(ev.kind, stage) && r.postmortemDeliveredAt.None?))
  }

  /** Only the message's row differs, and it is what the statements so far make of it. */
  predicate RowsMade(a: World, s: World, ev: Event, stage: nat, window: Time) {
    && a.now <= s.now
    && (ev.id in s.rows <==> ev.id in a.rows || (RowEnsured(ev.kind, stage) && ev.id != ""))
    && (if ev.id in s.rows
        then s.rows == a.rows[ev.id := s.rows[ev.id]]
             && (if ev.id in a.rows
                 then RowMade(a.rows[ev.id], s.rows[ev.id], ev, stage, a.now, s.now, window)
                 else StampWithin(ev, a.now, s.now, s.rows[ev.id].openedAt)
                      && RowMade(Bare(ev.title, s.rows[ev.id].openedAt, ev.service), s.rows[ev.id], ev, stage, a.now, s.now, window))
        else s.rows == a.rows)
  }

  /** An opening more than a day old, a follow-up older than the row's opening. */
  predicate RefusedAs(a: World, t: World, ev: Event, verdict: Verdict) {
    match verdict
    case TooOld(at) => ev.kind == Opened && a.now <= at <= t.now && ev.ts.Some? && at - ev.ts.value > 24 * HOUR
    case Stale(at) =>
      && FollowUp(ev.kind) && a.now <= at <= t.now && ev.id in a.rows
      && (if ev.ts.Some? then ev.ts.value else at) < a.rows[ev.id].openedAt
    case NoRow => ev.id !in a.rows && (ev.kind == Resolved || ev.id == "")
    case NoAction => ev.kind == Other
    case Recorded => false
  }

  /** Neither of the two refusals would have been right when the handling began. */
  predicate Due(a: World, t: World, ev: Event) {
    && (ev.kind == Opened && ev.ts.Some? ==> a.now - ev.ts.value <= 24 * HOUR)
    && (FollowUp(ev.kind) && ev.id in a.rows ==>
          a.rows[ev.id].openedAt <= if ev.ts.Some? then ev.ts.value else t.now)
  }

  /** The number of statements of a message's branch before its claim. */
  function LastStage(kind: Kind): nat {
    match kind
    case Opened => 2
    case InProgress => 4
    case Resolved => 3
    case Other => 0
  }

  /** The message's follow-up slot of the row. */
  function SlotOf(kind: Kind): Slot {
    if kind == InProgress then Slot.Progress else Postmortem
  }

  /** The row can take the message's follow-up: it is briefed, the follow-up is not delivered and its lease is free. */
  predicate MayDeliver(r: Row, ev: Event, now: Time) {
    && FollowUp(ev.kind) && r.briefDeliveredAt.Some?
    && (ev.kind == InProgress ==> r.progressDeliveredAt.None? && (r.progressAt.None? || r.progressAt.value < now - 15 * MINUTE))
    && (ev.kind == Resolved ==> r.postmortemDeliveredAt.None? && (r.postmortemAt.None? || r.postmortemAt.value < now - 15 * MINUTE))
  }

  // ----- where the handling stands and how it ends

  /** The handler is at a statement of the message, with the table as it should be there. */
  predicate Making(a: World, s: World, wk: Worker, ev: Event, window: Time) {
    && wk.phase.Handling? && wk.phase.stage <= LastStage(ev.kind)
    && RowsMade(a, s, ev, wk.phase.stage, window) && s.posts == a.posts && s.verdicts == a.verdicts
    && (wk.phase.stage >= 1 ==> Due(a, s, ev))
    && (FollowUp(ev.kind) && wk.phase.stage == LastStage(ev.kind) ==> (wk.phase.recorded <==> ev.id in s.rows))
  }

  /** The history has one more ending; that a message was once recorded stays on it. */
  predicate Noted(a: World, t: World, key: (nat, nat), verdict: Verdict) {
    t.verdicts == a.verdicts[key := if key in a.verdicts && a.verdicts[key].Recorded? then Recorded else verdict]
  }

  /** The handler is through with the message without having tried a delivery. */
  predicate MadeUp(a: World, t: World, key: (nat, nat), ev: Event, verdict: Verdict, window: Time) {
    && Noted(a, t, key, verdict) && t.posts == a.posts
    && if verdict.Recorded?
       then RowsMade(a, t, ev, LastStage(ev.kind), window) && Due(a, t, ev) && ev.id in t.rows && !MayDeliver(t.rows[ev.id], ev, t.now)
       else a.now <= t.now && t.rows == a.rows && RefusedAs(a, t, ev, verdict)
  }

  /** All statements before the claim are done and leave `made` as the message's row; `s` differs from that in this row only. */
  predicate MadeReady(a: World, s: World, ev: Event, made: Row, window: Time) {
    && FollowUp(ev.kind) && ev.id in s.rows && Due(a, s, ev) && MayDeliver(made, ev, s.now)
    && RowsMade(a, s.(rows := s.rows[ev.id := made]), ev, LastStage(ev.kind), window)
  }

  /** The message's follow-up was claimed at one moment of the handling and, unless it was given back, delivered at a later one. */
  predicate FollowUpTaken(made: Row, r: Row, ev: Event, lease: Option<Time>, delivered: Option<Time>) {
    if ev.kind == InProgress
    then r == made.(progressAt := lease, progressDeliveredAt := delivered, progressNeeded := made.progressNeeded && delivered.None?)
    else r == made.(postmortemAt := lease, postmortemDeliveredAt := delivered, postmortemNeeded := made.postmortemNeeded && delivered.None?)
  }

  predicate ClaimHeld(a: World, t: World, wk: Worker, ev: Event, made: Row, window: Time) {
    && wk.phase.Trying? && wk.phase.attempt.id == ev.id && wk.phase.attempt.slot == SlotOf(ev.kind)
    && MadeReady(a, t, ev, made, window) && t.posts == a.posts && t.verdicts == a.verdicts
    && a.now <= wk.phase.attempt.since <= t.now
    && FollowUpTaken(made, t.rows[ev.id], ev, Some(wk.phase.attempt.since), None)
  }

  /** Where one statement leaves the worker and its message. */
  ghost predicate MadeOn(a: World, t: World, w: nat, key: (nat, nat), ev: Event, window: Time) {
    && w < |t.workers|
    && var wk := t.workers[w];
    && (wk.phase.Handling? ==> Making(a, t, wk, ev, window))
    && (wk.phase.Idle? ==> exists verdict :: MadeUp(a, t, key, ev, verdict, window))
    && (wk.phase.Trying? ==> exists made :: ClaimHeld(a, t, wk, ev, made, window))
  }

  // ----- one statement each

  predicate AtStage(a: World, s: World, w: nat, key: (nat, nat), ev: Event, stage: nat, window: Time) {
    && w < |s.workers| && ev.id != "" && Making(a, s, s.workers[w], ev, window) && s.workers[w].phase.stage == stage
    && key == (s.workers[w].part, s.workers[w].pos)
  }

  lemma ScheduleRow(r: Row, r': Row, ev: Event, stage: nat, from: Time, now: Time, window: Time)
    requires from <= now && RowMade(r, r', ev, stage, from, now, window)
    requires (ev.kind == Opened && stage == 1) || (ev.kind == InProgress && stage == 2)
    ensures RowMade(r, Schedule(r', now, window), ev, stage + 1, from, now, window)
  {
  }

  lemma ScheduleMade(a: World, s: World, ev: Event, stage: nat, window: Time)
    requires ev.id in s.rows && RowsMade(a, s, ev, stage, window)
    requires (ev.kind == Opened && stage == 1) || (ev.kind == InProgress && stage == 2)
    ensures RowsMade(a, s.(rows := s.rows[ev.id := Schedule(s.rows[ev.id], s.now, window)]), ev, stage + 1, window)
  {
    var r := s.rows[ev.id];
    ScheduleRow(if ev.id in a.rows then a.rows[ev.id] else Bare(ev.title, r.openedAt, ev.service), r, ev, stage, a.now, s.now, window);
  }

  lemma OpenedEnsures(a: World, s: World, w: nat, key: (nat, nat), ev: Event, window: Time)
    requires AtStage(a, s, w, key, ev, 0, window) && ev.kind == Opened
    ensures MadeOn(a, HandleOpened(s, w, ev, 0, window), w, key, ev, window)
  {
    var t := HandleOpened(s, w, ev, 0, window);
    assert t.workers[w].phase.Idle? ==> MadeUp(a, t, key, ev, TooOld(s.now), window);
  }

  lemma OpenedSchedules(a: World, s: World, w: nat, key: (nat, nat), ev: Event, window: Time)
    requires AtStage(a, s, w, key, ev, 1, window) && ev.kind == Opened
    ensures MadeOn(a, HandleOpened(s, w, ev, 1, window), w, key, ev, window)
  {
    ScheduleMade(a, s, ev, 1, window);
    var t := HandleOpened(s, w, ev, 1, window);
    assert MadeUp(a, t, key, ev, Recorded, window);
  }

  lemma InProgressChecks(a: World, s: World, w: nat, key: (nat, nat), ev: Event, recorded: bool, window: Time)
    requires AtStage(a, s, w, key, ev, 0, window) && ev.kind == InProgress
    ensures MadeOn(a, HandleInProgress(s, w, ev, 0, recorded, window), w, key, ev, window)
  {
    var t := HandleInProgress(s, w, ev, 0, recorded, window);
    assert t.workers[w].phase.Idle? ==> MadeUp(a, t, key, ev, Stale(s.now), window);
  }

  lemma InProgressEnsures(a: World, s: World, w: nat, key: (nat, nat), ev: Event, recorded: bool, window: Time)
    requires AtStage(a, s, w, key, ev, 1, window) && ev.kind == InProgress
    ensures MadeOn(a, HandleInProgress(s, w, ev, 1, recorded, window), w, key, ev, window)
  {
  }

  lemma InProgressSchedules(a: World, s: World, w: nat, key: (nat, nat), ev: Event, recorded: bool, window: Time)
    requires AtStage(a, s, w, key, ev, 2, window) && ev.kind == InProgress
    ensures MadeOn(a, HandleInProgress(s, w, ev, 2, recorded, window), w, key, ev, window)
  {
    ScheduleMade(a, s, ev, 2, window);
  }

  lemma InProgressDefers(a: World, s: World, w: nat, key: (nat, nat), ev: Event, recorded: bool, window: Time)
    requires AtStage(a, s, w, key, ev, 3, window) && ev.kind == InProgress
    ensures MadeOn(a, HandleInProgress(s, w, ev, 3, recorded, window), w, key, ev, window)
  {
  }

  lemma ResolvedChecks(a: World, s: World, w: nat, key: (nat, nat), ev: Event, recorded: bool, window: Time)
    requires AtStage(a, s, w, key, ev, 0, window) && ev.kind == Resolved
    ensures MadeOn(a, HandleResolved(s, w, ev, 0, recorded), w, key, ev, window)
  {
    var t := HandleResolved(s, w, ev, 0, recorded);
    assert t.workers[w].phase.Idle? ==> MadeUp(a, t, key, ev, Stale(s.now), window);
  }

  lemma ResolvedNotes(a: World, s: World, w: nat, key: (nat, nat), ev: Event, recorded: bool, window: Time)
    requires AtStage(a, s, w, key, ev, 1, window) && ev.kind == Resolved
    ensures MadeOn(a, HandleResolved(s, w, ev, 1, recorded), w, key, ev, window)
  {
  }

  lemma ResolvedDefers(a: World, s: World, w: nat, key: (nat, nat), ev: Event, recorded: bool, window: Time)
    requires AtStage(a, s, w, key, ev, 2, window) && ev.kind == Resolved
    ensures MadeOn(a, HandleResolved(s, w, ev, 2, recorded), w, key, ev, window)
  {
  }

  /** A slot that is not claimable is left to the drain, or the message has no row at all. */
  lemma ClaimRefused(a: World, s: World, w: nat, key: (nat, nat), ev: Event, window: Time)
    requires AtStage(a, s, w, key, ev, LastStage(ev.kind), window) && FollowUp(ev.kind)
    requires !(ev.id in s.rows && Claimable(s.rows[ev.id], SlotOf(ev.kind), s.now))
    ensures MadeOn(a, DirectClaim(s, w, ev.id, SlotOf(ev.kind), s.workers[w].phase.recorded), w, key, ev, window)
  {
    var t := DirectClaim(s, w, ev.id, SlotOf(ev.kind), s.workers[w].phase.recorded);
    assert MadeUp(a, t, key, ev, if ev.id in s.rows then Recorded else NoRow, window);
  }

  lemma ClaimTaken(a: World, s: World, w: nat, key: (nat, nat), ev: Event, window: Time)
    requires AtStage(a, s, w, key, ev, LastStage(ev.kind), window) && FollowUp(ev.kind)
    requires ev.id in s.rows && Claimable(s.rows[ev.id], SlotOf(ev.kind), s.now)
    ensures MadeOn(a, DirectClaim(s, w, ev.id, SlotOf(ev.kind), s.workers[w].phase.recorded), w, key, ev, window)
  {
    var t := DirectClaim(s, w, ev.id, SlotOf(ev.kind), s.workers[w].phase.recorded);
    assert t.(rows := t.rows[ev.id := s.rows[ev.id]]) == t.(rows := s.rows);
    assert ClaimHeld(a, t, t.workers[w], ev, s.rows[ev.id], window);
  }

  lemma ClaimMade(a: World, s: World, w: nat, key: (nat, nat), ev: Event, window: Time)
    requires AtStage(a, s, w, key, ev, LastStage(ev.kind), window) && FollowUp(ev.kind)
    ensures MadeOn(a, DirectClaim(s, w, ev.id, SlotOf(ev.kind), s.workers[w].phase.recorded), w, key, ev, window)
  {
    if ev.id in s.rows && Claimable(s.rows[ev.id], SlotOf(ev.kind), s.now) {
      ClaimTaken(a, s, w, key, ev, window);
    } else {
      ClaimRefused(a, s, w, key, ev, window);
    }
  }

  lemma OtherMade(a: World, s: World, w: nat, key: (nat, nat), ev: Event, window: Time)
    requires AtStage(a, s, w, key, ev, 0, window) && ev.kind == Other
    ensures MadeOn(a, Finish(s, w, NoAction), w, key, ev, window)
  {
    assert MadeUp(a, Finish(s, w, NoAction), key, ev, NoAction, window);
  }

  /** Every statement of a message's branch leaves the table as it should be after it. */
  lemma StatementMade(a: World, s: World, w: nat, key: (nat, nat), ev: Event, stage: nat, window: Time)
    requires AtStage(a, s, w, key, ev, stage, window) && (stage < LastStage(ev.kind) || !ev.kind.Opened?)
    ensures MadeOn(a, HandleNext(s, w, ev, stage, s.workers[w].phase.recorded, window), w, key, ev, window)
  {
    var recorded := s.workers[w].phase.recorded;
    match ev.kind {
      case Opened => if stage == 0 { OpenedEnsures(a, s, w, key, ev, window); } else { OpenedSchedules(a, s, w, key, ev, window); }
      case InProgress =>
        if stage == 0 { InProgressChecks(a, s, w, key, ev, recorded, window); }
        else if stage == 1 { InProgressEnsures(a, s, w, key, ev, recorded, window); }
        else if stage == 2 { InProgressSchedules(a, s, w, key, ev, recorded, window); }
        else if stage == 3 { InProgressDefers(a, s, w, key, ev, recorded, window); }
        else { ClaimMade(a, s, w, key, ev, window); }
      case Resolved =>
        if stage == 0 { ResolvedChecks(a, s, w, key, ev, recorded, window); }
        else if stage == 1 { ResolvedNotes(a, s, w, key, ev, recorded, window); }
        else if stage == 2 { ResolvedDefers(a, s, w, key, ev, recorded, window); }
        else { ClaimMade(a, s, w, key, ev, window); }
      case Other => OtherMade(a, s, w, key, ev, window);
    }
  }

  /** Nothing about the table changes while only time passes. */
  lemma MakingLater(a: World, s: World, t: World, w: nat, ev: Event, window: Time)
    requires w < |s.workers| && Making(a, s, s.workers[w], ev, window) && t == s.(now := t.now) && s.now <= t.now
    ensures Making(a, t, t.workers[w], ev, window)
  {
  }

  lemma MakingBegins(a: World, s: World, w: nat, ev: Event, window: Time)
    requires w < |s.workers| && s.workers[w].phase == Handling(0, false) && s.rows == a.rows && a.now <= s.now
    requires s.posts == a.posts && s.verdicts == a.verdicts
    ensures Making(a, s, s.workers[w], ev, window)
  {
  }

  // ----- the whole message

  /** The message's follow-up was claimed and delivered within the handling, by one post under the row's thread id. */
  ghost predicate DeliveredNow(a: World, t: World, key: (nat, nat), ev: Event, window: Time) {
    exists made, since: Time, end: Time, ts ::
      && MadeReady(a, t, ev, made, window) && a.now <= since <= end <= t.now
      && FollowUpTaken(made, t.rows[ev.id], ev, Some(since), Some(end))
      && t.posts == a.posts + [Post(ev.id, SlotOf(ev.kind), made.slackTs, ts)] && Noted(a, t, key, Recorded)
  }

  /** A normal return: refused, recorded without a delivery, or delivered. */
  ghost predicate HandledAs(a: World, t: World, key: (nat, nat), ev: Event, window: Time) {
    (exists verdict :: MadeUp(a, t, key, ev, verdict, window)) || DeliveredNow(a, t, key, ev, window)
  }

  /** The delivery failed: all statements before it stand, its lease is given back and nothing was posted. */
  ghost predicate GivenBack(a: World, t: World, ev: Event, window: Time) {
    && t.posts == a.posts
    && exists made :: MadeReady(a, t, ev, made, window) && FollowUpTaken(made, t.rows[ev.id], ev, None, None)
  }

  lemma DeliveredMeans(a: World, mid: World, t: World, wk: Worker, key: (nat, nat), ev: Event, made: Row, window: Time)
    requires ClaimHeld(a, mid, wk, ev, made, window) && mid.now <= t.now
    requires Marked(mid, t, ev.id, SlotOf(ev.kind)) && t.verdicts == mid.verdicts[key := Recorded]
    ensures DeliveredNow(a, t, key, ev, window)
  {
    var end: Time, ts, channel :| mid.now <= end <= t.now
      && DeliveredAs(mid.rows[ev.id], t.rows[ev.id], SlotOf(ev.kind), end, ts, channel)
      && t.posts == mid.posts + [Post(ev.id, SlotOf(ev.kind), mid.rows[ev.id].slackTs, ts)];
    ReadyLater(a, mid, t, ev, made, window);
    assert FollowUpTaken(made, t.rows[ev.id], ev, Some(wk.phase.attempt.since), Some(end));
  }

  lemma ReleasedMeans(a: World, mid: World, t: World, wk: Worker, ev: Event, made: Row, window: Time)
    requires ClaimHeld(a, mid, wk, ev, made, window) && mid.now <= t.now && Released(mid, t, ev.id, SlotOf(ev.kind))
    ensures GivenBack(a, t, ev, window)
  {
    ReadyLater(a, mid, t, ev, made, window);
    assert FollowUpTaken(made, t.rows[ev.id], ev, None, None);
  }

  lemma ReadyLater(a: World, s: World, t: World, ev: Event, made: Row, window: Time)
    requires MadeReady(a, s, ev, made, window) && s.now <= t.now
    requires ev.id in t.rows && t.rows == s.rows[ev.id := t.rows[ev.id]]
    ensures MadeReady(a, t, ev, made, window)
  {
    assert t.rows[ev.id := made] == s.rows[ev.id := made];
  }

  /**
     An opening less than a day old of an unknown incident: the row opens at the message's
     own stamp with its service and title, its brief is due the window later, and nothing
     else is on it.
   */
  lemma FreshOpening(a: World, t: World, key: (nat, nat), ev: Event, window: Time)
    requires HandledAs(a, t, key, ev, window) && ev.kind == Opened && ev.id !in a.rows && ev.id != ""
    requires ev.ts.Some? && t.now - ev.ts.value <= 24 * HOUR
    ensures ev.id in t.rows && t.rows == a.rows[ev.id := t.rows[ev.id]]
    ensures var r := t.rows[ev.id];
      && r.briefDueAt.Some? && a.now + window <= r.briefDueAt.value <= t.now + window
      && r == Bare(ev.title, ev.ts.value, ev.service).(briefDueAt := r.briefDueAt)
  {
    var verdict :| MadeUp(a, t, key, ev, verdict, window);
    assert verdict == Recorded;
  }

  lemma ReadyRow(a: World, t: World, ev: Event, made: Row, window: Time)
    requires MadeReady(a, t, ev, made, window) && ev.id in a.rows
    ensures RowMade(a.rows[ev.id], made, ev, LastStage(ev.kind), a.now, t.now, window)
  {
    var rows := t.rows[ev.id := made];
    assert RowsMade(a, t.(rows := rows), ev, LastStage(ev.kind), window) && rows[ev.id] == made;
  }

  /** A resolution stamped no earlier than the row's opening: it is noted at its own stamp, and the postmortem is needed or delivered. */
  lemma ResolutionNotedOnRow(a: World, t: World, key: (nat, nat), ev: Event, window: Time)
    requires ev.kind == Resolved && ev.id in a.rows && ev.ts.Some? && a.rows[ev.id].openedAt <= ev.ts.value
    requires HandledAs(a, t, key, ev, window) || GivenBack(a, t, ev, window)
    ensures ev.id in t.rows
    ensures var r, r' := a.rows[ev.id], t.rows[ev.id];
      && r'.resolvedAt == (if r.resolvedAt.Some? then r.resolvedAt else Some(ev.ts.value))
      && (r'.postmortemNeeded || r'.postmortemDeliveredAt.Some?)
  {
    if verdict :| MadeUp(a, t, key, ev, verdict, window) {
      assert verdict == Recorded;
    } else {
      var made, lease, delivered :| MadeReady(a, t, ev, made, window) && FollowUpTaken(made, t.rows[ev.id], ev, lease, delivered);
      ReadyRow(a, t, ev, made, window);
    }
  }
}
