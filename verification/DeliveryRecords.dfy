/**
 Exactly when work is owed.  Each kind of message has one statement that puts its
 own work on the incident's row; where the row is missing the statement changes
 nothing.  A committed message lost its intent only if that statement missed, and
 a slot is owed or delivered exactly when some statement found its row, or the
 slot was marked.  What a run recorded and missed is read off the run itself.
 */
module DeliveryRecords {
  import opened Basics
  import opened Incidents
  import opened Delivery
  import opened DeliveryIntent

  /** The step is a statement of the handler for the message at `key`, at stage `stage`. */
  predicate Runs(s: World, step: Step, key: (nat, nat)) {
    && step.Act? && step.w < |s.workers| && step.action.Handle?
    && var wk := s.workers[step.w];
    && wk.phase.Handling? && HasMessage(s, wk) && key == (wk.part, wk.pos)
  }

  predicate Schedules(ev: Event, stage: nat) {
    (ev.kind == Opened && stage >= 1) || (ev.kind == InProgress && stage == 2)
  }

  predicate Defers(ev: Event, stage: nat) {
    (ev.kind == InProgress && stage == 3) || (ev.kind == Resolved && stage == 2)
  }

  /** The slot a message is about. */
  function OwnSlot(kind: Kind): Slot {
    match kind
    case InProgress => Slot.Progress
    case Resolved => Postmortem
    case _ => Brief
  }

  /** The slot a statement of the handler records work for. */
  function RecordedSlot(ev: Event, stage: nat): Option<Slot> {
    if Schedules(ev, stage) then Some(Brief) else if Defers(ev, stage) then Some(OwnSlot(ev.kind)) else None
  }

  /** The step is the statement that records the message's own work. */
  predicate Records(s: World, step: Step, key: (nat, nat)) {
    && Runs(s, step, key)
    && var ev := s.topic[key.0][key.1];
    RecordedSlot(ev, s.workers[step.w].phase.stage) == Some(OwnSlot(ev.kind))
  }

  predicate Misses(s: World, step: Step, key: (nat, nat)) {
    Records(s, step, key) && s.topic[key.0][key.1].id !in s.rows
  }

  predicate Finds(s: World, step: Step, key: (nat, nat)) {
    Records(s, step, key) && s.topic[key.0][key.1].id in s.rows
  }

  /** The recording statement leaves the work on the row exactly when there was a row. */
  lemma RecordingStatement(s: World, step: Step, key: (nat, nat))
    requires Records(s, step, key)
    ensures var t, ev := Next(s, step), s.topic[key.0][key.1];
      && (ev.id in t.rows && t.rows[ev.id].Owed(OwnSlot(ev.kind)) <==> ev.id in s.rows)
      && (ev.id !in s.rows ==> t.rows == s.rows)
  {
    var wk, ev := s.workers[step.w], s.topic[key.0][key.1];
    assert Next(s, step) == HandleNext(s, step.w, ev, wk.phase.stage, wk.phase.recorded, step.action.window);
  }

  function MissedNow(s: World, step: Step): set<(nat, nat)> {
    if step.Act? && step.w < |s.workers| then
      var key := (s.workers[step.w].part, s.workers[step.w].pos);
      if Misses(s, step, key) then {key} else {}
    else {}
  }

  /** The messages whose recording statement found no row at some point of the run. */
  ghost function Missed(s: World, run: seq<Step>): set<(nat, nat)>
    decreases |run|
  {
    if run == [] then {} else MissedNow(s, run[0]) + Missed(Next(s, run[0]), run[1..])
  }

  ghost predicate MissedAt(s: World, run: seq<Step>, key: (nat, nat)) {
    exists k :: 0 <= k < |run| && Misses(Exec(s, run[..k]), run[k], key)
  }

  ghost predicate FoundAt(s: World, run: seq<Step>, key: (nat, nat)) {
    exists k :: 0 <= k < |run| && Finds(Exec(s, run[..k]), run[k], key)
  }

  lemma {:induction false} MissedMeans(s: World, run: seq<Step>, key: (nat, nat))
    requires key in Missed(s, run)
    ensures MissedAt(s, run, key)
    decreases |run|
  {
    if key in MissedNow(s, run[0]) {
      assert run[..0] == [] && Misses(Exec(s, run[..0]), run[0], key);
    } else {
      MissedMeans(Next(s, run[0]), run[1..], key);
      var k :| 0 <= k < |run[1..]| && Misses(Exec(Next(s, run[0]), run[1..][..k]), run[1..][k], key);
      assert run[..k + 1][1..] == run[1..][..k] && run[..k + 1][0] == run[0];
      assert Misses(Exec(s, run[..k + 1]), run[k + 1], key);
    }
  }

  /** The handler went past its recording statement and knows that it missed. */
  predicate KnowsMiss(s: World, wk: Worker) {
    && wk.phase.Handling? && !wk.phase.recorded && HasMessage(s, wk)
    && var ev := s.topic[wk.part][wk.pos];
    (ev.kind == InProgress && wk.phase.stage >= 4) || (ev.kind == Resolved && wk.phase.stage >= 3)
  }

  ghost predicate MissInv(s: World, missed: set<(nat, nat)>) {
    && (forall key :: key in s.verdicts && s.verdicts[key].NoRow? ==> key in missed)
    && (forall w :: 0 <= w < |s.workers| && KnowsMiss(s, s.workers[w]) ==> (s.workers[w].part, s.workers[w].pos) in missed)
  }

  /** What a step of one worker may do to what is known of misses. */
  lemma MissMove(s: World, t: World, w: nat, missed: set<(nat, nat)>, missed': set<(nat, nat)>)
    requires MissInv(s, missed) && missed <= missed'
    requires w < |s.workers| == |t.workers| && t.workers == s.workers[w := t.workers[w]] && t.topic == s.topic
    requires KnowsMiss(t, t.workers[w]) ==> (t.workers[w].part, t.workers[w].pos) in missed'
    requires forall key :: key in t.verdicts && t.verdicts[key].NoRow? ==>
      key in missed' || (key in s.verdicts && s.verdicts[key].NoRow?)
    ensures MissInv(t, missed')
  {
    forall v | 0 <= v < |t.workers| && KnowsMiss(t, t.workers[v])
      ensures (t.workers[v].part, t.workers[v].pos) in missed'
    {
      if v != w { assert KnowsMiss(s, s.workers[v]); }
    }
  }

  /** What a statement of the handler leaves behind about misses: the worker's knowledge and the verdicts. */
  ghost predicate MissTold(s: World, t: World, w: nat, missed: set<(nat, nat)>) {
    && w < |t.workers|
    && (KnowsMiss(t, t.workers[w]) ==> (t.workers[w].part, t.workers[w].pos) in missed)
    && (forall key :: key in t.verdicts && t.verdicts[key].NoRow? ==>
          key in missed || (key in s.verdicts && s.verdicts[key].NoRow?))
  }

  lemma MissOpened(s: World, w: nat, ev: Event, stage: nat, window: Time, missed: set<(nat, nat)>)
    requires w < |s.workers| && HasMessage(s, s.workers[w]) && ev.kind == Opened
    requires ev == s.topic[s.workers[w].part][s.workers[w].pos]
    requires stage >= 1 && ev.id !in s.rows ==> (s.workers[w].part, s.workers[w].pos) in missed
    ensures MissTold(s, HandleOpened(s, w, ev, stage, window), w, missed)
  {
  }

  lemma MissInProgress(s: World, w: nat, ev: Event, stage: nat, recorded: bool, window: Time, missed: set<(nat, nat)>)
    requires w < |s.workers| && HasMessage(s, s.workers[w]) && ev.kind == InProgress
    requires ev == s.topic[s.workers[w].part][s.workers[w].pos]
    requires stage == 3 && ev.id !in s.rows ==> (s.workers[w].part, s.workers[w].pos) in missed
    requires stage >= 4 && !recorded ==> (s.workers[w].part, s.workers[w].pos) in missed
    ensures MissTold(s, HandleInProgress(s, w, ev, stage, recorded, window), w, missed)
  {
  }

  lemma MissResolved(s: World, w: nat, ev: Event, stage: nat, recorded: bool, missed: set<(nat, nat)>)
    requires w < |s.workers| && HasMessage(s, s.workers[w]) && ev.kind == Resolved
    requires ev == s.topic[s.workers[w].part][s.workers[w].pos]
    requires stage == 2 && ev.id !in s.rows ==> (s.workers[w].part, s.workers[w].pos) in missed
    requires stage >= 3 && !recorded ==> (s.workers[w].part, s.workers[w].pos) in missed
    ensures MissTold(s, HandleResolved(s, w, ev, stage, recorded), w, missed)
  {
  }

  lemma MissHandle(s: World, step: Step, missed: set<(nat, nat)>)
    requires MissInv(s, missed) && step.Act? && step.w < |s.workers|
    requires Runs(s, step, (s.workers[step.w].part, s.workers[step.w].pos))
    ensures MissInv(Next(s, step), missed + MissedNow(s, step))
  {
    var w, wk, t, missed' := step.w, s.workers[step.w], Next(s, step), missed + MissedNow(s, step);
    var ev, stage, recorded := s.topic[wk.part][wk.pos], wk.phase.stage, wk.phase.recorded;
    assert KnowsMiss(s, wk) ==> (wk.part, wk.pos) in missed;
    match ev.kind {
      case Opened => MissOpened(s, w, ev, stage, step.action.window, missed');
      case InProgress => MissInProgress(s, w, ev, stage, recorded, step.action.window, missed');
      case Resolved => MissResolved(s, w, ev, stage, recorded, missed');
      case Other =>
    }
    MissMove(s, t, w, missed, missed');
  }

  /** A step of a worker that runs no statement of the handler. */
  lemma MissQuiet(s: World, w: nat, action: Action, missed: set<(nat, nat)>)
    requires MissInv(s, missed) && w < |s.workers|
    requires !Runs(s, Act(w, action), (s.workers[w].part, s.workers[w].pos))
    ensures MissInv(ActNext(s, w, action), missed)
  {
    var wk, t := s.workers[w], ActNext(s, w, action);
    if action.Crash? {
      assert t == Restart(s, w, action.part);
      MissMove(s, t, w, missed, missed);
    } else if wk.phase.Idle? {
      assert t == IdleNext(s, w, action);
      MissMove(s, t, w, missed, missed);
    } else if wk.phase.Trying? {
      assert t == TryNext(s, w, action, wk.phase.attempt);
      MissTry(s, w, action, wk.phase.attempt, missed);
    }
  }

  lemma MissTry(s: World, w: nat, action: Action, a: Attempt, missed: set<(nat, nat)>)
    requires MissInv(s, missed) && w < |s.workers| && s.workers[w].phase == Trying(a)
    ensures MissInv(TryNext(s, w, action, a), missed)
  {
    var t := TryNext(s, w, action, a);
    if t != s {
      assert t.workers[w].phase.Idle? || t.workers[w].phase.Trying?;
      MissMove(s, t, w, missed, missed);
    }
  }

  lemma MissStep(s: World, step: Step, missed: set<(nat, nat)>)
    requires MissInv(s, missed)
    ensures MissInv(Next(s, step), missed + MissedNow(s, step))
  {
    var t := Next(s, step);
    if step.Act? && step.w < |s.workers| {
      if Runs(s, step, (s.workers[step.w].part, s.workers[step.w].pos)) {
        MissHandle(s, step, missed);
      } else {
        assert missed + MissedNow(s, step) == missed;
        MissQuiet(s, step.w, step.action, missed);
      }
    } else {
      assert missed + MissedNow(s, step) == missed;
      forall v | 0 <= v < |t.workers| && KnowsMiss(t, t.workers[v])
        ensures (t.workers[v].part, t.workers[v].pos) in missed
      {
        assert KnowsMiss(s, s.workers[v]);
      }
    }
  }

  lemma {:induction false} MissRun(s: World, run: seq<Step>, missed: set<(nat, nat)>)
    requires MissInv(s, missed)
    ensures MissInv(Exec(s, run), missed + Missed(s, run))
    decreases |run|
  {
    if run == [] {
      assert missed + Missed(s, run) == missed;
    } else {
      MissStep(s, run[0], missed);
      MissRun(Next(s, run[0]), run[1..], missed + MissedNow(s, run[0]));
      assert missed + Missed(s, run) == missed + MissedNow(s, run[0]) + Missed(Next(s, run[0]), run[1..]);
    }
  }

  /** A message is only ever given up for want of a row if its recording statement found none. */
  lemma GivenUpMissed(s: World, run: seq<Step>, key: (nat, nat))
    requires Init(s)
    requires key in Exec(s, run).verdicts && Exec(s, run).verdicts[key] == NoRow
    ensures MissedAt(s, run, key)
  {
    MissRun(s, run, {});
    assert {} + Missed(s, run) == Missed(s, run);
    MissedMeans(s, run, key);
  }

  /**
   In every reachable state each committed offset has its intent on the row, or was
   too old, stale or of an unknown type, or its recording statement found no row,
   which is possible only for a resolution or an empty incident id.
   */
  lemma CommittedIntent(s: World, run: seq<Step>, p: nat, o: nat)
    requires Init(s)
    requires p < |Exec(s, run).committed| && o < Exec(s, run).committed[p]
    ensures var t := Exec(s, run);
      && p < |t.topic| && o < |t.topic[p]| && (p, o) in t.verdicts
      && Justified(t, t.topic[p][o], t.verdicts[(p, o)])
      && (t.verdicts[(p, o)] == NoRow ==> MissedAt(s, run, (p, o)))
  {
    IntentRun(s, run);
    var t, key := Exec(s, run), (p, o);
    assert key in t.verdicts;
    assert Justified(t, t.topic[key.0][key.1], t.verdicts[key]);
    if t.verdicts[key] == NoRow { GivenUpMissed(s, run, key); }
  }

  function FoundNow(s: World, step: Step): set<Key> {
    if step.Act? && step.w < |s.workers| && Runs(s, step, (s.workers[step.w].part, s.workers[step.w].pos)) then
      var wk := s.workers[step.w];
      var ev := s.topic[wk.part][wk.pos];
      var slot := RecordedSlot(ev, wk.phase.stage);
      if slot.Some? && ev.id in s.rows then {(ev.id, slot.value)} else {}
    else {}
  }

  /** The slots that some statement of the run recorded work for. */
  ghost function Found(s: World, run: seq<Step>): set<Key>
    decreases |run|
  {
    if run == [] then {} else FoundNow(s, run[0]) + Found(Next(s, run[0]), run[1..])
  }

  predicate OwedIn(rows: map<Id, Row>, key: Key) {
    key.0 in rows && rows[key.0].Owed(key.1)
  }

  ghost predicate OwedExactly(s: World, found: set<Key>) {
    forall key: Key :: OwedIn(s.rows, key) <==> key in found || key in s.marks
  }

  /** One row is replaced by one that owes the same. */
  ghost predicate OwesSame(rows: map<Id, Row>, rows': map<Id, Row>) {
    forall key: Key :: OwedIn(rows', key) <==> OwedIn(rows, key)
  }

  lemma UpdateOwes(rows: map<Id, Row>, id: Id, r': Row)
    requires id in rows && forall slot: Slot :: r'.Owed(slot) <==> rows[id].Owed(slot)
    ensures OwesSame(rows, rows[id := r'])
  {
  }

  lemma EnsureOwes(rows: map<Id, Row>, id: Id, title: string, openedAt: Time, service: string)
    ensures OwesSame(rows, Ensure(rows, id, title, openedAt, service))
  {
  }

  /** Leases come and go, and a resolution is noted, without any work being owed or dropped. */
  lemma LeasesOweSame(r: Row, slot: Slot, lease: Option<Time>, at: Time)
    ensures forall other: Slot :: r.WithLease(slot, lease).Owed(other) <==> r.Owed(other)
    ensures forall other: Slot :: MarkResolved(r, at).Owed(other) <==> r.Owed(other)
  {
  }

  lemma RecordingOwes(r: Row, now: Time, window: Time, slot: Slot)
    ensures forall other: Slot :: Schedule(r, now, window).Owed(other) <==> r.Owed(other) || other == Brief
    ensures slot != Brief ==> forall other: Slot :: Defer(r, slot).Owed(other) <==> r.Owed(other) || other == slot
  {
  }

  lemma MarkOwes(r: Row, slot: Slot, now: Time, ts: Option<string>, channel: Option<string>)
    ensures forall other: Slot :: Mark(r, slot, now, ts, channel).Owed(other) <==> r.Owed(other) || other == slot
  {
  }

  lemma DirectOwes(s: World, w: nat, id: Id, slot: Slot, recorded: bool)
    requires w < |s.workers|
    ensures OwesSame(s.rows, DirectClaim(s, w, id, slot, recorded).rows)
  {
    if id in s.rows && Claimable(s.rows[id], slot, s.now) {
      LeasesOweSame(s.rows[id], slot, Some(s.now), 0);
      UpdateOwes(s.rows, id, Claim(s.rows[id], slot, s.now));
    }
  }

  /** A statement of the handler makes exactly the work owed that it records. */
  lemma HandleOwes(s: World, w: nat, ev: Event, stage: nat, recorded: bool, window: Time)
    requires w < |s.workers|
    ensures var t, slot := HandleNext(s, w, ev, stage, recorded, window), RecordedSlot(ev, stage);
      forall key: Key ::
        OwedIn(t.rows, key) <==> OwedIn(s.rows, key) || (slot.Some? && ev.id in s.rows && key == (ev.id, slot.value))
  {
    EnsureOwes(s.rows, ev.id, ev.title, EventTs(ev, s.now), ev.service);
    if RecordedSlot(ev, stage).Some? && ev.id in s.rows {
      RecordingOwes(s.rows[ev.id], s.now, window, OwnSlot(ev.kind));
    } else if ev.kind == Resolved && stage == 1 && ev.id in s.rows {
      LeasesOweSame(s.rows[ev.id], Postmortem, None, EventTs(ev, s.now));
      UpdateOwes(s.rows, ev.id, MarkResolved(s.rows[ev.id], EventTs(ev, s.now)));
    } else if ev.kind == InProgress && stage >= 4 {
      DirectOwes(s, w, ev.id, Slot.Progress, recorded);
    } else if ev.kind == Resolved && stage >= 3 {
      DirectOwes(s, w, ev.id, Postmortem, recorded);
    }
  }

  /** A step of an attempt makes nothing owed but the slot it marks. */
  ghost predicate MarksOwe(s: World, t: World) {
    || (t.marks == s.marks && OwesSame(s.rows, t.rows))
    || (exists slot: Key :: t.marks == s.marks + multiset{slot}
          && forall key: Key :: OwedIn(t.rows, key) <==> OwedIn(s.rows, key) || key == slot)
  }

  lemma TryOwes(s: World, w: nat, action: Action, a: Attempt)
    requires w < |s.workers|
    ensures MarksOwe(s, TryNext(s, w, action, a))
  {
    var t := TryNext(s, w, action, a);
    if a.id in s.rows && action.MarkDelivered? && a.progress.Sent? {
      MarkOwes(s.rows[a.id], a.slot, s.now, a.progress.ts, a.progress.channel);
      assert t.marks == s.marks + multiset{(a.id, a.slot)};
    } else if a.id in s.rows && action.ReleaseClaim? && a.progress.Failing? {
      LeasesOweSame(s.rows[a.id], a.slot, None, 0);
      UpdateOwes(s.rows, a.id, Release(s.rows[a.id], a.slot));
    } else {
      assert t.rows == s.rows;
    }
  }

  lemma ActOwes(s: World, w: nat, action: Action)
    requires w < |s.workers| && !Runs(s, Act(w, action), (s.workers[w].part, s.workers[w].pos))
    ensures MarksOwe(s, ActNext(s, w, action))
  {
    var wk := s.workers[w];
    if !action.Crash? && wk.phase.Trying? {
      TryOwes(s, w, action, wk.phase.attempt);
    } else if !action.Crash? && wk.phase.Idle? && action.DrainClaim? && action.id in s.rows {
      LeasesOweSame(s.rows[action.id], action.slot, Some(s.now), 0);
      UpdateOwes(s.rows, action.id, Claim(s.rows[action.id], action.slot, s.now));
    }
  }

  lemma OwedStep(s: World, step: Step, found: set<Key>)
    requires OwedExactly(s, found)
    ensures OwedExactly(Next(s, step), found + FoundNow(s, step))
  {
    match step
    case Tick(d) =>
    case Index(id, title, openedAt, service) => EnsureOwes(s.rows, id, title, openedAt, service);
    case Act(w, action) =>
      if w < |s.workers| {
        var wk := s.workers[w];
        if Runs(s, step, (wk.part, wk.pos)) {
          HandleOwes(s, w, s.topic[wk.part][wk.pos], wk.phase.stage, wk.phase.recorded, action.window);
        } else {
          ActOwes(s, w, action);
        }
      }
  }

  lemma {:induction false} OwedRun(s: World, run: seq<Step>, found: set<Key>)
    requires OwedExactly(s, found)
    ensures OwedExactly(Exec(s, run), found + Found(s, run))
    decreases |run|
  {
    if run == [] {
      assert found + Found(s, run) == found;
    } else {
      OwedStep(s, run[0], found);
      OwedRun(Next(s, run[0]), run[1..], found + FoundNow(s, run[0]));
      assert found + Found(s, run) == found + FoundNow(s, run[0]) + Found(Next(s, run[0]), run[1..]);
    }
  }

  /** Some statement of the run that records work for the slot found the incident's row. */
  ghost predicate RecordedAt(s: World, run: seq<Step>, slot: Key) {
    exists k :: 0 <= k < |run| && slot in FoundNow(Exec(s, run[..k]), run[k])
  }

  lemma {:induction false} FoundMeans(s: World, run: seq<Step>, slot: Key)
    ensures slot in Found(s, run) <==> RecordedAt(s, run, slot)
    decreases |run|
  {
    if run != [] {
      FoundMeans(Next(s, run[0]), run[1..], slot);
      assert run[..0] == [] && Exec(s, run[..0]) == s;
      forall k | 0 <= k < |run[1..]|
        ensures Exec(s, run[..k + 1]) == Exec(Next(s, run[0]), run[1..][..k])
      {
        assert run[..k + 1][1..] == run[1..][..k] && run[..k + 1][0] == run[0];
      }
      if RecordedAt(Next(s, run[0]), run[1..], slot) {
        var k :| 0 <= k < |run[1..]| && slot in FoundNow(Exec(Next(s, run[0]), run[1..][..k]), run[1..][k]);
        assert slot in FoundNow(Exec(s, run[..k + 1]), run[k + 1]);
      }
      if RecordedAt(s, run, slot) {
        var k :| 0 <= k < |run| && slot in FoundNow(Exec(s, run[..k]), run[k]);
        if k > 0 {
          assert run[1..][k - 1] == run[k] && Exec(Next(s, run[0]), run[1..][..k - 1]) == Exec(s, run[..k - 1 + 1]);
          assert slot in FoundNow(Exec(Next(s, run[0]), run[1..][..k - 1]), run[1..][k - 1]);
        }
      }
    }
  }

  /**
   In every state of every run, a slot's work is owed or delivered exactly when
   some statement that records it found the incident's row, or the slot was marked.
   */
  lemma OwedExactlyWhenRecorded(s: World, run: seq<Step>, slot: Key)
    requires Init(s)
    ensures OwedIn(Exec(s, run).rows, slot) <==> (RecordedAt(s, run, slot) || slot in Exec(s, run).marks)
  {
    OwedRun(s, run, {});
    assert {} + Found(s, run) == Found(s, run);
    FoundMeans(s, run, slot);
  }

  /** No other message of the topic is a resolution of the same incident. */
  ghost predicate OnlyResolution(topic: seq<seq<Event>>, key: (nat, nat)) {
    && key.0 < |topic| && key.1 < |topic[key.0]| && topic[key.0][key.1].kind == Resolved
    && (forall p: nat, o: nat :: p < |topic| && o < |topic[p]| && (p, o) != key && topic[p][o].kind == Resolved ==>
          topic[p][o].id != topic[key.0][key.1].id)
  }

  lemma {:induction false} SameTopic(s: World, run: seq<Step>)
    ensures Exec(s, run).topic == s.topic
    decreases |run|
  {
    if run != [] { SameTopic(Next(s, run[0]), run[1..]); }
  }

  /** Only its own statement can record the postmortem of an incident resolved once. */
  lemma RecordedByOwn(s: World, run: seq<Step>, key: (nat, nat))
    requires OnlyResolution(s.topic, key)
    ensures RecordedAt(s, run, (s.topic[key.0][key.1].id, Postmortem)) <==> FoundAt(s, run, key)
  {
    var slot := (s.topic[key.0][key.1].id, Postmortem);
    forall k | 0 <= k < |run|
      ensures slot in FoundNow(Exec(s, run[..k]), run[k]) <==> Finds(Exec(s, run[..k]), run[k], key)
    {
      SameTopic(s, run[..k]);
      OwnStatement(Exec(s, run[..k]), run[k], key);
    }
  }

  lemma OwnStatement(s: World, step: Step, key: (nat, nat))
    requires OnlyResolution(s.topic, key)
    ensures (s.topic[key.0][key.1].id, Postmortem) in FoundNow(s, step) <==> Finds(s, step, key)
  {
  }

  /** Of a handled resolution that was not stale: what its verdict says, and what it is based on. */
  lemma ResolutionVerdict(s: World, run: seq<Step>, key: (nat, nat))
    requires Init(s) && key.0 < |s.topic| && key.1 < |s.topic[key.0]| && s.topic[key.0][key.1].kind == Resolved
    requires key in Exec(s, run).verdicts && !Exec(s, run).verdicts[key].Stale?
    ensures var t, slot := Exec(s, run), (s.topic[key.0][key.1].id, Postmortem);
      || (t.verdicts[key] == Recorded && OwedIn(t.rows, slot))
      || (t.verdicts[key] == NoRow && MissedAt(s, run, key))
  {
    var t := Exec(s, run);
    SameTopic(s, run);
    IntentRun(s, run);
    assert Justified(t, t.topic[key.0][key.1], t.verdicts[key]);
    if t.verdicts[key] == NoRow { GivenUpMissed(s, run, key); }
  }

  /**
   The incident's one resolution, once handled and not stale: its postmortem is owed
   or delivered if and only if its own statement found the row, or the postmortem was
   posted and marked all the same; a verdict that gives it up means the statement missed.
   */
  lemma ResolutionExactly(s: World, run: seq<Step>, key: (nat, nat))
    requires Init(s) && OnlyResolution(s.topic, key)
    requires key in Exec(s, run).verdicts && !Exec(s, run).verdicts[key].Stale?
    ensures var t, slot := Exec(s, run), (s.topic[key.0][key.1].id, Postmortem);
      && (OwedIn(t.rows, slot) <==> (FoundAt(s, run, key) || slot in t.marks))
      && (t.verdicts[key] == Recorded || (t.verdicts[key] == NoRow && MissedAt(s, run, key)))
      && (t.verdicts[key] == Recorded ==> OwedIn(t.rows, slot))
  {
    OwedExactlyWhenRecorded(s, run, (s.topic[key.0][key.1].id, Postmortem));
    RecordedByOwn(s, run, key);
    ResolutionVerdict(s, run, key);
  }
}
