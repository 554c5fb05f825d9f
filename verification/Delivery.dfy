/**
 The delivery protocol of freshet/autopilot/consumer.py as a state machine.
 Several workers consume the lifecycle topic and drain owed work.  One step is
 one SQL statement, one call of the sink, one offset commit, the passing of
 time, or the death of a process; steps of different workers interleave freely.
 A step that is not enabled changes nothing, so every sequence of steps is a run.
 */
module Delivery {
  import opened Basics
  import opened Incidents

  datatype Kind = Opened | InProgress | Resolved | Other

  /** A lifecycle message; `ts` is None when it does not parse. */
  datatype Event = Event(kind: Kind, id: Id, service: string, ts: Option<Time>, title: string)

  function EventTs(ev: Event, now: Time): Time {
    if ev.ts.Some? then ev.ts.value else now
  }

  /** What a normal return of the handler means for its message. */
  datatype Verdict =
    | Recorded                 // the intent is on the row
    | TooOld(at: Time)         // an opening more than a day old at that time
    | Stale(at: Time)          // older than the row's opening
    | NoRow                    // nothing to record it on
    | NoAction                 // unknown type

  /** The drain claims on its own account; the handler claims for its message. */
  datatype Origin = Drain | Direct

  datatype Progress = Claimed | Ready | Sent(ts: Option<string>, channel: Option<string>) | Failing

  /** One attempt at one slot, from its claim to its mark or release. */
  datatype Attempt = Attempt(id: Id, slot: Slot, since: Time, origin: Origin,
                             thread: Option<string>, progress: Progress)

  datatype Phase =
    | Idle
    | Handling(stage: nat, recorded: bool)
    | Trying(attempt: Attempt)

  /** `pos` is the next offset of partition `part` the worker will handle. */
  datatype Worker = Worker(part: nat, pos: nat, phase: Phase)

  datatype Post = Post(id: Id, slot: Slot, thread: Option<string>, ts: Option<string>)

  type Key = (Id, Slot)

  /**
   `topic` is the lifecycle topic, `posts` everything the sink accepted.
   `verdicts`, `marks` and `lost` are the history of the run: how each handled
   offset ended, each mark, and each post whose attempt ended without a mark.
   */
  datatype World = World(
    now: Time,
    rows: map<Id, Row>,
    posts: seq<Post>,
    workers: seq<Worker>,
    topic: seq<seq<Event>>,
    committed: seq<nat>,
    verdicts: map<(nat, nat), Verdict>,
    marks: multiset<Key>,
    lost: multiset<Key>)

  datatype Action =
    | Poll
    | Handle(window: Time)
    | DrainClaim(id: Id, slot: Slot)
    | ReadThread
    | Accept(ts: Option<string>, channel: Option<string>)
    | Raise
    | MarkDelivered
    | MarkRaises
    | ReleaseClaim
    | Commit
    | Crash(part: nat)

  datatype Step =
    | Tick(d: nat)
    | Index(id: Id, title: string, openedAt: Time, service: string)  // the embedder's ensure_incident
    | Act(w: nat, action: Action)

  function SetPhase(s: World, w: nat, phase: Phase): World
    requires w < |s.workers|
  {
    s.(workers := s.workers[w := s.workers[w].(phase := phase)])
  }

  predicate HasMessage(s: World, wk: Worker) {
    wk.part < |s.topic| && wk.pos < |s.topic[wk.part]|
  }

  /** A handler step writes rows and verdicts, and moves only its own worker. */
  ghost predicate HandlerFrame(s: World, t: World, w: nat) {
    && t.now == s.now && t.posts == s.posts && t.topic == s.topic && t.committed == s.committed
    && t.marks == s.marks && t.lost == s.lost
    && w < |s.workers| == |t.workers| && t.workers == s.workers[w := t.workers[w]]
    && !(t.workers[w].phase.Trying? && t.workers[w].phase.attempt.progress.Sent?)
  }

  /** The handler returned: the offset is done, though not yet committed.  A recorded intent stays on the books. */
  function Finish(s: World, w: nat, verdict: Verdict): World
    requires w < |s.workers|
  {
    var wk := s.workers[w];
    var at := (wk.part, wk.pos);
    var kept := if at in s.verdicts && s.verdicts[at] == Recorded then Recorded else verdict;
    s.(workers := s.workers[w := wk.(pos := wk.pos + 1, phase := Idle)], verdicts := s.verdicts[at := kept])
  }

  function RecordedOr(recorded: bool): Verdict {
    if recorded then Recorded else NoRow
  }

  function Start(s: World, w: nat, id: Id, slot: Slot, origin: Origin): World
    requires w < |s.workers| && id in s.rows
  {
    var r := s.rows[id];
    var a := Attempt(id, slot, s.now, origin, r.slackTs, if origin.Direct? then Claimed else Ready);
    SetPhase(s.(rows := s.rows[id := Claim(r, slot, s.now)]), w, Trying(a))
  }

  /** The direct claim that ends the handler's two follow-up branches. */
  function DirectClaim(s: World, w: nat, id: Id, slot: Slot, recorded: bool): (t: World)
    requires w < |s.workers|
    ensures HandlerFrame(s, t, w)
  {
    if id in s.rows && Claimable(s.rows[id], slot, s.now)
    then Start(s, w, id, slot, Direct)
    else Finish(s, w, RecordedOr(recorded))
  }

  function HandleOpened(s: World, w: nat, ev: Event, stage: nat, window: Time): (t: World)
    requires w < |s.workers|
    ensures HandlerFrame(s, t, w)
  {
    if stage == 0 then
      if s.now - EventTs(ev, s.now) > MAX_BRIEF_AGE then Finish(s, w, TooOld(s.now))
      else
        SetPhase(s.(rows := Ensure(s.rows, ev.id, ev.title, EventTs(ev, s.now), ev.service)), w, Handling(1, false))
    else if ev.id in s.rows then
      Finish(s.(rows := s.rows[ev.id := Schedule(s.rows[ev.id], s.now, window)]), w, Recorded)
    else
      Finish(s, w, NoRow)
  }

  function HandleInProgress(s: World, w: nat, ev: Event, stage: nat, recorded: bool, window: Time): (t: World)
    requires w < |s.workers|
    ensures HandlerFrame(s, t, w)
  {
    if stage == 0 then
      if ev.id in s.rows && EventTs(ev, s.now) < s.rows[ev.id].openedAt then Finish(s, w, Stale(s.now))
      else SetPhase(s, w, Handling(1, false))
    else if stage == 1 then
      SetPhase(s.(rows := Ensure(s.rows, ev.id, ev.title, EventTs(ev, s.now), ev.service)), w, Handling(2, false))
    else if stage == 2 then
      SetPhase(if ev.id in s.rows then s.(rows := s.rows[ev.id := Schedule(s.rows[ev.id], s.now, window)]) else s,
               w, Handling(3, false))
    else if stage == 3 then
      SetPhase(if ev.id in s.rows then s.(rows := s.rows[ev.id := Defer(s.rows[ev.id], Slot.Progress)]) else s,
               w, Handling(4, ev.id in s.rows))
    else
      DirectClaim(s, w, ev.id, Slot.Progress, recorded)
  }

  function HandleResolved(s: World, w: nat, ev: Event, stage: nat, recorded: bool): (t: World)
    requires w < |s.workers|
    ensures HandlerFrame(s, t, w)
  {
    if stage == 0 then
      if ev.id in s.rows && EventTs(ev, s.now) < s.rows[ev.id].openedAt then Finish(s, w, Stale(s.now))
      else SetPhase(s, w, Handling(1, false))
    else if stage == 1 then
      SetPhase(if ev.id in s.rows then s.(rows := s.rows[ev.id := MarkResolved(s.rows[ev.id], EventTs(ev, s.now))]) else s,
               w, Handling(2, false))
    else if stage == 2 then
      SetPhase(if ev.id in s.rows then s.(rows := s.rows[ev.id := Defer(s.rows[ev.id], Postmortem)]) else s,
               w, Handling(3, ev.id in s.rows))
    else
      DirectClaim(s, w, ev.id, Postmortem, recorded)
  }

  /** The next statement of `handle_lifecycle`. */
  function HandleNext(s: World, w: nat, ev: Event, stage: nat, recorded: bool, window: Time): (t: World)
    requires w < |s.workers|
    ensures HandlerFrame(s, t, w)
  {
    match ev.kind
    case Opened => HandleOpened(s, w, ev, stage, window)
    case InProgress => HandleInProgress(s, w, ev, stage, recorded, window)
    case Resolved => HandleResolved(s, w, ev, stage, recorded)
    case Other => Finish(s, w, NoAction)
  }

  function Restart(s: World, w: nat, part: nat): World
    requires w < |s.workers|
  {
    var lost := match s.workers[w].phase
      case Trying(a) => if a.progress.Sent? then s.lost + multiset{(a.id, a.slot)} else s.lost
      case _ => s.lost;
    var target := if part < |s.committed| then part else s.workers[w].part;
    var pos := if target < |s.committed| then s.committed[target] else 0;
    s.(workers := s.workers[w := Worker(target, pos, Idle)], lost := lost)
  }

  /** Ends an attempt that was marked: the drain goes on, the handler returns. */
  function EndAttempt(s: World, w: nat, a: Attempt): World
    requires w < |s.workers|
  {
    match a.origin
    case Drain => SetPhase(s, w, Idle)
    case Direct => Finish(s, w, Recorded)
  }

  /** A worker's step moves only that worker. */
  ghost predicate OwnFrame(s: World, t: World, w: nat) {
    t.topic == s.topic && w < |s.workers| == |t.workers| && t.workers == s.workers[w := t.workers[w]]
  }

  /** The steps of an attempt after its claim. */
  function TryNext(s: World, w: nat, action: Action, a: Attempt): (t: World)
    requires w < |s.workers|
    ensures OwnFrame(s, t, w)
  {
    if action.ReadThread? && a.progress.Claimed? then
      SetPhase(s, w, Trying(a.(progress := Ready, thread := if a.id in s.rows then s.rows[a.id].slackTs else None)))
    else if action.Accept? && a.progress.Ready? then
      var post := Post(a.id, a.slot, if a.slot == Brief then None else a.thread, action.ts);
      SetPhase(s.(posts := s.posts + [post]), w, Trying(a.(progress := Sent(action.ts, action.channel))))
    else if action.Raise? && (a.progress.Claimed? || a.progress.Ready?) then
      SetPhase(s, w, Trying(a.(progress := Failing)))
    else if action.MarkDelivered? && a.progress.Sent? && a.id in s.rows then
      var r := Mark(s.rows[a.id], a.slot, s.now, a.progress.ts, a.progress.channel);
      EndAttempt(s.(rows := s.rows[a.id := r], marks := s.marks + multiset{(a.id, a.slot)}), w, a)
    else if action.MarkRaises? && a.progress.Sent? then
      // Inside the handler's try the claim is released; in the drains the exception escapes.
      if a.origin.Direct?
      then SetPhase(s.(lost := s.lost + multiset{(a.id, a.slot)}), w, Trying(a.(progress := Failing)))
      else Restart(s, w, s.workers[w].part)
    else if action.ReleaseClaim? && a.progress.Failing? && a.id in s.rows then
      var s' := s.(rows := s.rows[a.id := Release(s.rows[a.id], a.slot)]);
      // The drain may go on (budget exhausted) or let the exception escape, which is a later crash.
      if a.origin.Direct? then Restart(s', w, s.workers[w].part) else SetPhase(s', w, Idle)
    else s
  }

  function IdleNext(s: World, w: nat, action: Action): (t: World)
    requires w < |s.workers|
    ensures OwnFrame(s, t, w)
  {
    var wk := s.workers[w];
    if action.Poll? && HasMessage(s, wk) then SetPhase(s, w, Handling(0, false))
    else if action.Commit? && wk.part < |s.committed| then s.(committed := s.committed[wk.part := wk.pos])
    else if action.DrainClaim? && action.id in s.rows && DrainClaimable(s.rows[action.id], action.slot, s.now) then
      Start(s, w, action.id, action.slot, Drain)
    else s
  }

  function ActNext(s: World, w: nat, action: Action): (t: World)
    requires w < |s.workers|
    ensures OwnFrame(s, t, w)
  {
    var wk := s.workers[w];
    if action.Crash? then Restart(s, w, action.part)
    else if wk.phase.Idle? then IdleNext(s, w, action)
    else if wk.phase.Trying? then TryNext(s, w, action, wk.phase.attempt)
    else if action.Handle? && HasMessage(s, wk) then
      HandleNext(s, w, s.topic[wk.part][wk.pos], wk.phase.stage, wk.phase.recorded, action.window)
    else s
  }

  function Next(s: World, step: Step): World {
    match step
    case Tick(d) => s.(now := s.now + d)
    case Index(id, title, openedAt, service) => s.(rows := Ensure(s.rows, id, title, openedAt, service))
    case Act(w, action) => if w < |s.workers| then ActNext(s, w, action) else s
  }

  function Exec(s: World, run: seq<Step>): World
    decreases |run|
  {
    if run == [] then s else Exec(Next(s, run[0]), run[1..])
  }

  ghost predicate Reaches(s: World, t: World) {
    exists run: seq<Step> :: Exec(s, run) == t
  }

  /** Nothing recorded, nothing posted, every worker idle at the start of its partition. */
  ghost predicate Init(s: World) {
    && s.rows == map[] && s.posts == [] && s.verdicts == map[]
    && s.marks == multiset{} && s.lost == multiset{}
    && |s.committed| == |s.topic|
    && (forall p :: 0 <= p < |s.committed| ==> s.committed[p] == 0)
    && (forall w :: 0 <= w < |s.workers| ==> s.workers[w].phase == Idle && s.workers[w].pos == 0)
  }

  lemma {:induction false} ExecAppend(s: World, a: seq<Step>, b: seq<Step>)
    ensures Exec(s, a + b) == Exec(Exec(s, a), b)
    decreases |a|
  {
    if a == [] {
      assert a + b == b;
    } else {
      assert (a + b)[0] == a[0] && (a + b)[1..] == a[1..] + b;
      ExecAppend(Next(s, a[0]), a[1..], b);
    }
  }

  lemma ReachesSelf(s: World)
    ensures Reaches(s, s)
  {
    assert Exec(s, []) == s;
  }

  lemma ReachesNext(s: World, t: World, step: Step)
    requires Reaches(s, t)
    ensures Reaches(s, Next(t, step))
  {
    var run :| Exec(s, run) == t;
    ExecAppend(s, run, [step]);
    assert Exec(t, [step]) == Next(t, step) by { assert [step][1..] == []; }
    assert Exec(s, run + [step]) == Next(t, step);
  }
}
