/**
 Where the values on a row come from.  Over every run an incident's opening time and
 service are those of the one step that created its row, and its title, due time and
 resolution time are those of a statement of the run: the stamps of the messages
 themselves where they parse, and the clock only where they do not.
 */
module DeliveryOrigins {
  import opened Basics
  import opened Incidents
  import opened Delivery
  import opened DeliveryIntent
  import opened DeliveryRecords

  /** A message's own stamp, or the clock of the statement when it does not parse. */
  predicate StampedAt(ev: Event, now: Time, at: Time) {
    if ev.ts.Some? then at == ev.ts.value else at == now
  }

  /** The step is the handler's statement for a message of this incident and kind, at this stage. */
  ghost predicate StatementOf(s: World, step: Step, id: Id, kind: Kind, stage: nat, ev: Event) {
    && step.Act? && step.w < |s.workers|
    && var wk := s.workers[step.w];
    && Runs(s, step, (wk.part, wk.pos)) && wk.phase.stage == stage
    && ev == s.topic[wk.part][wk.pos] && ev.id == id && ev.kind == kind
  }

  /** The step is one that may create the incident's row with this opening, service and title. */
  ghost predicate Opens(s: World, step: Step, id: Id, openedAt: Time, service: string, title: string) {
    || step == Index(id, title, openedAt, service)
    || (exists ev :: (StatementOf(s, step, id, Opened, 0, ev) || StatementOf(s, step, id, InProgress, 1, ev))
          && StampedAt(ev, s.now, openedAt) && ev.service == service && ev.title == title)
  }

  /** A row is created by a step that names its opening, service and title, and nothing else is on it. */
  lemma CreatedBy(s: World, step: Step, id: Id)
    requires id !in s.rows && id in Next(s, step).rows
    ensures var r := Next(s, step).rows[id];
      && r.service.Some? && Opens(s, step, id, r.openedAt, r.service.value, r.title)
      && r == Row(r.title, r.openedAt, None, r.service, None, None, None, false, None, None, false, None, None, None, None)
  {
    var t := Next(s, step);
    if step.Act? {
      var wk := s.workers[step.w];
      if Runs(s, step, (wk.part, wk.pos)) {
        var ev := s.topic[wk.part][wk.pos];
        CreatedByStatement(s, step.w, ev, wk.phase.stage, wk.phase.recorded, step.action.window, id);
        assert StatementOf(s, step, id, ev.kind, wk.phase.stage, ev);
      } else {
        NothingCreated(s, step.w, step.action);
      }
    }
  }

  lemma CreatedByStatement(s: World, w: nat, ev: Event, stage: nat, recorded: bool, window: Time, id: Id)
    requires w < |s.workers| && id !in s.rows && id in HandleNext(s, w, ev, stage, recorded, window).rows
    ensures ev.id == id && ((ev.kind == Opened && stage == 0) || (ev.kind == InProgress && stage == 1))
    ensures var r := HandleNext(s, w, ev, stage, recorded, window).rows[id];
      && StampedAt(ev, s.now, r.openedAt)
      && r == Row(ev.title, r.openedAt, None, Some(ev.service), None, None, None, false, None, None, false, None, None, None, None)
  {
  }

  lemma NothingCreated(s: World, w: nat, action: Action)
    requires w < |s.workers| && !Runs(s, Act(w, action), (s.workers[w].part, s.workers[w].pos))
    ensures ActNext(s, w, action).rows.Keys == s.rows.Keys
  {
  }

  /** What every step keeps of a row once it is there. */
  ghost predicate SameOpening(r: Row, r': Row) {
    r'.openedAt == r.openedAt && (r.service.Some? ==> r'.service == r.service) && (r.title != "" ==> r'.title == r.title)
  }

  lemma OpeningStays(s: World, step: Step, id: Id)
    requires id in s.rows
    ensures id in Next(s, step).rows && SameOpening(s.rows[id], Next(s, step).rows[id])
  {
    if step.Act? && step.w < |s.workers| {
      var wk := s.workers[step.w];
      if Runs(s, step, (wk.part, wk.pos)) {
        var ev := s.topic[wk.part][wk.pos];
        StatementKeepsOpening(s, step.w, ev, wk.phase.stage, wk.phase.recorded, step.action.window, id);
      } else {
        AttemptKeepsOpening(s, step.w, step.action, id);
      }
    }
  }

  lemma OpenedKeepsOpening(s: World, w: nat, ev: Event, stage: nat, window: Time, id: Id)
    requires w < |s.workers| && id in s.rows
    ensures var t := HandleOpened(s, w, ev, stage, window); id in t.rows && SameOpening(s.rows[id], t.rows[id])
  {
  }

  lemma InProgressKeepsOpening(s: World, w: nat, ev: Event, stage: nat, recorded: bool, window: Time, id: Id)
    requires w < |s.workers| && id in s.rows
    ensures var t := HandleInProgress(s, w, ev, stage, recorded, window); id in t.rows && SameOpening(s.rows[id], t.rows[id])
  {
  }

  lemma ResolvedKeepsOpening(s: World, w: nat, ev: Event, stage: nat, recorded: bool, id: Id)
    requires w < |s.workers| && id in s.rows
    ensures var t := HandleResolved(s, w, ev, stage, recorded); id in t.rows && SameOpening(s.rows[id], t.rows[id])
  {
  }

  lemma StatementKeepsOpening(s: World, w: nat, ev: Event, stage: nat, recorded: bool, window: Time, id: Id)
    requires w < |s.workers| && id in s.rows
    ensures var t := HandleNext(s, w, ev, stage, recorded, window); id in t.rows && SameOpening(s.rows[id], t.rows[id])
  {
    match ev.kind
    case Opened => OpenedKeepsOpening(s, w, ev, stage, window, id);
    case InProgress => InProgressKeepsOpening(s, w, ev, stage, recorded, window, id);
    case Resolved => ResolvedKeepsOpening(s, w, ev, stage, recorded, id);
    case Other =>
  }

  /** An attempt's step replaces at most its own row, by a release or a mark. */
  predicate TriedRows(s: World, t: World, a: Attempt) {
    || t.rows == s.rows
    || (a.id in s.rows && t.rows == s.rows[a.id := Release(s.rows[a.id], a.slot)])
    || (a.id in s.rows && a.progress.Sent?
        && t.rows == s.rows[a.id := Mark(s.rows[a.id], a.slot, s.now, a.progress.ts, a.progress.channel)])
  }

  lemma MarkRows(s: World, w: nat, a: Attempt)
    requires w < |s.workers|
    ensures TriedRows(s, TryNext(s, w, MarkDelivered, a), a)
  {
  }

  lemma ReleaseRows(s: World, w: nat, a: Attempt)
    requires w < |s.workers|
    ensures TriedRows(s, TryNext(s, w, ReleaseClaim, a), a)
  {
  }

  lemma TryRows(s: World, w: nat, action: Action, a: Attempt)
    requires w < |s.workers|
    ensures TriedRows(s, TryNext(s, w, action, a), a)
  {
    if action.MarkDelivered? {
      MarkRows(s, w, a);
    } else if action.ReleaseClaim? {
      ReleaseRows(s, w, a);
    } else {
      assert TryNext(s, w, action, a).rows == s.rows;
    }
  }

  lemma MarkKeepsOpening(r: Row, slot: Slot, now: Time, ts: Option<string>, channel: Option<string>)
    ensures SameOpening(r, Mark(r, slot, now, ts, channel)) && SameOpening(r, Release(r, slot)) && SameOpening(r, Claim(r, slot, now))
  {
  }

  lemma TryKeepsOpening(s: World, w: nat, action: Action, a: Attempt, id: Id)
    requires w < |s.workers| && id in s.rows
    ensures var t := TryNext(s, w, action, a); id in t.rows && SameOpening(s.rows[id], t.rows[id])
  {
    TryRows(s, w, action, a);
    if a.id in s.rows {
      MarkKeepsOpening(s.rows[a.id], a.slot, s.now, None, None);
      if a.progress.Sent? { MarkKeepsOpening(s.rows[a.id], a.slot, s.now, a.progress.ts, a.progress.channel); }
    }
  }

  lemma AttemptKeepsOpening(s: World, w: nat, action: Action, id: Id)
    requires w < |s.workers| && !Runs(s, Act(w, action), (s.workers[w].part, s.workers[w].pos)) && id in s.rows
    ensures var t := ActNext(s, w, action); id in t.rows && SameOpening(s.rows[id], t.rows[id])
  {
    if s.workers[w].phase.Trying? && !action.Crash? { TryKeepsOpening(s, w, action, s.workers[w].phase.attempt, id); }
  }

  lemma {:induction false} OpeningStaysForever(s: World, run: seq<Step>, id: Id)
    requires id in s.rows
    ensures id in Exec(s, run).rows && SameOpening(s.rows[id], Exec(s, run).rows[id])
    decreases |run|
  {
    if run != [] {
      OpeningStays(s, run[0], id);
      OpeningStaysForever(Next(s, run[0]), run[1..], id);
    }
  }

  /** The step of the run that created the incident's row. */
  ghost predicate CreatedAt(s: World, run: seq<Step>, k: nat, id: Id) {
    k < |run| && id !in Exec(s, run[..k]).rows && id in Next(Exec(s, run[..k]), run[k]).rows
  }

  lemma ExecSplit(s: World, run: seq<Step>, k: nat)
    requires k < |run|
    ensures Exec(s, run) == Exec(Next(Exec(s, run[..k]), run[k]), run[k + 1..])
  {
    assert run == run[..k] + ([run[k]] + run[k + 1..]);
    ExecAppend(s, run[..k], [run[k]] + run[k + 1..]);
    assert ([run[k]] + run[k + 1..])[1..] == run[k + 1..];
  }

  lemma {:induction false} SomeCreation(s: World, run: seq<Step>, id: Id) returns (k: nat)
    requires id !in s.rows && id in Exec(s, run).rows
    ensures CreatedAt(s, run, k, id)
    decreases |run|
  {
    if id in Next(s, run[0]).rows {
      k := 0;
      assert run[..0] == [];
    } else {
      var j := SomeCreation(Next(s, run[0]), run[1..], id);
      k := j + 1;
      assert run[..k][1..] == run[1..][..j] && run[..k][0] == run[0];
    }
  }

  /**
   In every reachable state each row has the opening time and the service of the one
   step that created it: the embedder's call, or an opening or in-progress message of
   the topic with that message's own stamp where it parses.
   */
  lemma OpenedAsStamped(s: World, run: seq<Step>, id: Id) returns (k: nat)
    requires Init(s) && id in Exec(s, run).rows
    ensures CreatedAt(s, run, k, id)
    ensures var r := Exec(s, run).rows[id];
      && r.service.Some?
      && exists title :: Opens(Exec(s, run[..k]), run[k], id, r.openedAt, r.service.value, title)
  {
    k := SomeCreation(s, run, id);
    var u := Exec(s, run[..k]);
    CreatedBy(u, run[k], id);
    ExecSplit(s, run, k);
    OpeningStaysForever(Next(u, run[k]), run[k + 1..], id);
    assert Opens(u, run[k], id, Next(u, run[k]).rows[id].openedAt, Next(u, run[k]).rows[id].service.value, Next(u, run[k]).rows[id].title);
  }

  /**
   When a message stamped a created the row, no resolution or update of the incident
   stamped at a or later is ever taken for stale.
   */
  lemma LaterIsNeverStale(s: World, run: seq<Step>, k: nat, opening: Event, key: (nat, nat))
    requires Init(s) && CreatedAt(s, run, k, opening.id) && opening.ts.Some?
    requires var u := Exec(s, run[..k]);
      StatementOf(u, run[k], opening.id, Opened, 0, opening) || StatementOf(u, run[k], opening.id, InProgress, 1, opening)
    requires var t := Exec(s, run);
      && key in t.verdicts && key.0 < |t.topic| && key.1 < |t.topic[key.0]|
      && var ev := t.topic[key.0][key.1];
      ev.id == opening.id && ev.ts.Some? && opening.ts.value <= ev.ts.value
    ensures !Exec(s, run).verdicts[key].Stale?
  {
    var u, t := Exec(s, run[..k]), Exec(s, run);
    CreatedBy(u, run[k], opening.id);
    assert Next(u, run[k]).rows[opening.id].openedAt == opening.ts.value;
    ExecSplit(s, run, k);
    OpeningStaysForever(Next(u, run[k]), run[k + 1..], opening.id);
    IntentRun(s, run);
    assert Justified(t, t.topic[key.0][key.1], t.verdicts[key]);
  }

  // ----- titles, due times and resolutions

  /** A value that a statement puts on the incident's row. */
  datatype Fact = Titled(id: Id, title: string) | DueAt(id: Id, at: Time) | ResolvedAt(id: Id, at: Time)

  function Stamp(ev: Event, now: Time): Time {
    match ev.ts
    case Some(ts) => ts
    case None => now
  }

  /** What the step puts on the books, read off the message and the clock. */
  function FactsNow(s: World, step: Step): set<Fact> {
    match step
    case Tick(_) => {}
    case Index(id, title, _, _) => {Titled(id, title)}
    case Act(w, action) =>
      if !(w < |s.workers| && Runs(s, step, (s.workers[w].part, s.workers[w].pos))) then {}
      else
        var wk := s.workers[w];
        var ev, stage := s.topic[wk.part][wk.pos], wk.phase.stage;
        if (ev.kind == Opened && stage == 0) || (ev.kind == InProgress && stage == 1) then {Titled(ev.id, ev.title)}
        else if (ev.kind == Opened && stage >= 1) || (ev.kind == InProgress && stage == 2) then {DueAt(ev.id, s.now + action.window)}
        else if ev.kind == Resolved && stage == 1 then {ResolvedAt(ev.id, Stamp(ev, s.now))}
        else {}
  }

  ghost function Facts(s: World, run: seq<Step>): set<Fact>
    decreases |run|
  {
    if run == [] then {} else FactsNow(s, run[0]) + Facts(Next(s, run[0]), run[1..])
  }

  predicate RowFrom(facts: set<Fact>, id: Id, r: Row) {
    && (r.title != "" ==> Titled(id, r.title) in facts)
    && (r.briefDueAt.Some? ==> DueAt(id, r.briefDueAt.value) in facts)
    && (r.resolvedAt.Some? ==> ResolvedAt(id, r.resolvedAt.value) in facts)
  }

  ghost predicate RowsFrom(facts: set<Fact>, rows: map<Id, Row>) {
    forall id :: id in rows ==> RowFrom(facts, id, rows[id])
  }

  /** The row kept its title and resolution, and its due time unless that was cleared. */
  predicate SameFacts(r: Row, r': Row) {
    r'.title == r.title && r'.resolvedAt == r.resolvedAt && (r'.briefDueAt.Some? ==> r'.briefDueAt == r.briefDueAt)
  }

  lemma MarkFacts(r: Row, slot: Slot, now: Time, ts: Option<string>, channel: Option<string>)
    ensures SameFacts(r, Mark(r, slot, now, ts, channel)) && SameFacts(r, Release(r, slot)) && SameFacts(r, Claim(r, slot, now))
  {
  }

  lemma TryFacts(s: World, w: nat, action: Action, a: Attempt, id: Id)
    requires w < |s.workers|
    ensures var t := TryNext(s, w, action, a);
      t.rows.Keys == s.rows.Keys && (id in s.rows ==> SameFacts(s.rows[id], t.rows[id]))
  {
    TryRows(s, w, action, a);
    if a.id in s.rows {
      MarkFacts(s.rows[a.id], a.slot, s.now, None, None);
      if a.progress.Sent? { MarkFacts(s.rows[a.id], a.slot, s.now, a.progress.ts, a.progress.channel); }
    }
  }

  lemma AttemptFacts(s: World, w: nat, action: Action, id: Id)
    requires w < |s.workers| && !Runs(s, Act(w, action), (s.workers[w].part, s.workers[w].pos))
    ensures var t := ActNext(s, w, action);
      t.rows.Keys == s.rows.Keys && (id in s.rows ==> SameFacts(s.rows[id], t.rows[id]))
  {
    if s.workers[w].phase.Trying? && !action.Crash? { TryFacts(s, w, action, s.workers[w].phase.attempt, id); }
  }

  lemma OpenedFacts(s: World, w: nat, ev: Event, stage: nat, window: Time, facts: set<Fact>)
    requires w < |s.workers| && RowsFrom(facts, s.rows)
    requires if stage == 0 then Titled(ev.id, ev.title) in facts else DueAt(ev.id, s.now + window) in facts
    ensures RowsFrom(facts, HandleOpened(s, w, ev, stage, window).rows)
  {
  }

  lemma InProgressFacts(s: World, w: nat, ev: Event, stage: nat, recorded: bool, window: Time, facts: set<Fact>)
    requires w < |s.workers| && RowsFrom(facts, s.rows)
    requires stage == 1 ==> Titled(ev.id, ev.title) in facts
    requires stage == 2 ==> DueAt(ev.id, s.now + window) in facts
    ensures RowsFrom(facts, HandleInProgress(s, w, ev, stage, recorded, window).rows)
  {
  }

  lemma ResolvedFacts(s: World, w: nat, ev: Event, stage: nat, recorded: bool, facts: set<Fact>)
    requires w < |s.workers| && RowsFrom(facts, s.rows)
    requires stage == 1 ==> ResolvedAt(ev.id, Stamp(ev, s.now)) in facts
    ensures RowsFrom(facts, HandleResolved(s, w, ev, stage, recorded).rows)
  {
  }

  lemma StatementFacts(s: World, step: Step, facts: set<Fact>)
    requires step.Act? && step.w < |s.workers| && Runs(s, step, (s.workers[step.w].part, s.workers[step.w].pos))
    requires RowsFrom(facts, s.rows)
    ensures RowsFrom(facts + FactsNow(s, step), Next(s, step).rows)
  {
    var w, wk, facts' := step.w, s.workers[step.w], facts + FactsNow(s, step);
    var ev, stage, recorded := s.topic[wk.part][wk.pos], wk.phase.stage, wk.phase.recorded;
    match ev.kind
    case Opened => OpenedFacts(s, w, ev, stage, step.action.window, facts');
    case InProgress => InProgressFacts(s, w, ev, stage, recorded, step.action.window, facts');
    case Resolved => ResolvedFacts(s, w, ev, stage, recorded, facts');
    case Other =>
  }

  lemma FactsStep(s: World, step: Step, facts: set<Fact>)
    requires RowsFrom(facts, s.rows)
    ensures RowsFrom(facts + FactsNow(s, step), Next(s, step).rows)
  {
    if step.Act? && step.w < |s.workers| {
      if Runs(s, step, (s.workers[step.w].part, s.workers[step.w].pos)) {
        StatementFacts(s, step, facts);
      } else {
        forall id | id in s.rows ensures RowFrom(facts, id, Next(s, step).rows[id]) {
          AttemptFacts(s, step.w, step.action, id);
        }
        AttemptFacts(s, step.w, step.action, "");
      }
    }
  }

  lemma {:induction false} FactsRun(s: World, run: seq<Step>, facts: set<Fact>)
    requires RowsFrom(facts, s.rows)
    ensures RowsFrom(facts + Facts(s, run), Exec(s, run).rows)
    decreases |run|
  {
    if run == [] {
      assert facts + Facts(s, run) == facts;
    } else {
      FactsStep(s, run[0], facts);
      FactsRun(Next(s, run[0]), run[1..], facts + FactsNow(s, run[0]));
      assert facts + Facts(s, run) == facts + FactsNow(s, run[0]) + Facts(Next(s, run[0]), run[1..]);
    }
  }

  ghost predicate StatedAt(s: World, run: seq<Step>, fact: Fact) {
    exists k :: 0 <= k < |run| && fact in FactsNow(Exec(s, run[..k]), run[k])
  }

  lemma {:induction false} FactsMean(s: World, run: seq<Step>, fact: Fact)
    requires fact in Facts(s, run)
    ensures StatedAt(s, run, fact)
    decreases |run|
  {
    if fact in FactsNow(s, run[0]) {
      assert run[..0] == [] && fact in FactsNow(Exec(s, run[..0]), run[0]);
    } else {
      FactsMean(Next(s, run[0]), run[1..], fact);
      var k :| 0 <= k < |run[1..]| && fact in FactsNow(Exec(Next(s, run[0]), run[1..][..k]), run[1..][k]);
      assert run[..k + 1][1..] == run[1..][..k] && run[..k + 1][0] == run[0];
      assert fact in FactsNow(Exec(s, run[..k + 1]), run[k + 1]);
    }
  }

  /**
   In every reachable state a row's title is one that some message or the embedder
   gave, its due time lies the window after a statement that scheduled it, and its
   resolution time is the stamp of a resolution of the incident.
   */
  lemma FactsAsStated(s: World, run: seq<Step>, id: Id)
    requires Init(s) && id in Exec(s, run).rows
    ensures var r := Exec(s, run).rows[id];
      && (r.title != "" ==> StatedAt(s, run, Titled(id, r.title)))
      && (r.briefDueAt.Some? ==> StatedAt(s, run, DueAt(id, r.briefDueAt.value)))
      && (r.resolvedAt.Some? ==> StatedAt(s, run, ResolvedAt(id, r.resolvedAt.value)))
  {
    FactsRun(s, run, {});
    assert {} + Facts(s, run) == Facts(s, run);
    var r := Exec(s, run).rows[id];
    assert RowFrom(Facts(s, run), id, r);
    if r.title != "" { FactsMean(s, run, Titled(id, r.title)); }
    if r.briefDueAt.Some? { FactsMean(s, run, DueAt(id, r.briefDueAt.value)); }
    if r.resolvedAt.Some? { FactsMean(s, run, ResolvedAt(id, r.resolvedAt.value)); }
  }
}
