/**
 The `incidents` table: one row per incident, and each SQL statement of
 freshet/autopilot/consumer.py and freshet/common/incidents.py as one function
 on a row.  A statement is atomic; `now` is the database clock it reads.
 */
module Incidents {
  import opened Basics

  type Id = string

  const LEASE: Time := 15 * MINUTE
  const MAX_BRIEF_AGE: Time := 24 * HOUR

  datatype Slot = Brief | Progress | Postmortem

  datatype Row = Row(
    title: string,
    openedAt: Time,
    resolvedAt: Option<Time>,
    service: Option<string>,
    briefDueAt: Option<Time>,
    briefedAt: Option<Time>,
    briefDeliveredAt: Option<Time>,
    progressNeeded: bool,
    progressAt: Option<Time>,
    progressDeliveredAt: Option<Time>,
    postmortemNeeded: bool,
    postmortemAt: Option<Time>,
    postmortemDeliveredAt: Option<Time>,
    slackTs: Option<string>,
    slackChannel: Option<string>)
  {
    /** When the slot was last claimed, if that claim was not released. */
    function Lease(slot: Slot): Option<Time> {
      match slot
      case Brief => briefedAt
      case Progress => progressAt
      case Postmortem => postmortemAt
    }

    function Delivered(slot: Slot): Option<Time> {
      match slot
      case Brief => briefDeliveredAt
      case Progress => progressDeliveredAt
      case Postmortem => postmortemDeliveredAt
    }

    /** The slot has recorded work: a brief has a due time, a follow-up its flag. */
    predicate Needed(slot: Slot) {
      match slot
      case Brief => briefDueAt.Some?
      case Progress => progressNeeded
      case Postmortem => postmortemNeeded
    }

    /** The slot's work is recorded or already done. */
    predicate Owed(slot: Slot) {
      Needed(slot) || Delivered(slot).Some?
    }

    function WithLease(slot: Slot, lease: Option<Time>): Row {
      match slot
      case Brief => this.(briefedAt := lease)
      case Progress => this.(progressAt := lease)
      case Postmortem => this.(postmortemAt := lease)
    }
  }

  predicate LeaseFree(lease: Option<Time>, now: Time) {
    lease.None? || lease.value < now - LEASE
  }

  /** The WHERE clause of the three claim statements. */
  predicate Claimable(r: Row, slot: Slot, now: Time) {
    && r.Delivered(slot).None?
    && (slot != Brief ==> r.briefDeliveredAt.Some?)
    && LeaseFree(r.Lease(slot), now)
  }

  /** The deferred claims of the drain also ask for the owed flag; the brief claim does not. */
  predicate DrainClaimable(r: Row, slot: Slot, now: Time) {
    Claimable(r, slot, now) && (slot != Brief ==> r.Needed(slot))
  }

  function Claim(r: Row, slot: Slot, now: Time): Row {
    r.WithLease(slot, Some(now))
  }

  /** The three release statements clear the lease whoever holds it. */
  function Release(r: Row, slot: Slot): Row {
    r.WithLease(slot, None)
  }

  /** The three mark statements; only the brief's carries the sink's thread id. */
  function Mark(r: Row, slot: Slot, now: Time, ts: Option<string>, channel: Option<string>): Row {
    match slot
    case Brief => r.(briefDeliveredAt := Some(now), briefDueAt := None,
                     slackTs := Coalesce(ts, r.slackTs),
                     slackChannel := Coalesce(channel, r.slackChannel))
    case Progress => r.(progressDeliveredAt := Some(now), progressNeeded := false)
    case Postmortem => r.(postmortemDeliveredAt := Some(now), postmortemNeeded := false)
  }

  function Schedule(r: Row, now: Time, window: Time): Row {
    if r.briefDeliveredAt.None? && r.briefDueAt.None? then r.(briefDueAt := Some(now + window)) else r
  }

  /** Records an owed follow-up unless it was already delivered. */
  function Defer(r: Row, slot: Slot): Row {
    if r.Delivered(slot).Some? then r
    else match slot
      case Brief => r
      case Progress => r.(progressNeeded := true)
      case Postmortem => r.(postmortemNeeded := true)
  }

  function MarkResolved(r: Row, at: Time): Row {
    r.(resolvedAt := Coalesce(r.resolvedAt, Some(at)))
  }

  function NewRow(title: string, openedAt: Time, service: string): Row {
    Row(title, openedAt, None, Some(service), None, None, None, false, None, None, false, None, None, None, None)
  }

  /** `ensure_incident`: first writer wins, except for an empty title or a missing service. */
  function Ensure(rows: map<Id, Row>, id: Id, title: string, openedAt: Time, service: string): map<Id, Row> {
    if id == "" then rows
    else if id in rows then
      var r := rows[id];
      rows[id := r.(title := if r.title == "" then title else r.title,
                    service := Coalesce(r.service, Some(service)))]
    else rows[id := NewRow(title, openedAt, service)]
  }

  /** One call of `ensure_incident` for an incident, by the embedder or the autopilot. */
  datatype Ensuring = Ensuring(title: string, openedAt: Time, service: string)

  function EnsureAll(rows: map<Id, Row>, id: Id, calls: seq<Ensuring>): map<Id, Row> {
    if calls == [] then rows
    else
      var n := |calls| - 1;
      Ensure(EnsureAll(rows, id, calls[..n]), id, calls[n].title, calls[n].openedAt, calls[n].service)
  }

  function FirstTitle(calls: seq<Ensuring>): string {
    if calls == [] then "" else if calls[0].title != "" then calls[0].title else FirstTitle(calls[1..])
  }

  lemma {:induction false} FirstTitleFront(calls: seq<Ensuring>)
    requires calls != []
    ensures var n := |calls| - 1;
      FirstTitle(calls) == if FirstTitle(calls[..n]) != "" then FirstTitle(calls[..n]) else calls[n].title
    decreases |calls|
  {
    var n := |calls| - 1;
    if n > 0 {
      assert calls[..n][0] == calls[0] && calls[..n][1..] == calls[1..][..n - 1];
      FirstTitleFront(calls[1..]);
    }
  }

  /**
     Whoever calls first, and however often, the row opens at the first call's
     time with its service, has the first title that is not empty, and owes nothing.
   */
  lemma {:induction false} FirstWriterWins(rows: map<Id, Row>, id: Id, calls: seq<Ensuring>)
    requires id != "" && id !in rows && calls != []
    ensures var after := EnsureAll(rows, id, calls);
      after == rows[id := NewRow(FirstTitle(calls), calls[0].openedAt, calls[0].service)]
    decreases |calls|
  {
    var n := |calls| - 1;
    FirstTitleFront(calls);
    if n > 0 {
      FirstWriterWins(rows, id, calls[..n]);
    } else {
      assert EnsureAll(rows, id, calls[..n]) == rows;
    }
  }

  /** On a row that exists, no number of calls touches anything but an empty title and a missing service. */
  lemma {:induction false} EnsureKeepsTheRest(rows: map<Id, Row>, id: Id, calls: seq<Ensuring>)
    requires id in rows
    ensures var after := EnsureAll(rows, id, calls);
      id in after && after[id] == rows[id].(title := after[id].title, service := after[id].service)
      && (rows[id].title != "" ==> after[id].title == rows[id].title)
      && (rows[id].service.Some? ==> after[id].service == rows[id].service)
    decreases |calls|
  {
    if calls != [] { EnsureKeepsTheRest(rows, id, calls[..|calls| - 1]); }
  }
}
