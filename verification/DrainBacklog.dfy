/**
 What a drain has left to do and what it takes on: the due briefs, the pending
 follow-ups, their order, and a measure that every pass with work to do shrinks.
 */
module DrainBacklog {
  import opened Basics
  import opened Incidents
  import opened Delivery

  /** How a drain step ends: whether it delivered, or an exception of either kind. */
  datatype Outcome = Done(delivered: bool) | Exhausted | Died

  /** A brief still owed, due or not yet due. */
  predicate BriefOwed(r: Row) {
    r.briefDueAt.Some? && r.briefDeliveredAt.None?
  }

  predicate BriefDue(r: Row, now: Time) {
    BriefOwed(r) && r.briefDueAt.value <= now
  }

  predicate FollowUpOwed(r: Row, slot: Slot) {
    r.briefDeliveredAt.Some? && slot != Brief && r.Needed(slot) && r.Delivered(slot).None?
  }

  predicate Pending(r: Row) {
    FollowUpOwed(r, Slot.Progress) || FollowUpOwed(r, Postmortem)
  }

  /** The WHERE clause of the pending follow-ups query. */
  predicate PendingFree(r: Row, now: Time) {
    || (FollowUpOwed(r, Slot.Progress) && LeaseFree(r.progressAt, now))
    || (FollowUpOwed(r, Postmortem) && LeaseFree(r.postmortemAt, now))
  }

  /** The two queries of a drain pass, and the columns they order by. */
  function DueAt(rows: map<Id, Row>, now: Time): set<Id> {
    set id | id in rows && BriefDue(rows[id], now)
  }

  function DueTimes(rows: map<Id, Row>): map<Id, Time> {
    map id | id in rows && rows[id].briefDueAt.Some? :: rows[id].briefDueAt.value
  }

  function PendingAt(rows: map<Id, Row>, now: Time): set<Id> {
    set id | id in rows && PendingFree(rows[id], now)
  }

  function BriefedTimes(rows: map<Id, Row>): map<Id, Time> {
    map id | id in rows && rows[id].briefDeliveredAt.Some? :: rows[id].briefDeliveredAt.value
  }

  function Owing(rows: map<Id, Row>): set<Id> {
    set id | id in rows && BriefOwed(rows[id])
  }

  function Pendings(rows: map<Id, Row>): set<Id> {
    set id | id in rows && Pending(rows[id])
  }

  /** What is left to drain. */
  function Backlog(rows: map<Id, Row>): nat {
    2 * |Owing(rows)| + |Pendings(rows)|
  }

  predicate AnythingDue(s: World) {
    DueAt(s.rows, s.now) != {} || Pendings(s.rows) != {}
  }

  /** No slot still to be delivered is under a live lease. */
  ghost predicate NoLiveLeases(s: World) {
    forall id, slot: Slot :: id in s.rows && s.rows[id].Delivered(slot).None? ==> LeaseFree(s.rows[id].Lease(slot), s.now)
  }

  /** A slot the drain can deliver once no lease stands in the way. */
  predicate Deliverable(r: Row, slot: Slot) {
    if slot == Brief then r.briefDeliveredAt.None? else FollowUpOwed(r, slot)
  }

  lemma FreeLater(s: World, t: World)
    requires NoLiveLeases(s) && t == s.(now := t.now) && s.now <= t.now
    ensures NoLiveLeases(t)
  {
  }

  lemma ClaimableExactly(s: World, id: Id, slot: Slot, at: Time)
    requires NoLiveLeases(s) && id in s.rows && s.now <= at
    ensures MayTake(s.rows[id], slot, at) <==> Deliverable(s.rows[id], slot)
  {
    var r := s.rows[id];
    assert r.Delivered(slot).None? ==> LeaseFree(r.Lease(slot), s.now);
  }

  ghost predicate Distinct(ids: seq<Id>) {
    forall i, j :: 0 <= i < j < |ids| ==> ids[i] != ids[j]
  }

  ghost function Ids(ids: seq<Id>): set<Id> {
    set id | id in ids
  }

  /** `ORDER BY key LIMIT limit` over the candidates. */
  ghost predicate FirstBy(ids: seq<Id>, candidates: set<Id>, key: map<Id, Time>, limit: nat)
    requires candidates <= key.Keys
  {
    && Distinct(ids) && Ids(ids) <= candidates
    && |ids| == (if limit < |candidates| then limit else |candidates|)
    && (forall i, j :: 0 <= i < j < |ids| ==> key[ids[i]] <= key[ids[j]])
    && (forall i, id :: 0 <= i < |ids| && id in candidates && id !in ids ==> key[ids[i]] <= key[id])
  }

  method Earliest(candidates: set<Id>, key: map<Id, Time>) returns (id: Id)
    requires candidates != {} && candidates <= key.Keys
    ensures id in candidates && forall other :: other in candidates ==> key[id] <= key[other]
  {
    id :| id in candidates;
    var rest := candidates - {id};
    while rest != {}
      invariant rest <= candidates && id in candidates
      invariant forall other :: other in candidates && other !in rest ==> key[id] <= key[other]
      decreases |rest|
    {
      var other :| other in rest;
      if key[other] < key[id] { id := other; }
      rest := rest - {other};
    }
  }

  /** `ids` are earliest candidates in order, `rest` is what is left of them. */
  ghost predicate Picked(ids: seq<Id>, rest: set<Id>, candidates: set<Id>, key: map<Id, Time>)
    requires candidates <= key.Keys
  {
    && Distinct(ids) && Ids(ids) <= candidates && rest == candidates - Ids(ids) && |rest| + |ids| == |candidates|
    && (forall i, j :: 0 <= i < j < |ids| ==> key[ids[i]] <= key[ids[j]])
    && (forall i, id :: 0 <= i < |ids| && id in rest ==> key[ids[i]] <= key[id])
  }

  lemma PickNext(ids: seq<Id>, rest: set<Id>, id: Id, candidates: set<Id>, key: map<Id, Time>)
    requires candidates <= key.Keys && Picked(ids, rest, candidates, key)
    requires id in rest && forall other :: other in rest ==> key[id] <= key[other]
    ensures Picked(ids + [id], rest - {id}, candidates, key)
  {
    assert forall i :: 0 <= i < |ids| ==> ids[i] in Ids(ids);
    assert Ids(ids + [id]) == Ids(ids) + {id};
  }

  method Select(candidates: set<Id>, key: map<Id, Time>, limit: nat) returns (ids: seq<Id>)
    requires candidates <= key.Keys
    ensures FirstBy(ids, candidates, key, limit)
  {
    ids := [];
    var rest := candidates;
    while |ids| < limit && rest != {}
      invariant |ids| <= limit && Picked(ids, rest, candidates, key)
      decreases |rest|
    {
      var id := Earliest(rest, key);
      PickNext(ids, rest, id, candidates, key);
      ids := ids + [id];
      rest := rest - {id};
    }
  }

  /** Without live leases every pending incident is a candidate of the query. */
  lemma FreeIsPending(s: World)
    requires NoLiveLeases(s)
    ensures PendingAt(s.rows, s.now) == Pendings(s.rows)
  {
    forall id | id in s.rows
      ensures Pending(s.rows[id]) <==> PendingFree(s.rows[id], s.now)
    {
      var r := s.rows[id];
      assert r.Delivered(Slot.Progress).None? ==> LeaseFree(r.Lease(Slot.Progress), s.now);
      assert r.Delivered(Postmortem).None? ==> LeaseFree(r.Lease(Postmortem), s.now);
    }
  }

  /** The slot's lease column says `lease`; every other column is as it was. */
  predicate LeaseIs(r: Row, r': Row, slot: Slot, lease: Option<Time>) {
    r' == r.(briefedAt := if slot.Brief? then lease else r.briefedAt,
             progressAt := if slot.Progress? then lease else r.progressAt,
             postmortemAt := if slot.Postmortem? then lease else r.postmortemAt)
  }

  /**
     The slot was delivered at `end`: a brief is no longer due and has the thread it was
     posted in, a follow-up is no longer needed; every other column is as it was.
   */
  predicate DeliveredAs(r: Row, r': Row, slot: Slot, end: Time, ts: Option<string>, channel: Option<string>) {
    match slot
    case Brief => r' == r.(briefDeliveredAt := Some(end), briefDueAt := None,
                           slackTs := if ts.Some? then ts else r.slackTs,
                           slackChannel := if channel.Some? then channel else r.slackChannel)
    case Progress => r' == r.(progressDeliveredAt := Some(end), progressNeeded := false)
    case Postmortem => r' == r.(postmortemDeliveredAt := Some(end), postmortemNeeded := false)
  }

  /** No lease, or one taken more than fifteen minutes ago. */
  predicate Lapsed(lease: Option<Time>, now: Time) {
    lease.Some? ==> now - lease.value > 15 * MINUTE
  }

  /** The drain may take the slot on: an undelivered brief, or a needed and undelivered follow-up under a delivered one. */
  predicate MayTake(r: Row, slot: Slot, now: Time) {
    match slot
    case Brief => r.briefDeliveredAt.None? && Lapsed(r.briefedAt, now)
    case Progress =>
      r.briefDeliveredAt.Some? && r.progressNeeded && r.progressDeliveredAt.None? && Lapsed(r.progressAt, now)
    case Postmortem =>
      r.briefDeliveredAt.Some? && r.postmortemNeeded && r.postmortemDeliveredAt.None? && Lapsed(r.postmortemAt, now)
  }

  /** The slot was marked within this time, with one post carrying the thread id the row had; nothing else changed. */
  ghost predicate Marked(s: World, t: World, id: Id, slot: Slot) {
    && id in s.rows && id in t.rows && t.rows == s.rows[id := t.rows[id]]
    && exists end: Time, ts, channel ::
         && s.now <= end <= t.now && DeliveredAs(s.rows[id], t.rows[id], slot, end, ts, channel)
         && t.posts == s.posts + [Post(id, slot, if slot == Brief then None else s.rows[id].slackTs, ts)]
  }

  /** The slot's lease was given back; nothing was posted and the work is as needed as before. */
  ghost predicate Released(s: World, t: World, id: Id, slot: Slot) {
    && id in s.rows && id in t.rows && t.rows == s.rows[id := t.rows[id]] && t.posts == s.posts
    && LeaseIs(s.rows[id], t.rows[id], slot, None)
  }

  /** Claimed when the guard allowed it, then posted and marked. */
  ghost predicate Settled(s: World, t: World, id: Id, slot: Slot) {
    && id in s.rows
    && exists since: Time, r: Row ::
         && s.now <= since && MayTake(s.rows[id], slot, since) && LeaseIs(s.rows[id], r, slot, Some(since))
         && Marked(s.(now := since, rows := s.rows[id := r]), t, id, slot)
  }

  /** All an attempt of the drain can do to the tables when nobody else acts. */
  ghost predicate Attempted(s: World, t: World, id: Id, slot: Slot, o: Outcome) {
    && s.now <= t.now
    && match o
       case Done(true) => Settled(s, t, id, slot)
       case Done(false) => t.rows == s.rows && t.posts == s.posts && !(id in s.rows && MayTake(s.rows[id], slot, t.now))
       case _ => Released(s, t, id, slot)
  }

  /** The rows differ in their leases at most. */
  predicate LeasesOnly(r: Row, r': Row) {
    r' == r.(briefedAt := r'.briefedAt, progressAt := r'.progressAt, postmortemAt := r'.postmortemAt)
  }

  /** What a delivered brief does to its row: it is stamped, its due time cleared, and its follow-ups are as owed as before. */
  predicate Briefed(r: Row, r': Row) {
    && r'.briefDeliveredAt.Some? && r'.briefDueAt.None?
    && r'.progressNeeded == r.progressNeeded && r'.progressDeliveredAt == r.progressDeliveredAt
    && r'.postmortemNeeded == r.postmortemNeeded && r'.postmortemDeliveredAt == r.postmortemDeliveredAt
  }

  /** What a follow-up attempt does to its row: the brief and the other follow-up stay as they were. */
  predicate FollowedUp(r: Row, r': Row, slot: Slot) {
    && r'.briefDeliveredAt == r.briefDeliveredAt && r'.briefDueAt == r.briefDueAt
    && (slot == Slot.Progress ==>
          r'.postmortemNeeded == r.postmortemNeeded && r'.postmortemDeliveredAt == r.postmortemDeliveredAt)
    && (slot == Postmortem ==>
          r'.progressNeeded == r.progressNeeded && r'.progressDeliveredAt == r.progressDeliveredAt)
    && (FollowUpOwed(r', slot) ==> FollowUpOwed(r, slot))
  }

  /** One row of the attempt's incident at most changed. */
  lemma AttemptedRow(s: World, t: World, id: Id, slot: Slot, o: Outcome)
    requires Attempted(s, t, id, slot, o)
    ensures t.rows.Keys == s.rows.Keys
    ensures id in s.rows ==> t.rows == s.rows[id := t.rows[id]]
    ensures id !in s.rows ==> t.rows == s.rows
    ensures o == Done(true) ==> id in s.rows
    ensures o == Done(true) && slot == Brief ==> Briefed(s.rows[id], t.rows[id])
    ensures o != Done(true) && id in s.rows ==> LeasesOnly(s.rows[id], t.rows[id])
    ensures slot != Brief && id in s.rows ==> FollowedUp(s.rows[id], t.rows[id], slot)
    ensures slot != Brief && o == Done(true) ==> !FollowUpOwed(t.rows[id], slot)
  {
  }

  lemma AttemptedLeases(s: World, t: World, id: Id, slot: Slot, o: Outcome)
    requires NoLiveLeases(s) && Attempted(s, t, id, slot, o)
    ensures NoLiveLeases(t)
  {
    AttemptedRow(s, t, id, slot, o);
    forall other, any: Slot | other in t.rows && t.rows[other].Delivered(any).None?
      ensures LeaseFree(t.rows[other].Lease(any), t.now)
    {
      assert s.rows[other].Delivered(any).None? && LeaseFree(s.rows[other].Lease(any), s.now);
    }
  }

  /** Without live leases an attempt delivers exactly what is deliverable, unless it failed. */
  lemma AttemptedExactly(s: World, t: World, id: Id, slot: Slot, o: Outcome)
    requires NoLiveLeases(s) && Attempted(s, t, id, slot, o) && o.Done?
    ensures o.delivered <==> id in s.rows && Deliverable(s.rows[id], slot)
  {
    if o.delivered {
      var since: Time, r: Row :| s.now <= since && MayTake(s.rows[id], slot, since) && LeaseIs(s.rows[id], r, slot, Some(since))
        && Marked(s.(now := since, rows := s.rows[id := r]), t, id, slot);
      ClaimableExactly(s, id, slot, since);
    } else if id in s.rows {
      ClaimableExactly(s, id, slot, t.now);
    }
  }

  /** The incidents in `done` were briefed; of all others at most the leases changed. */
  ghost predicate BriefedAll(rows: map<Id, Row>, rows': map<Id, Row>, done: set<Id>) {
    && rows'.Keys == rows.Keys
    && (forall id :: id in rows && id !in done ==> LeasesOnly(rows[id], rows'[id]))
    && (forall id :: id in rows && id in done ==> Briefed(rows[id], rows'[id]))
  }

  lemma IdsNext(ids: seq<Id>, i: nat)
    requires i < |ids| && Distinct(ids)
    ensures ids[i] !in Ids(ids[..i]) && Ids(ids[..i + 1]) == Ids(ids[..i]) + {ids[i]}
  {
    assert ids[..i + 1] == ids[..i] + [ids[i]];
  }

  lemma BriefedMore(start: map<Id, Row>, rows: map<Id, Row>, rows': map<Id, Row>, done: set<Id>, id: Id)
    requires BriefedAll(start, rows, done) && id in start && id !in done && id in rows' && rows' == rows[id := rows'[id]]
    ensures LeasesOnly(rows[id], rows'[id]) ==> BriefedAll(start, rows', done)
    ensures Briefed(rows[id], rows'[id]) ==> BriefedAll(start, rows', done + {id})
  {
  }

  /** One more incident of the list was attempted. */
  lemma BriefedOne(start: map<Id, Row>, s: World, t: World, ids: seq<Id>, i: nat, o: Outcome)
    requires i < |ids| && Distinct(ids) && BriefedAll(start, s.rows, Ids(ids[..i]))
    requires ids[i] in start && Attempted(s, t, ids[i], Brief, o)
    ensures BriefedAll(start, t.rows, Ids(ids[..if o == Done(true) then i + 1 else i]))
  {
    AttemptedRow(s, t, ids[i], Brief, o);
    IdsNext(ids, i);
    BriefedMore(start, s.rows, t.rows, Ids(ids[..i]), ids[i]);
  }

  lemma BriefedOwing(rows: map<Id, Row>, rows': map<Id, Row>, done: set<Id>)
    requires BriefedAll(rows, rows', done) && done <= Owing(rows)
    ensures Owing(rows') == Owing(rows) - done
    ensures Pendings(rows') <= Pendings(rows) + done
  {
  }

  lemma {:induction false} SubsetCount(a: set<Id>, b: set<Id>)
    requires a <= b
    ensures |b| == |a| + |b - a|
    ensures a < b ==> |a| < |b|
  {
    assert b == a + (b - a);
    if a < b { assert b - a != {}; }
  }

  lemma UnionCount(a: set<Id>, b: set<Id>)
    ensures |a + b| <= |a| + |b|
  {
    assert a + b == a + (b - a);
    assert b == (b - a) + (b * a);
  }

  /** Each delivered brief takes two off the backlog and may turn one owed follow-up into pending work. */
  lemma BriefedBacklog(rows: map<Id, Row>, rows': map<Id, Row>, done: set<Id>)
    requires BriefedAll(rows, rows', done) && done <= Owing(rows)
    ensures Backlog(rows') + |done| <= Backlog(rows)
  {
    BriefedOwing(rows, rows', done);
    SubsetCount(done, Owing(rows));
    SubsetCount(Pendings(rows'), Pendings(rows) + done);
    UnionCount(Pendings(rows), done);
  }

  /** No row is more pending than it was, and no brief is touched. */
  predicate NoWorse(r: Row, r': Row) {
    r'.briefDeliveredAt == r.briefDeliveredAt && r'.briefDueAt == r.briefDueAt && (Pending(r') ==> Pending(r))
  }

  /** Follow-ups were attempted for incidents of the list only. */
  ghost predicate Spared(rows: map<Id, Row>, rows': map<Id, Row>, ids: set<Id>) {
    && rows'.Keys == rows.Keys
    && (forall id :: id in rows && id !in ids ==> rows'[id] == rows[id])
    && (forall id :: id in rows ==> NoWorse(rows[id], rows'[id]))
  }

  /** Both follow-ups of one incident were attempted, or the first one only. */
  lemma CaughtUp(s: World, mid: World, t: World, id: Id, o: Outcome, o': Outcome)
    requires NoLiveLeases(s) && id in s.rows
    requires Attempted(s, mid, id, Slot.Progress, o) && Attempted(mid, t, id, Postmortem, o')
    ensures Spared(s.rows, t.rows, {id}) && NoLiveLeases(t) && s.now <= t.now
    ensures o.Done? && o'.Done? ==> !Pending(t.rows[id])
  {
    AttemptedRow(s, mid, id, Slot.Progress, o);
    AttemptedLeases(s, mid, id, Slot.Progress, o);
    AttemptedRow(mid, t, id, Postmortem, o');
    AttemptedLeases(mid, t, id, Postmortem, o');
    if o.Done? { AttemptedExactly(s, mid, id, Slot.Progress, o); }
    if o'.Done? { AttemptedExactly(mid, t, id, Postmortem, o'); }
  }

  lemma HalfCaughtUp(s: World, t: World, id: Id, o: Outcome)
    requires NoLiveLeases(s) && id in s.rows && Attempted(s, t, id, Slot.Progress, o)
    ensures Spared(s.rows, t.rows, {id}) && NoLiveLeases(t) && s.now <= t.now
  {
    AttemptedRow(s, t, id, Slot.Progress, o);
    AttemptedLeases(s, t, id, Slot.Progress, o);
  }

  lemma SparedMore(start: map<Id, Row>, rows: map<Id, Row>, rows': map<Id, Row>, ids: set<Id>, id: Id)
    requires Spared(start, rows, ids) && Spared(rows, rows', {id}) && id in ids
    ensures Spared(start, rows', ids)
  {
  }

  /** Where a pass over pending incidents stands after the first i of them; all of them are caught up unless one failed. */
  ghost predicate CaughtTo(start: World, s: World, ids: seq<Id>, i: nat, all: bool) {
    && NoLiveLeases(s) && Spared(start.rows, s.rows, Ids(ids)) && start.now <= s.now
    && (all ==> forall j :: 0 <= j < i && j < |ids| ==> ids[j] in s.rows && !Pending(s.rows[ids[j]]))
  }

  lemma CaughtNext(start: World, mid: World, t: World, ids: seq<Id>, i: nat, all: bool)
    requires i < |ids| && Ids(ids) <= start.rows.Keys && CaughtTo(start, mid, ids, i, true)
    requires NoLiveLeases(t) && Spared(mid.rows, t.rows, {ids[i]}) && mid.now <= t.now && (all ==> !Pending(t.rows[ids[i]]))
    ensures CaughtTo(start, t, ids, i + 1, all)
  {
    assert ids[i] in Ids(ids);
    SparedMore(start.rows, mid.rows, t.rows, Ids(ids), ids[i]);
  }

  lemma SparedBacklog(rows: map<Id, Row>, rows': map<Id, Row>, ids: set<Id>)
    requires Spared(rows, rows', ids)
    ensures Owing(rows') == Owing(rows) && Pendings(rows') <= Pendings(rows)
    ensures Backlog(rows') <= Backlog(rows)
    ensures Pendings(rows') < Pendings(rows) ==> Backlog(rows') < Backlog(rows)
  {
    SubsetCount(Pendings(rows'), Pendings(rows));
  }

  /** When every incident taken is caught up, exactly those leave the pending set. */
  lemma CaughtExactly(rows: map<Id, Row>, rows': map<Id, Row>, ids: set<Id>)
    requires Spared(rows, rows', ids) && ids <= Pendings(rows)
    requires forall id :: id in ids ==> !Pending(rows'[id])
    ensures Pendings(rows') == Pendings(rows) - ids
  {
  }

  /** Work that was due stays due while time passes. */
  lemma DueLater(s: World, t: World)
    requires t == s.(now := t.now) && s.now <= t.now && AnythingDue(s)
    ensures AnythingDue(t)
  {
    if DueAt(s.rows, s.now) != {} {
      var id :| id in DueAt(s.rows, s.now);
      assert id in DueAt(t.rows, t.now);
    }
  }

  lemma TakenSome(ids: seq<Id>, candidates: set<Id>, key: map<Id, Time>, limit: nat)
    requires candidates <= key.Keys && FirstBy(ids, candidates, key, limit) && limit > 0 && candidates != {}
    ensures |Ids(ids)| > 0 && Ids(ids) != {}
  {
    assert ids != [] && ids[0] in Ids(ids);
  }

  lemma TakenOwe(rows: map<Id, Row>, now: Time, ids: seq<Id>, n: nat)
    requires Ids(ids) <= DueAt(rows, now) && n <= |ids|
    ensures Ids(ids[..n]) <= Ids(ids) <= Owing(rows)
  {
  }

  // ----- what a pass means for the rows

  /** Only briefs whose due time had come were delivered in between. */
  ghost predicate OnTime(s: World, t: World) {
    forall id :: id in s.rows && id in t.rows && s.rows[id].briefDeliveredAt.None? && t.rows[id].briefDeliveredAt.Some? ==>
      s.rows[id].briefDueAt.Some? && s.rows[id].briefDueAt.value <= t.now
  }

  /** Every brief that was due is delivered. */
  ghost predicate DueSent(s: World, t: World) {
    forall id :: id in s.rows && s.rows[id].briefDueAt.Some? && s.rows[id].briefDueAt.value <= s.now ==>
      id in t.rows && t.rows[id].briefDeliveredAt.Some?
  }

  /** No incident that was briefed waits for a follow-up. */
  ghost predicate FollowUpsSent(t: World) {
    forall id :: id in t.rows && t.rows[id].briefDeliveredAt.Some? ==>
      && (t.rows[id].progressNeeded ==> t.rows[id].progressDeliveredAt.Some?)
      && (t.rows[id].postmortemNeeded ==> t.rows[id].postmortemDeliveredAt.Some?)
  }

  /** Every undelivered brief is due later. */
  ghost predicate NothingOverdue(t: World) {
    forall id :: id in t.rows && t.rows[id].briefDueAt.Some? && t.rows[id].briefDeliveredAt.None? ==>
      t.now < t.rows[id].briefDueAt.value
  }

  lemma BriefsOnTime(s: World, start: World, t: World, done: set<Id>)
    requires start == s.(now := start.now) && start.now <= t.now
    requires BriefedAll(start.rows, t.rows, done) && done <= DueAt(start.rows, start.now)
    ensures OnTime(s, t)
  {
    forall id | id in s.rows && s.rows[id].briefDeliveredAt.None? && t.rows[id].briefDeliveredAt.Some?
      ensures s.rows[id].briefDueAt.Some? && s.rows[id].briefDueAt.value <= t.now
    {
      assert id in done && id in DueAt(start.rows, start.now);
    }
  }

  lemma DueAreSent(s: World, start: World, t: World, done: set<Id>)
    requires start == s.(now := start.now) && s.now <= start.now
    requires BriefedAll(start.rows, t.rows, done) && DueAt(start.rows, start.now) <= done
    ensures DueSent(s, t)
  {
    forall id | id in s.rows && s.rows[id].briefDueAt.Some? && s.rows[id].briefDueAt.value <= s.now
      ensures id in t.rows && t.rows[id].briefDeliveredAt.Some?
    {
      if s.rows[id].briefDeliveredAt.None? { assert id in DueAt(start.rows, start.now); }
    }
  }

  lemma {:induction false} DistinctCount(ids: seq<Id>)
    requires Distinct(ids)
    ensures |Ids(ids)| == |ids|
    decreases |ids|
  {
    if ids != [] {
      var n := |ids| - 1;
      DistinctCount(ids[..n]);
      assert Ids(ids) == Ids(ids[..n]) + {ids[n]};
      assert ids[n] !in ids[..n];
    }
  }

  lemma NothingPending(t: World)
    requires Pendings(t.rows) == {}
    ensures FollowUpsSent(t)
  {
    forall id | id in t.rows ensures !Pending(t.rows[id]) { assert id !in Pendings(t.rows); }
  }

  lemma AllTaken(ids: seq<Id>, candidates: set<Id>, key: map<Id, Time>, limit: nat)
    requires candidates <= key.Keys && FirstBy(ids, candidates, key, limit) && |ids| < limit
    ensures candidates <= Ids(ids)
  {
    DistinctCount(ids);
    SubsetCount(Ids(ids), candidates);
    assert candidates - Ids(ids) == {};
  }

  /** Follow-ups deliver no brief. */
  lemma StillOnTime(s: World, mid: World, t: World, ids: set<Id>)
    requires OnTime(s, mid) && Spared(mid.rows, t.rows, ids) && mid.now <= t.now
    ensures OnTime(s, t)
  {
    forall id | id in s.rows && id in t.rows && s.rows[id].briefDeliveredAt.None? && t.rows[id].briefDeliveredAt.Some?
      ensures s.rows[id].briefDueAt.Some? && s.rows[id].briefDueAt.value <= t.now
    {
      assert NoWorse(mid.rows[id], t.rows[id]);
    }
  }

  lemma StillSent(s: World, mid: World, t: World, ids: set<Id>)
    requires DueSent(s, mid) && Spared(mid.rows, t.rows, ids)
    ensures DueSent(s, t)
  {
    forall id | id in s.rows && s.rows[id].briefDueAt.Some? && s.rows[id].briefDueAt.value <= s.now
      ensures id in t.rows && t.rows[id].briefDeliveredAt.Some?
    {
      assert NoWorse(mid.rows[id], t.rows[id]);
    }
  }

  /** The briefs and follow-ups that are due are none: written out for the rows. */
  lemma NothingDue(t: World)
    requires !AnythingDue(t)
    ensures FollowUpsSent(t) && NothingOverdue(t)
  {
    NothingPending(t);
    forall id | id in t.rows && t.rows[id].briefDueAt.Some? && t.rows[id].briefDeliveredAt.None?
      ensures t.now < t.rows[id].briefDueAt.value
    {
      assert id !in DueAt(t.rows, t.now);
    }
  }

  /** Briefs first, follow-ups second: whichever loop found work shrinks the backlog. */
  lemma PassShrinks(start: World, mid: World, query: World, rows: map<Id, Row>, briefs: seq<Id>, taken: seq<Id>, limit: nat)
    requires FirstBy(briefs, DueAt(start.rows, start.now), DueTimes(start.rows), limit)
    requires BriefedAll(start.rows, mid.rows, Ids(briefs))
    requires FirstBy(taken, PendingAt(query.rows, query.now), BriefedTimes(query.rows), limit)
    requires PendingAt(query.rows, query.now) == Pendings(mid.rows)
    requires Spared(mid.rows, rows, Ids(taken)) && Pendings(rows) == Pendings(mid.rows) - Ids(taken)
    ensures limit > 0 && AnythingDue(start) ==> Backlog(rows) < Backlog(start.rows)
  {
    TakenOwe(start.rows, start.now, briefs, |briefs|);
    BriefedBacklog(start.rows, mid.rows, Ids(briefs));
    SparedBacklog(mid.rows, rows, Ids(taken));
    if limit > 0 {
      if DueAt(start.rows, start.now) != {} {
        TakenSome(briefs, DueAt(start.rows, start.now), DueTimes(start.rows), limit);
      } else if Pendings(start.rows) != {} {
        NothingBriefed(start.rows, mid.rows, Ids(briefs));
        FollowUpsShrink(mid.rows, rows, query, taken, limit);
      }
    }
  }

  lemma FollowUpsShrink(rows: map<Id, Row>, rows': map<Id, Row>, query: World, taken: seq<Id>, limit: nat)
    requires FirstBy(taken, PendingAt(query.rows, query.now), BriefedTimes(query.rows), limit)
    requires PendingAt(query.rows, query.now) == Pendings(rows)
    requires Spared(rows, rows', Ids(taken)) && Pendings(rows') == Pendings(rows) - Ids(taken)
    requires limit > 0 && Pendings(rows) != {}
    ensures Backlog(rows') < Backlog(rows)
  {
    TakenSome(taken, PendingAt(query.rows, query.now), BriefedTimes(query.rows), limit);
    SparedBacklog(rows, rows', Ids(taken));
  }

  lemma NothingBriefed(rows: map<Id, Row>, rows': map<Id, Row>, done: set<Id>)
    requires BriefedAll(rows, rows', done) && done == {}
    ensures Pendings(rows') == Pendings(rows)
  {
  }
}
