/**
 Follow-ups appear only under a brief.  In every run a progress or postmortem
 post comes after an accepted brief of its incident; without overtaking it carries
 the thread id on the row, which is the one that brief's acceptance returned.
 */
module DeliveryThreads {
  import opened Basics
  import opened Incidents
  import opened Delivery
  import opened DeliverySafety
  import opened DeliveryPosts

  ghost predicate BriefAmong(posts: seq<Post>, n: int, id: Id) {
    exists j :: 0 <= j < n && j < |posts| && posts[j].id == id && posts[j].slot == Brief
  }

  /** Some accepted brief of the incident, among the first `n` posts, returned this thread id. */
  ghost predicate ThreadAmong(posts: seq<Post>, n: int, id: Id, ts: Option<string>) {
    exists j :: 0 <= j < n && j < |posts| && posts[j].id == id && posts[j].slot == Brief && posts[j].ts == ts
  }

  ghost predicate RowUnderBrief(s: World, id: Id)
    requires id in s.rows
  {
    var r := s.rows[id];
    && (r.briefDeliveredAt.Some? ==> BriefAmong(s.posts, |s.posts|, id))
    && (r.slackTs.Some? ==> r.briefDeliveredAt.Some? && ThreadAmong(s.posts, |s.posts|, id, r.slackTs))
  }

  ghost predicate AttemptUnderBrief(s: World, a: Attempt) {
    && (a.slot != Brief ==> BriefAmong(s.posts, |s.posts|, a.id))
    && (a.slot != Brief && a.thread.Some? ==> ThreadAmong(s.posts, |s.posts|, a.id, a.thread))
    && (a.slot == Brief && a.progress.Sent? ==> ThreadAmong(s.posts, |s.posts|, a.id, a.progress.ts))
    && (a.origin.Direct? ==> a.slot != Brief)
  }

  /** Post `k` is a brief, or follows one of its incident under a thread id such a brief returned. */
  ghost predicate PostUnderBrief(posts: seq<Post>, k: nat)
    requires k < |posts|
  {
    var p := posts[k];
    p.slot != Brief ==> BriefAmong(posts, k, p.id) && (p.thread.Some? ==> ThreadAmong(posts, k, p.id, p.thread))
  }

  ghost predicate ThreadInv(s: World) {
    && (forall id :: id in s.rows ==> RowUnderBrief(s, id))
    && (forall w :: 0 <= w < |s.workers| && s.workers[w].phase.Trying? ==> AttemptUnderBrief(s, s.workers[w].phase.attempt))
    && (forall k :: 0 <= k < |s.posts| ==> PostUnderBrief(s.posts, k))
  }

  lemma AmongGrows(posts: seq<Post>, post: Post, n: int, id: Id, ts: Option<string>)
    requires n <= |posts|
    ensures BriefAmong(posts, n, id) ==> BriefAmong(posts + [post], n, id) && BriefAmong(posts + [post], |posts| + 1, id)
    ensures ThreadAmong(posts, n, id, ts) ==> ThreadAmong(posts + [post], n, id, ts) && ThreadAmong(posts + [post], |posts| + 1, id, ts)
  {
    var more := posts + [post];
    if BriefAmong(posts, n, id) {
      var j :| 0 <= j < n && j < |posts| && posts[j].id == id && posts[j].slot == Brief;
      assert more[j] == posts[j];
    }
    if ThreadAmong(posts, n, id, ts) {
      var j :| 0 <= j < n && j < |posts| && posts[j].id == id && posts[j].slot == Brief && posts[j].ts == ts;
      assert more[j] == posts[j];
    }
  }

  /** Steps that leave rows' threads and the posts alone keep the invariant. */
  lemma StillUnderBrief(s: World, t: World)
    requires ThreadInv(s) && t.posts == s.posts
    requires forall id :: id in t.rows ==> RowUnderBrief(t, id)
    requires |t.workers| == |s.workers|
    requires forall w :: 0 <= w < |t.workers| && t.workers[w].phase.Trying? ==> AttemptUnderBrief(t, t.workers[w].phase.attempt)
    ensures ThreadInv(t)
  {
  }

  lemma RowsStillUnderBrief(s: World, t: World)
    requires ThreadInv(s) && t.posts == s.posts && QuietRows(s.rows, t.rows)
    ensures forall id :: id in t.rows ==> RowUnderBrief(t, id)
  {
    forall id | id in t.rows
      ensures RowUnderBrief(t, id)
    {
      if id in s.rows {
        assert RowUnderBrief(s, id);
        assert t.rows[id].Delivered(Brief) == s.rows[id].Delivered(Brief);
      } else {
        assert t.rows[id].Delivered(Brief).None?;
      }
    }
  }

  lemma AcceptUnderBrief(s: World, w: nat, a: Attempt, ts: Option<string>, channel: Option<string>)
    requires ThreadInv(s) && w < |s.workers| && s.workers[w].phase == Trying(a) && a.progress.Ready?
    ensures ThreadInv(TryNext(s, w, Accept(ts, channel), a))
  {
    var t := TryNext(s, w, Accept(ts, channel), a);
    var post := Post(a.id, a.slot, if a.slot == Brief then None else a.thread, ts);
    assert t.posts == s.posts + [post];
    forall id | id in t.rows
      ensures RowUnderBrief(t, id)
    {
      assert RowUnderBrief(s, id);
      AmongGrows(s.posts, post, |s.posts|, id, s.rows[id].slackTs);
    }
    assert AttemptUnderBrief(s, a);
    forall v | 0 <= v < |t.workers| && t.workers[v].phase.Trying?
      ensures AttemptUnderBrief(t, t.workers[v].phase.attempt)
    {
      var b := s.workers[v].phase.attempt;
      AmongGrows(s.posts, post, |s.posts|, b.id, b.thread);
      if v != w && b.progress.Sent? { AmongGrows(s.posts, post, |s.posts|, b.id, b.progress.ts); }
      if v == w { assert t.posts[|s.posts|] == post; }
    }
    forall k | 0 <= k < |t.posts|
      ensures PostUnderBrief(t.posts, k)
    {
      if k < |s.posts| {
        assert PostUnderBrief(s.posts, k) && t.posts[k] == s.posts[k];
        AmongGrows(s.posts, post, k, s.posts[k].id, s.posts[k].thread);
      } else {
        AmongGrows(s.posts, post, |s.posts|, a.id, a.thread);
      }
    }
  }

  lemma MarkUnderBrief(s: World, w: nat, a: Attempt)
    requires ThreadInv(s) && w < |s.workers| && s.workers[w].phase == Trying(a) && a.progress.Sent? && a.id in s.rows
    ensures ThreadInv(TryNext(s, w, MarkDelivered, a))
  {
    var t := TryNext(s, w, MarkDelivered, a);
    assert AttemptUnderBrief(s, a);
    forall id | id in t.rows
      ensures RowUnderBrief(t, id)
    {
      assert RowUnderBrief(s, id);
      if id == a.id && a.slot == Brief {
        var j :| 0 <= j < |s.posts| && s.posts[j].id == id && s.posts[j].slot == Brief && s.posts[j].ts == a.progress.ts;
        assert BriefAmong(t.posts, |t.posts|, id);
      }
    }
    forall v | 0 <= v < |t.workers| && t.workers[v].phase.Trying?
      ensures AttemptUnderBrief(t, t.workers[v].phase.attempt)
    {
      assert v != w && AttemptUnderBrief(s, s.workers[v].phase.attempt);
    }
  }

  lemma OtherTryUnderBrief(s: World, w: nat, action: Action, a: Attempt)
    requires ThreadInv(s) && w < |s.workers| && s.workers[w].phase == Trying(a)
    requires !action.Accept? && !action.MarkDelivered? && !action.Crash?
    ensures ThreadInv(TryNext(s, w, action, a))
  {
    var t := TryNext(s, w, action, a);
    assert AttemptUnderBrief(s, a);
    forall id | id in t.rows
      ensures RowUnderBrief(t, id)
    {
      assert RowUnderBrief(s, id);
    }
    forall v | 0 <= v < |t.workers| && t.workers[v].phase.Trying?
      ensures AttemptUnderBrief(t, t.workers[v].phase.attempt)
    {
      assert AttemptUnderBrief(s, s.workers[v].phase.attempt);
      if a.id in s.rows { assert RowUnderBrief(s, a.id); }
    }
  }

  lemma StartUnderBrief(s: World, w: nat, id: Id, slot: Slot, origin: Origin)
    requires ThreadInv(s) && w < |s.workers| && id in s.rows && Claimable(s.rows[id], slot, s.now)
    requires origin.Direct? ==> slot != Brief
    ensures ThreadInv(Start(s, w, id, slot, origin))
  {
    var t := Start(s, w, id, slot, origin);
    assert RowUnderBrief(s, id);
    forall i | i in t.rows
      ensures RowUnderBrief(t, i)
    {
      assert RowUnderBrief(s, i);
    }
    forall v | 0 <= v < |t.workers| && t.workers[v].phase.Trying?
      ensures AttemptUnderBrief(t, t.workers[v].phase.attempt)
    {
      if v != w { assert AttemptUnderBrief(s, s.workers[v].phase.attempt); }
    }
  }

  lemma HandleUnderBrief(s: World, w: nat, ev: Event, stage: nat, recorded: bool, window: Time)
    requires ThreadInv(s) && w < |s.workers| && s.workers[w].phase.Handling?
    ensures ThreadInv(HandleNext(s, w, ev, stage, recorded, window))
  {
    var t := HandleNext(s, w, ev, stage, recorded, window);
    var progress, resolved := ev.kind == InProgress && stage >= 4, ev.kind == Resolved && stage >= 3;
    if progress && ev.id in s.rows && Claimable(s.rows[ev.id], Slot.Progress, s.now) {
      StartUnderBrief(s, w, ev.id, Slot.Progress, Direct);
    } else if resolved && ev.id in s.rows && Claimable(s.rows[ev.id], Postmortem, s.now) {
      StartUnderBrief(s, w, ev.id, Postmortem, Direct);
    } else {
      if !progress && !resolved { HandleRowsQuiet(s, w, ev, stage, recorded, window); }
      RowsStillUnderBrief(s, t);
      StillUnderBrief(s, t);
    }
  }

  lemma ThreadStep(s: World, step: Step)
    requires ThreadInv(s)
    ensures ThreadInv(Next(s, step))
  {
    var t := Next(s, step);
    match step
    case Tick(d) =>
      RowsStillUnderBrief(s, t);
    case Index(id, title, openedAt, service) =>
      EnsureIsQuiet(s.rows, id, title, openedAt, service);
      RowsStillUnderBrief(s, t);
      StillUnderBrief(s, t);
    case Act(w, action) =>
      if w < |s.workers| { ActUnderBrief(s, w, action); }
  }

  lemma ActUnderBrief(s: World, w: nat, action: Action)
    requires ThreadInv(s) && w < |s.workers|
    ensures ThreadInv(ActNext(s, w, action))
  {
    var wk, t := s.workers[w], ActNext(s, w, action);
    if !action.Crash? && wk.phase.Trying? {
      var a := wk.phase.attempt;
      if action.Accept? {
        if a.progress.Ready? { AcceptUnderBrief(s, w, a, action.ts, action.channel); }
      } else if action.MarkDelivered? {
        if a.progress.Sent? && a.id in s.rows { MarkUnderBrief(s, w, a); }
      } else {
        OtherTryUnderBrief(s, w, action, a);
      }
    } else if !action.Crash? && wk.phase.Handling? {
      if action.Handle? && HasMessage(s, wk) {
        HandleUnderBrief(s, w, s.topic[wk.part][wk.pos], wk.phase.stage, wk.phase.recorded, action.window);
      }
    } else if !action.Crash? && action.DrainClaim? && action.id in s.rows && DrainClaimable(s.rows[action.id], action.slot, s.now) {
      StartUnderBrief(s, w, action.id, action.slot, Drain);
    } else {
      RowsStillUnderBrief(s, t);
      StillUnderBrief(s, t);
    }
  }

  lemma {:induction false} ThreadRun(s: World, run: seq<Step>)
    requires ThreadInv(s)
    ensures ThreadInv(Exec(s, run))
    decreases |run|
  {
    if run != [] {
      ThreadStep(s, run[0]);
      ThreadRun(Next(s, run[0]), run[1..]);
    }
  }

  /** In every run, each follow-up post comes after an accepted brief of its incident, under a thread id such a brief returned. */
  lemma FollowUpsUnderBrief(s: World, run: seq<Step>, k: nat)
    requires Init(s) && k < |Exec(s, run).posts| && Exec(s, run).posts[k].slot != Brief
    ensures var posts := Exec(s, run).posts;
      && (exists j :: 0 <= j < k && posts[j].id == posts[k].id && posts[j].slot == Brief)
      && (posts[k].thread.Some? ==>
            exists j :: 0 <= j < k && posts[j].id == posts[k].id && posts[j].slot == Brief && posts[j].ts == posts[k].thread)
  {
    ThreadRun(s, run);
    assert PostUnderBrief(Exec(s, run).posts, k);
  }

  /** The thread id on a briefed row is the one its marked brief returned, and follow-ups in hand or posted carry it. */
  ghost predicate SameThread(s: World) {
    && (forall id :: id in s.rows && s.rows[id].briefDeliveredAt.Some? ==>
          ThreadAmong(s.posts, |s.posts|, id, s.rows[id].slackTs))
    && (forall id :: id in s.rows && s.rows[id].briefDeliveredAt.None? ==> s.rows[id].slackTs.None?)
    && (forall w :: 0 <= w < |s.workers| && s.workers[w].phase.Trying? ==> AttemptThread(s, s.workers[w].phase.attempt))
    && (forall k :: 0 <= k < |s.posts| && s.posts[k].slot != Brief ==> PostThread(s, s.posts[k]))
  }

  ghost predicate AttemptThread(s: World, a: Attempt) {
    && (a.slot != Brief ==>
          a.id in s.rows && s.rows[a.id].briefDeliveredAt.Some? && a.thread == s.rows[a.id].slackTs)
    && (a.slot == Brief && a.progress.Sent? ==> ThreadAmong(s.posts, |s.posts|, a.id, a.progress.ts))
  }

  ghost predicate PostThread(s: World, p: Post) {
    p.id in s.rows && s.rows[p.id].briefDeliveredAt.Some? && p.thread == s.rows[p.id].slackTs
  }

  /** Thread ids and brief stamps stay; rows may be added untouched. */
  ghost predicate ThreadRows(rows: map<Id, Row>, rows': map<Id, Row>) {
    && (forall id :: id in rows ==> id in rows' && rows'[id].slackTs == rows[id].slackTs
                                    && rows'[id].briefDeliveredAt == rows[id].briefDeliveredAt)
    && (forall id :: id in rows' && id !in rows ==> rows'[id].slackTs.None? && rows'[id].briefDeliveredAt.None?)
  }

  lemma QuietThreadRows(rows: map<Id, Row>, rows': map<Id, Row>)
    requires QuietRows(rows, rows')
    ensures ThreadRows(rows, rows')
  {
    forall id | id in rows'
      ensures id in rows ==> rows'[id].briefDeliveredAt == rows[id].briefDeliveredAt
      ensures id !in rows ==> rows'[id].briefDeliveredAt.None?
    {
      if id in rows { assert rows'[id].Delivered(Brief) == rows[id].Delivered(Brief); }
      else { assert rows'[id].Delivered(Brief).None?; }
    }
  }

  lemma ThreadAmongGrows(posts: seq<Post>, posts': seq<Post>, id: Id, ts: Option<string>)
    requires posts <= posts' && ThreadAmong(posts, |posts|, id, ts)
    ensures ThreadAmong(posts', |posts'|, id, ts)
  {
    var j :| 0 <= j < |posts| && posts[j].id == id && posts[j].slot == Brief && posts[j].ts == ts;
    assert posts'[j] == posts[j];
  }

  lemma SameThreadFrame(s: World, t: World)
    requires SameThread(s) && s.posts <= t.posts && ThreadRows(s.rows, t.rows)
    requires forall w :: 0 <= w < |t.workers| && t.workers[w].phase.Trying? ==> AttemptThread(t, t.workers[w].phase.attempt)
    requires forall k :: |s.posts| <= k < |t.posts| && t.posts[k].slot != Brief ==> PostThread(t, t.posts[k])
    ensures SameThread(t)
  {
    forall id | id in t.rows && t.rows[id].briefDeliveredAt.Some?
      ensures ThreadAmong(t.posts, |t.posts|, id, t.rows[id].slackTs)
    {
      ThreadAmongGrows(s.posts, t.posts, id, s.rows[id].slackTs);
    }
    forall k | 0 <= k < |t.posts| && t.posts[k].slot != Brief
      ensures PostThread(t, t.posts[k])
    {
      if k < |s.posts| { assert t.posts[k] == s.posts[k] && PostThread(s, s.posts[k]); }
    }
  }

  lemma AttemptThreadFrame(s: World, t: World, a: Attempt)
    requires AttemptThread(s, a) && s.posts <= t.posts && ThreadRows(s.rows, t.rows)
    ensures AttemptThread(t, a)
  {
    if a.slot == Brief && a.progress.Sent? { ThreadAmongGrows(s.posts, t.posts, a.id, a.progress.ts); }
  }

  lemma StartSameThread(s: World, w: nat, id: Id, slot: Slot, origin: Origin)
    requires SameThread(s) && w < |s.workers| && id in s.rows && Claimable(s.rows[id], slot, s.now)
    ensures SameThread(Start(s, w, id, slot, origin))
  {
    var t := Start(s, w, id, slot, origin);
    assert ThreadRows(s.rows, t.rows);
    forall v | 0 <= v < |t.workers| && t.workers[v].phase.Trying?
      ensures AttemptThread(t, t.workers[v].phase.attempt)
    {
      if v != w { AttemptThreadFrame(s, t, s.workers[v].phase.attempt); }
    }
    SameThreadFrame(s, t);
  }

  /** Worker `w` moves without starting, posting or marking. */
  lemma MoveSameThread(s: World, t: World, w: nat)
    requires SameThread(s) && t.posts == s.posts && ThreadRows(s.rows, t.rows)
    requires w < |s.workers| == |t.workers| && t.workers == s.workers[w := t.workers[w]]
    requires t.workers[w].phase.Trying? ==> AttemptThread(t, t.workers[w].phase.attempt)
    ensures SameThread(t)
  {
    forall v | 0 <= v < |t.workers| && t.workers[v].phase.Trying?
      ensures AttemptThread(t, t.workers[v].phase.attempt)
    {
      if v != w { AttemptThreadFrame(s, t, s.workers[v].phase.attempt); }
    }
    SameThreadFrame(s, t);
  }

  lemma AcceptSameThread(s: World, w: nat, a: Attempt, ts: Option<string>, channel: Option<string>)
    requires SameThread(s) && w < |s.workers| && s.workers[w].phase == Trying(a) && a.progress.Ready?
    ensures SameThread(TryNext(s, w, Accept(ts, channel), a))
  {
    var t := TryNext(s, w, Accept(ts, channel), a);
    assert t.posts[..|s.posts|] == s.posts;
    assert AttemptThread(s, a);
    forall v | 0 <= v < |t.workers| && t.workers[v].phase.Trying?
      ensures AttemptThread(t, t.workers[v].phase.attempt)
    {
      if v != w { AttemptThreadFrame(s, t, s.workers[v].phase.attempt); }
      else { assert t.posts[|s.posts|].id == a.id && t.posts[|s.posts|].ts == ts; }
    }
    SameThreadFrame(s, t);
  }

  /** The one step that sets a thread id: the row had no brief, so nothing carried an older id. */
  lemma MarkBriefSameThread(s: World, w: nat, a: Attempt)
    requires SameThread(s) && LeaseInv(s) && w < |s.workers| && s.workers[w].phase == Trying(a)
    requires a.progress.Sent? && a.slot == Brief
    requires a.id in s.rows
    ensures SameThread(TryNext(s, w, MarkDelivered, a))
  {
    var t := TryNext(s, w, MarkDelivered, a);
    assert Leased(s, w) && AttemptThread(s, a);
    assert s.rows[a.id].Delivered(Brief).None?;
    assert t.rows[a.id].slackTs == a.progress.ts && t.posts == s.posts;
    forall v | 0 <= v < |t.workers| && t.workers[v].phase.Trying?
      ensures AttemptThread(t, t.workers[v].phase.attempt)
    {
      assert v != w && AttemptThread(s, s.workers[v].phase.attempt);
    }
    forall k | 0 <= k < |t.posts| && t.posts[k].slot != Brief
      ensures PostThread(t, t.posts[k])
    {
      assert PostThread(s, s.posts[k]);
    }
  }

  /** A row keeps its thread id and its brief stamp through a release or a follow-up's mark. */
  lemma SettleThreadRow(rows: map<Id, Row>, id: Id, slot: Slot, now: Time, ts: Option<string>, channel: Option<string>)
    requires id in rows
    ensures ThreadRows(rows, rows[id := Release(rows[id], slot)])
    ensures slot != Brief ==> ThreadRows(rows, rows[id := Mark(rows[id], slot, now, ts, channel)])
  {
  }

  lemma MarkFollowUpSameThread(s: World, w: nat, a: Attempt)
    requires SameThread(s) && w < |s.workers| && s.workers[w].phase == Trying(a)
    requires a.progress.Sent? && a.slot != Brief && a.id in s.rows
    ensures SameThread(TryNext(s, w, MarkDelivered, a))
  {
    SettleThreadRow(s.rows, a.id, a.slot, s.now, a.progress.ts, a.progress.channel);
    MoveSameThread(s, TryNext(s, w, MarkDelivered, a), w);
  }

  lemma ReleaseSameThread(s: World, w: nat, a: Attempt)
    requires SameThread(s) && w < |s.workers| && s.workers[w].phase == Trying(a)
    requires a.progress.Failing? && a.id in s.rows
    ensures SameThread(TryNext(s, w, ReleaseClaim, a))
  {
    SettleThreadRow(s.rows, a.id, a.slot, s.now, None, None);
    MoveSameThread(s, TryNext(s, w, ReleaseClaim, a), w);
  }

  lemma OtherTrySameThread(s: World, w: nat, action: Action, a: Attempt)
    requires SameThread(s) && w < |s.workers| && s.workers[w].phase == Trying(a)
    requires !action.Accept? && !action.MarkDelivered? && !action.ReleaseClaim? && !action.Crash?
    ensures SameThread(TryNext(s, w, action, a))
  {
    assert AttemptThread(s, a);
    if TryNext(s, w, action, a) != s { MoveSameThread(s, TryNext(s, w, action, a), w); }
  }

  lemma HandleSameThread(s: World, w: nat, ev: Event, stage: nat, recorded: bool, window: Time)
    requires SameThread(s) && w < |s.workers| && s.workers[w].phase.Handling?
    ensures SameThread(HandleNext(s, w, ev, stage, recorded, window))
  {
    var t := HandleNext(s, w, ev, stage, recorded, window);
    var progress, resolved := ev.kind == InProgress && stage >= 4, ev.kind == Resolved && stage >= 3;
    if progress && ev.id in s.rows && Claimable(s.rows[ev.id], Slot.Progress, s.now) {
      StartSameThread(s, w, ev.id, Slot.Progress, Direct);
    } else if resolved && ev.id in s.rows && Claimable(s.rows[ev.id], Postmortem, s.now) {
      StartSameThread(s, w, ev.id, Postmortem, Direct);
    } else {
      if !progress && !resolved { HandleRowsQuiet(s, w, ev, stage, recorded, window); }
      QuietThreadRows(s.rows, t.rows);
      MoveSameThread(s, t, w);
    }
  }

  lemma ActSameThread(s: World, w: nat, action: Action)
    requires SameThread(s) && LeaseInv(s) && w < |s.workers|
    ensures SameThread(ActNext(s, w, action))
  {
    var wk, t := s.workers[w], ActNext(s, w, action);
    if !action.Crash? && wk.phase.Trying? {
      var a := wk.phase.attempt;
      if action.Accept? {
        if a.progress.Ready? { AcceptSameThread(s, w, a, action.ts, action.channel); }
      } else if action.MarkDelivered? {
        if a.progress.Sent? && a.id in s.rows {
          if a.slot == Brief { MarkBriefSameThread(s, w, a); } else { MarkFollowUpSameThread(s, w, a); }
        }
      } else if action.ReleaseClaim? {
        if a.progress.Failing? && a.id in s.rows { ReleaseSameThread(s, w, a); }
      } else {
        OtherTrySameThread(s, w, action, a);
      }
    } else if !action.Crash? && wk.phase.Handling? {
      if action.Handle? && HasMessage(s, wk) {
        HandleSameThread(s, w, s.topic[wk.part][wk.pos], wk.phase.stage, wk.phase.recorded, action.window);
      }
    } else if !action.Crash? && action.DrainClaim? && action.id in s.rows && DrainClaimable(s.rows[action.id], action.slot, s.now) {
      StartSameThread(s, w, action.id, action.slot, Drain);
    } else {
      MoveSameThread(s, t, w);
    }
  }

  lemma SameThreadStep(s: World, step: Step)
    requires SameThread(s) && LeaseInv(s)
    ensures SameThread(Next(s, step))
  {
    var t := Next(s, step);
    match step
    case Tick(d) =>
      SameThreadFrame(s, t);
    case Index(id, title, openedAt, service) =>
      EnsureIsQuiet(s.rows, id, title, openedAt, service);
      QuietThreadRows(s.rows, t.rows);
      forall v | 0 <= v < |t.workers| && t.workers[v].phase.Trying?
        ensures AttemptThread(t, t.workers[v].phase.attempt)
      {
        AttemptThreadFrame(s, t, s.workers[v].phase.attempt);
      }
      SameThreadFrame(s, t);
    case Act(w, action) =>
      if w < |s.workers| { ActSameThread(s, w, action); }
  }

  lemma {:induction false} SameThreadRun(s: World, run: seq<Step>)
    requires SameThread(s) && Inv(s) && !Overtaken(s, run)
    ensures SameThread(Exec(s, run))
    decreases |run|
  {
    if run != [] {
      SameThreadStep(s, run[0]);
      InvStep(s, run[0]);
      SameThreadRun(Next(s, run[0]), run[1..]);
    }
  }

  /**
   In every state of a run without overtaking, each follow-up post so far carries exactly the
   thread id its row holds, and that id is what an accepted brief returned.
   */
  lemma FollowUpsCarryRowThread(s: World, run: seq<Step>, k: nat)
    requires Init(s) && !Overtaken(s, run)
    requires k < |Exec(s, run).posts| && Exec(s, run).posts[k].slot != Brief
    ensures var t := Exec(s, run);
      && var p := t.posts[k];
      && p.id in t.rows && p.thread == t.rows[p.id].slackTs
      && (exists j :: 0 <= j < |t.posts| && t.posts[j].id == p.id && t.posts[j].slot == Brief && t.posts[j].ts == p.thread)
  {
    InitInv(s);
    SameThreadRun(s, run);
    var t := Exec(s, run);
    assert PostThread(t, t.posts[k]);
    assert ThreadAmong(t.posts, |t.posts|, t.posts[k].id, t.posts[k].thread);
  }
}
