/**
 The post accounting of the delivery protocol.  Without any assumption, posts
 equal marks plus losses plus posts in flight; as long as no attempt is overtaken,
 a slot is marked at most once and a delivered slot is never posted again.
 */
module DeliveryPosts {
  import opened Basics
  import opened Incidents
  import opened Delivery
  import opened DeliverySafety

  function Posted(posts: seq<Post>, key: Key): nat {
    if posts == [] then 0
    else Posted(posts[..|posts| - 1], key) + (if (posts[|posts| - 1].id, posts[|posts| - 1].slot) == key then 1 else 0)
  }

  /** The worker's post was accepted and its attempt has not ended. */
  predicate InHand(wk: Worker, key: Key) {
    wk.phase.Trying? && wk.phase.attempt.progress.Sent? && (wk.phase.attempt.id, wk.phase.attempt.slot) == key
  }

  function InFlight(workers: seq<Worker>, key: Key): nat {
    if workers == [] then 0
    else InFlight(workers[..|workers| - 1], key) + (if InHand(workers[|workers| - 1], key) then 1 else 0)
  }

  /** Conservation: every accepted post is marked, lost or still in hand. */
  ghost predicate PostLaw(s: World) {
    forall key: Key :: Posted(s.posts, key) == s.marks[key] + s.lost[key] + InFlight(s.workers, key)
  }

  ghost predicate DeliveredKey(s: World, key: Key) {
    key.0 in s.rows && s.rows[key.0].Delivered(key.1).Some?
  }

  /** A slot carries a delivery stamp exactly when some attempt marked it. */
  ghost predicate MarksInv(s: World) {
    forall key: Key :: DeliveredKey(s, key) <==> s.marks[key] > 0
  }

  ghost predicate MarkedOnce(s: World) {
    forall key: Key :: s.marks[key] <= 1
  }

  lemma {:induction false} InFlightUpdate(workers: seq<Worker>, w: nat, wk': Worker, key: Key)
    requires w < |workers|
    ensures InFlight(workers[w := wk'], key) + (if InHand(workers[w], key) then 1 else 0)
         == InFlight(workers, key) + (if InHand(wk', key) then 1 else 0)
    decreases |workers|
  {
    var last := |workers| - 1;
    if w == last {
      assert workers[w := wk'][..last] == workers[..last];
    } else {
      assert workers[w := wk'][..last] == workers[..last][w := wk'];
      InFlightUpdate(workers[..last], w, wk', key);
    }
  }

  /** One worker acts, and its post in hand changes by what the step did to the books. */
  ghost predicate Balanced(s: World, t: World, w: nat, key: Key) {
    && w < |s.workers| == |t.workers|
    && t.workers == s.workers[w := t.workers[w]]
    && Posted(t.posts, key) + s.marks[key] + s.lost[key] + (if InHand(s.workers[w], key) then 1 else 0)
       == Posted(s.posts, key) + t.marks[key] + t.lost[key] + (if InHand(t.workers[w], key) then 1 else 0)
  }

  lemma PostedAppend(posts: seq<Post>, post: Post, key: Key)
    ensures Posted(posts + [post], key) == Posted(posts, key) + (if (post.id, post.slot) == key then 1 else 0)
  {
    assert (posts + [post])[..|posts|] == posts;
  }

  lemma HandleBalanced(s: World, w: nat, ev: Event, stage: nat, recorded: bool, window: Time, key: Key)
    requires w < |s.workers| && s.workers[w].phase.Handling?
    ensures Balanced(s, HandleNext(s, w, ev, stage, recorded, window), w, key)
  {
  }

  lemma AcceptBalanced(s: World, w: nat, action: Action, a: Attempt, key: Key)
    requires w < |s.workers| && s.workers[w].phase == Trying(a) && action.Accept?
    ensures Balanced(s, TryNext(s, w, action, a), w, key)
  {
    if a.progress.Ready? {
      PostedAppend(s.posts, Post(a.id, a.slot, if a.slot == Brief then None else a.thread, action.ts), key);
    }
  }

  lemma MarkBalanced(s: World, w: nat, action: Action, a: Attempt, key: Key)
    requires w < |s.workers| && s.workers[w].phase == Trying(a) && action.MarkDelivered?
    ensures Balanced(s, TryNext(s, w, action, a), w, key)
  {
  }

  lemma MarkRaisesBalanced(s: World, w: nat, action: Action, a: Attempt, key: Key)
    requires w < |s.workers| && s.workers[w].phase == Trying(a) && action.MarkRaises?
    ensures Balanced(s, TryNext(s, w, action, a), w, key)
  {
  }

  lemma TryBalanced(s: World, w: nat, action: Action, a: Attempt, key: Key)
    requires w < |s.workers| && s.workers[w].phase == Trying(a)
    ensures Balanced(s, TryNext(s, w, action, a), w, key)
  {
    if action.Accept? { AcceptBalanced(s, w, action, a, key); }
    else if action.MarkDelivered? { MarkBalanced(s, w, action, a, key); }
    else if action.MarkRaises? { MarkRaisesBalanced(s, w, action, a, key); }
  }

  lemma StepBalanced(s: World, w: nat, action: Action, key: Key)
    requires w < |s.workers|
    ensures Balanced(s, ActNext(s, w, action), w, key)
  {
    var wk := s.workers[w];
    if action.Crash? {
    } else if wk.phase.Idle? {
    } else if wk.phase.Trying? {
      TryBalanced(s, w, action, wk.phase.attempt, key);
    } else if action.Handle? && HasMessage(s, wk) {
      HandleBalanced(s, w, s.topic[wk.part][wk.pos], wk.phase.stage, wk.phase.recorded, action.window, key);
    }
  }

  /** The conservation law survives every step, overtaking or not. */
  lemma PostLawStep(s: World, step: Step)
    requires PostLaw(s)
    ensures PostLaw(Next(s, step))
  {
    var t := Next(s, step);
    if step.Act? && step.w < |s.workers| {
      forall key: Key
        ensures Posted(t.posts, key) == t.marks[key] + t.lost[key] + InFlight(t.workers, key)
      {
        StepBalanced(s, step.w, step.action, key);
        InFlightUpdate(s.workers, step.w, t.workers[step.w], key);
      }
    }
  }

  lemma QuietKeepsMarks(s: World, t: World)
    requires MarksInv(s) && Quiet(s, t)
    ensures MarksInv(t)
  {
    forall key: Key
      ensures DeliveredKey(t, key) <==> DeliveredKey(s, key)
    {
    }
  }

  lemma ClaimKeepsMarks(s: World, t: World, w: nat, id: Id, slot: Slot)
    requires MarksInv(s) && Claims(s, t, w, id, slot)
    ensures MarksInv(t) && t.marks == s.marks
  {
    var origin :| t == Start(s, w, id, slot, origin);
    forall key: Key
      ensures DeliveredKey(t, key) <==> DeliveredKey(s, key)
    {
      assert Claim(s.rows[id], slot, s.now).Delivered(key.1) == s.rows[id].Delivered(key.1);
    }
  }

  lemma ReleaseKeepsMarks(s: World, t: World, w: nat)
    requires MarksInv(s) && w < |s.workers| && s.workers[w].phase.Trying?
    requires var a := s.workers[w].phase.attempt;
      a.id in s.rows && Settles(s, t, w, Release(s.rows[a.id], a.slot)) && t.marks == s.marks
    ensures MarksInv(t)
  {
    var a := s.workers[w].phase.attempt;
    forall key: Key
      ensures DeliveredKey(t, key) <==> DeliveredKey(s, key)
    {
      assert Release(s.rows[a.id], a.slot).Delivered(key.1) == s.rows[a.id].Delivered(key.1);
    }
  }

  lemma MarkKeepsMarks(s: World, t: World, w: nat)
    requires MarksInv(s) && Marks(s, t, w)
    ensures MarksInv(t)
    ensures LeaseInv(s) && MarkedOnce(s) ==> MarkedOnce(t)
  {
    var a := s.workers[w].phase.attempt;
    var mine := (a.id, a.slot);
    forall key: Key
      ensures DeliveredKey(t, key) <==> DeliveredKey(s, key) || key == mine
    {
      if key.1 != a.slot { OtherSlot(s.rows[a.id], a.slot, key.1, s.now, a.progress.ts, a.progress.channel); }
    }
    if LeaseInv(s) {
      assert Leased(s, w);
      assert !DeliveredKey(s, mine);
    }
  }

  lemma MarksStep(s: World, step: Step)
    requires MarksInv(s)
    ensures MarksInv(Next(s, step))
    ensures LeaseInv(s) && MarkedOnce(s) ==> MarkedOnce(Next(s, step))
    ensures s.marks <= Next(s, step).marks
  {
    var t := Next(s, step);
    StepShape(s, step);
    if Quiet(s, t) {
      QuietKeepsMarks(s, t);
    } else if exists w, id, slot :: Claims(s, t, w, id, slot) {
      var w, id, slot :| Claims(s, t, w, id, slot);
      ClaimKeepsMarks(s, t, w, id, slot);
    } else if Marks(s, t, step.w) {
      MarkKeepsMarks(s, t, step.w);
    } else {
      ReleaseKeepsMarks(s, t, step.w);
    }
  }

  ghost predicate Inv(s: World) {
    LeaseInv(s) && PostLaw(s) && MarksInv(s) && MarkedOnce(s)
  }

  lemma {:induction false} NothingInFlight(workers: seq<Worker>, key: Key)
    requires forall w :: 0 <= w < |workers| ==> !InHand(workers[w], key)
    ensures InFlight(workers, key) == 0
    decreases |workers|
  {
    if workers != [] { NothingInFlight(workers[..|workers| - 1], key); }
  }

  lemma {:induction false} OneInFlight(s: World, n: nat, key: Key)
    requires Exclusive(s) && n <= |s.workers|
    ensures InFlight(s.workers[..n], key) <= 1
  {
    if n > 0 {
      var before := s.workers[..n - 1];
      assert s.workers[..n][..n - 1] == before;
      if InHand(s.workers[n - 1], key) {
        forall v | 0 <= v < |before|
          ensures !InHand(before[v], key)
        {
        }
        NothingInFlight(before, key);
      } else {
        OneInFlight(s, n - 1, key);
      }
    }
  }

  lemma InitInv(s: World)
    requires Init(s)
    ensures Inv(s)
  {
    forall key: Key
      ensures InFlight(s.workers, key) == 0
    {
      NothingInFlight(s.workers, key);
    }
  }

  lemma InvStep(s: World, step: Step)
    requires Inv(s) && !Overtakes(s, step)
    ensures Inv(Next(s, step))
  {
    LeaseStep(s, step);
    PostLawStep(s, step);
    MarksStep(s, step);
  }

  lemma {:induction false} InvRun(s: World, run: seq<Step>)
    requires Inv(s) && !Overtaken(s, run)
    ensures Inv(Exec(s, run))
    decreases |run|
  {
    if run != [] {
      InvStep(s, run[0]);
      InvRun(Next(s, run[0]), run[1..]);
    }
  }

  /** In every state of a run without overtaking at most one worker attempts a given slot, and it owns the row's lease. */
  lemma LeaseSafety(s: World, run: seq<Step>, v: nat, w: nat, id: Id, slot: Slot)
    requires Init(s) && !Overtaken(s, run)
    requires Holds(Exec(s, run), v, id, slot) && Holds(Exec(s, run), w, id, slot)
    ensures v == w
    ensures var t := Exec(s, run);
      id in t.rows && t.rows[id].Lease(slot) == Some(t.workers[w].phase.attempt.since) && t.rows[id].Delivered(slot).None?
  {
    InitInv(s);
    InvRun(s, run);
    var t := Exec(s, run);
    assert Leased(t, w);
  }

  /** The books of one slot in every state of a run without overtaking. */
  lemma PostBound(s: World, run: seq<Step>, id: Id, slot: Slot)
    requires Init(s) && !Overtaken(s, run)
    ensures var t, key := Exec(s, run), (id, slot);
      && Posted(t.posts, key) == (if DeliveredKey(t, key) then 1 else 0) + t.lost[key] + InFlight(t.workers, key)
      && InFlight(t.workers, key) <= (if DeliveredKey(t, key) then 0 else 1)
      && Posted(t.posts, key) <= 1 + t.lost[key]
  {
    InitInv(s);
    InvRun(s, run);
    var t, key := Exec(s, run), (id, slot);
    assert t.workers[..|t.workers|] == t.workers;
    OneInFlight(t, |t.workers|, key);
    if DeliveredKey(t, key) {
      forall w | 0 <= w < |t.workers|
        ensures !InHand(t.workers[w], key)
      {
        if t.workers[w].phase.Trying? { assert Leased(t, w); }
      }
      NothingInFlight(t.workers, key);
    }
  }

  /** With or without overtaking posts are still all accounted for. */
  lemma {:induction false} PostConservation(s: World, run: seq<Step>)
    requires PostLaw(s)
    ensures PostLaw(Exec(s, run))
    decreases |run|
  {
    if run != [] {
      PostLawStep(s, run[0]);
      PostConservation(Next(s, run[0]), run[1..]);
    }
  }

  /** Only an accepted delivery of an attempt in progress adds a post. */
  lemma PostsStep(s: World, step: Step)
    ensures var t := Next(s, step);
      || t.posts == s.posts
      || (step.Act? && step.w < |s.workers| && s.workers[step.w].phase.Trying? && step.action.Accept?
          && var a := s.workers[step.w].phase.attempt;
          t.posts == s.posts + [Post(a.id, a.slot, if a.slot == Brief then None else a.thread, step.action.ts)])
  {
    if step.Act? && step.w < |s.workers| && s.workers[step.w].phase.Trying? && !step.action.Crash? {
      var a := s.workers[step.w].phase.attempt;
      assert Next(s, step) == TryNext(s, step.w, step.action, a);
    }
  }

  lemma DeliveredStep(s: World, step: Step, key: Key)
    requires Inv(s) && DeliveredKey(s, key)
    ensures DeliveredKey(Next(s, step), key)
    ensures Posted(Next(s, step).posts, key) == Posted(s.posts, key)
  {
    MarksStep(s, step);
    PostsStep(s, step);
    if Next(s, step).posts != s.posts {
      assert Leased(s, step.w);
      var a := s.workers[step.w].phase.attempt;
      PostedAppend(s.posts, Post(a.id, a.slot, if a.slot == Brief then None else a.thread, step.action.ts), key);
    }
  }

  /** Delivery is final: once a slot is stamped, no later step of a run without overtaking posts it again. */
  lemma {:induction false} DeliveryIsFinal(s: World, run: seq<Step>, key: Key)
    requires Inv(s) && !Overtaken(s, run) && DeliveredKey(s, key)
    ensures DeliveredKey(Exec(s, run), key)
    ensures Posted(Exec(s, run).posts, key) == Posted(s.posts, key)
    decreases |run|
  {
    if run != [] {
      DeliveredStep(s, run[0], key);
      InvStep(s, run[0]);
      DeliveryIsFinal(Next(s, run[0]), run[1..], key);
    }
  }

  /** Two workers attempting the same brief, the first one past its lease. */
  lemma SecondClaim() returns (s: World, t: World, id: Id, r: Row)
    ensures Init(s) && Reaches(s, t)
    ensures id in t.rows && t.rows[id] == r && r.briefDeliveredAt.None?
    ensures Holds(t, 0, id, Brief) && Holds(t, 1, id, Brief) && |t.workers| == 2
    ensures t.workers[0].phase.attempt.progress.Ready? && t.workers[1].phase.attempt.progress.Ready?
    ensures t.workers[0].phase.attempt.origin.Drain? && t.workers[1].phase.attempt.origin.Drain?
    ensures t.posts == [] && t.marks == multiset{} && t.lost == multiset{}
  {
    id := "p:1";
    s := World(0, map[], [], [Worker(0, 0, Idle), Worker(0, 0, Idle)], [[]], [0], map[], multiset{}, multiset{});
    ReachesSelf(s);
    ReachesNext(s, s, Index(id, "outage", 0, "p"));
    var s1 := Next(s, Index(id, "outage", 0, "p"));
    assert s1.rows[id] == NewRow("outage", 0, "p");
    ReachesNext(s, s1, Act(0, DrainClaim(id, Brief)));
    var s2 := Next(s1, Act(0, DrainClaim(id, Brief)));
    assert s2.rows[id].briefedAt == Some(0);
    ReachesNext(s, s2, Tick(LEASE + 1));
    var s3 := Next(s2, Tick(LEASE + 1));
    ReachesNext(s, s3, Act(1, DrainClaim(id, Brief)));
    t := Next(s3, Act(1, DrainClaim(id, Brief)));
    r := t.rows[id];
  }

  lemma AcceptNext(s: World, w: nat, a: Attempt)
    requires w < |s.workers| && s.workers[w].phase == Trying(a) && a.progress.Ready? && a.slot == Brief
    ensures Next(s, Act(w, Accept(None, None)))
         == SetPhase(s.(posts := s.posts + [Post(a.id, Brief, None, None)]), w, Trying(a.(progress := Sent(None, None))))
  {
  }

  lemma MarkNext(s: World, w: nat, a: Attempt)
    requires w < |s.workers| && s.workers[w].phase == Trying(a) && a.progress.Sent? && a.origin.Drain? && a.id in s.rows
    ensures var r := Mark(s.rows[a.id], a.slot, s.now, a.progress.ts, a.progress.channel);
      Next(s, Act(w, MarkDelivered))
        == SetPhase(s.(rows := s.rows[a.id := r], marks := s.marks + multiset{(a.id, a.slot)}), w, Idle)
  {
  }

  lemma TwoAccepts(s: World, s0: World, a: Attempt, b: Attempt) returns (t: World)
    requires Reaches(s, s0) && |s0.workers| == 2 && s0.workers[0].phase == Trying(a) && s0.workers[1].phase == Trying(b)
    requires a.progress.Ready? && a.slot == Brief && b.progress.Ready? && b.slot == Brief
    ensures Reaches(s, t)
    ensures t.workers == [s0.workers[0].(phase := Trying(a.(progress := Sent(None, None)))),
                          s0.workers[1].(phase := Trying(b.(progress := Sent(None, None))))]
    ensures t == s0.(workers := t.workers,
                     posts := s0.posts + [Post(a.id, Brief, None, None)] + [Post(b.id, Brief, None, None)])
  {
    var accept := Accept(None, None);
    AcceptNext(s0, 0, a);
    ReachesNext(s, s0, Act(0, accept));
    var s1 := Next(s0, Act(0, accept));
    AcceptNext(s1, 1, b);
    ReachesNext(s, s1, Act(1, accept));
    t := Next(s1, Act(1, accept));
  }

  lemma TwoMarks(s: World, s2: World, a: Attempt, b: Attempt) returns (t: World)
    requires Reaches(s, s2) && |s2.workers| == 2 && s2.workers[0].phase == Trying(a) && s2.workers[1].phase == Trying(b)
    requires a.progress.Sent? && a.origin.Drain? && b.progress.Sent? && b.origin.Drain?
    requires a.id == b.id && a.id in s2.rows
    ensures Reaches(s, t) && t.posts == s2.posts && t.lost == s2.lost
    ensures t.marks == s2.marks + multiset{(a.id, a.slot)} + multiset{(b.id, b.slot)}
  {
    MarkNext(s2, 0, a);
    ReachesNext(s, s2, Act(0, MarkDelivered));
    var s3 := Next(s2, Act(0, MarkDelivered));
    MarkNext(s3, 1, b);
    ReachesNext(s, s3, Act(1, MarkDelivered));
    t := Next(s3, Act(1, MarkDelivered));
  }

  /**
   The lease is only as good as its length.  A worker that is still busy when
   its lease runs out shares the slot with the next claimant: both post, both
   mark, and no post was lost on the way.
   */
  lemma OverlongAttemptDuplicates() returns (s: World, t: World, id: Id)
    ensures Init(s) && Reaches(s, t)
    ensures Posted(t.posts, (id, Brief)) == 2 && t.lost == multiset{} && t.marks[(id, Brief)] == 2
  {
    var s0, r;
    s, s0, id, r := SecondClaim();
    var post := Post(id, Brief, None, None);
    var a, b := s0.workers[0].phase.attempt, s0.workers[1].phase.attempt;
    assert a.id == id && a.slot == Brief && b.id == id && b.slot == Brief;
    var s2 := TwoAccepts(s, s0, a, b);
    t := TwoMarks(s, s2, a.(progress := Sent(None, None)), b.(progress := Sent(None, None)));
    TwoPosts(post);
    assert t.posts == [post] + [post];
  }

  lemma TwoPosts(post: Post)
    ensures Posted([post] + [post], (post.id, post.slot)) == 2
  {
    PostedAppend([], post, (post.id, post.slot));
    PostedAppend([post], post, (post.id, post.slot));
    assert [] + [post] == [post];
  }
}
