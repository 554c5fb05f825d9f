/**
 The language-model call budget of freshet/rag/budget.py as a machine: several
 workers share one Postgres table of calls per hour.  Reading the day's total
 and recording a spend are two statements, so other workers run in between, and
 a worker may die at any point.
 */
module Budget {
  import opened Basics

  /** A row of `llm_budget`; the window is its primary key. */
  datatype Row = Row(window: Time, calls: nat)

  /** One recorded spend: who made it and when. */
  datatype Spend = Spend(who: nat, at: Time)

  datatype Phase = Idle | Checked | Paid

  datatype World = World(
    hourlyCap: int,
    dailyCap: int,
    now: Time,
    table: seq<Row>,
    workers: seq<Phase>,
    spends: seq<Spend>,
    calls: seq<nat>)

  datatype Step =
    | Tick(to: Time)
    | Check(w: nat)
    | Record(w: nat)
    | Call(w: nat)
    | Die(w: nat)
    | Prune

  /** `date_trunc('hour', t)`. */
  function HourOf(t: Time): (h: Time)
    ensures h <= t < h + HOUR
  {
    t - t % HOUR
  }

  /** The row's calls, or none when there is no row. */
  function Calls(table: seq<Row>, window: Time): nat {
    if table == [] then 0
    else if table[0].window == window then table[0].calls
    else Calls(table[1..], window)
  }

  /** `SELECT coalesce(sum(calls), 0) ... WHERE window_start > cutoff`. */
  function SumSince(table: seq<Row>, cutoff: Time): nat {
    if table == [] then 0
    else (if table[0].window > cutoff then table[0].calls else 0) + SumSince(table[1..], cutoff)
  }

  /** `INSERT ... ON CONFLICT DO UPDATE SET calls = calls + 1`. */
  function Increment(table: seq<Row>, window: Time): seq<Row> {
    if table == [] then [Row(window, 1)]
    else if table[0].window == window then [Row(window, table[0].calls + 1)] + table[1..]
    else [table[0]] + Increment(table[1..], window)
  }

  /** `DELETE ... WHERE window_start < horizon`. */
  function Pruned(table: seq<Row>, horizon: Time): seq<Row> {
    if table == [] then []
    else (if table[0].window < horizon then [] else [table[0]]) + Pruned(table[1..], horizon)
  }

  function DaySum(s: World): nat {
    SumSince(s.table, s.now - DAY)
  }

  function SetPhase(s: World, w: nat, phase: Phase): World
    requires w < |s.workers|
  {
    s.(workers := s.workers[w := phase])
  }

  predicate Enabled(s: World) {
    s.hourlyCap > 0 && s.dailyCap > 0
  }

  function AfterRecord(s: World, w: nat): World
    requires w < |s.workers|
  {
    SetPhase(s, w, Paid).(
      table := Increment(s.table, HourOf(s.now)),
      spends := s.spends + [Spend(w, s.now)])
  }

  function Next(s: World, step: Step): World {
    match step
    case Tick(to) => if s.now <= to then s.(now := to) else s
    case Check(w) =>
      if w < |s.workers| && s.workers[w].Idle? && Enabled(s) && DaySum(s) < s.dailyCap
      then SetPhase(s, w, Checked) else s
    case Record(w) =>
      if !(w < |s.workers| && s.workers[w].Checked?) then s
      else if Calls(s.table, HourOf(s.now)) < s.hourlyCap then AfterRecord(s, w)
      else SetPhase(s, w, Idle)
    case Call(w) =>
      if w < |s.workers| && s.workers[w].Paid? then SetPhase(s, w, Idle).(calls := s.calls + [w]) else s
    case Die(w) => if w < |s.workers| then SetPhase(s, w, Idle) else s
    case Prune => s.(table := Pruned(s.table, s.now - 7 * DAY))
  }

  function Exec(s: World, run: seq<Step>): World
    decreases |run|
  {
    if run == [] then s else Exec(Next(s, run[0]), run[1..])
  }

  ghost predicate Init(s: World) {
    s.table == [] && s.spends == [] && s.calls == [] && forall w :: 0 <= w < |s.workers| ==> s.workers[w].Idle?
  }

  // ----- counting spends

  function InHour(spends: seq<Spend>, window: Time): nat {
    if spends == [] then 0
    else InHour(spends[..|spends| - 1], window) + (if HourOf(spends[|spends| - 1].at) == window then 1 else 0)
  }

  function HoursSince(spends: seq<Spend>, cutoff: Time): nat {
    if spends == [] then 0
    else HoursSince(spends[..|spends| - 1], cutoff) + (if HourOf(spends[|spends| - 1].at) > cutoff then 1 else 0)
  }

  /** Spends in a closed interval of real time. */
  function Between(spends: seq<Spend>, from: Time, to: Time): nat {
    if spends == [] then 0
    else Between(spends[..|spends| - 1], from, to) + (if from <= spends[|spends| - 1].at <= to then 1 else 0)
  }

  function ByWorker(spends: seq<Spend>, w: nat): nat {
    if spends == [] then 0
    else ByWorker(spends[..|spends| - 1], w) + (if spends[|spends| - 1].who == w then 1 else 0)
  }

  function CountPhase(workers: seq<Phase>, phase: Phase): (n: nat)
    ensures n <= |workers|
  {
    if workers == [] then 0
    else CountPhase(workers[..|workers| - 1], phase) + (if workers[|workers| - 1] == phase then 1 else 0)
  }

  lemma {:induction false} CountPhaseUpdate(workers: seq<Phase>, w: nat, to: Phase, phase: Phase)
    requires w < |workers|
    ensures CountPhase(workers[w := to], phase)
         == CountPhase(workers, phase) - (if workers[w] == phase then 1 else 0) + (if to == phase then 1 else 0)
    decreases |workers|
  {
    var n := |workers| - 1;
    if w == n {
      assert workers[w := to][..n] == workers[..n];
    } else {
      assert workers[w := to][..n] == workers[..n][w := to];
      CountPhaseUpdate(workers[..n], w, to, phase);
    }
  }

  // ----- the table is the spends, hour by hour

  lemma {:induction false} IncrementAdds(table: seq<Row>, window: Time, at: Time, cutoff: Time)
    ensures Calls(Increment(table, window), at) == Calls(table, at) + (if at == window then 1 else 0)
    ensures SumSince(Increment(table, window), cutoff) == SumSince(table, cutoff) + (if window > cutoff then 1 else 0)
    decreases |table|
  {
    if table == [] {
      assert [Row(window, 1)][1..] == [];
    } else if table[0].window == window {
      var t := Increment(table, window);
      assert t[0] == Row(window, table[0].calls + 1) && t[1..] == table[1..];
    } else {
      var t := Increment(table, window);
      assert t[0] == table[0] && t[1..] == Increment(table[1..], window);
      IncrementAdds(table[1..], window, at, cutoff);
    }
  }

  lemma {:induction false} PruneKeepsRecent(table: seq<Row>, horizon: Time, at: Time, cutoff: Time)
    requires horizon <= at && horizon <= cutoff + 1
    ensures Calls(Pruned(table, horizon), at) == Calls(table, at)
    ensures SumSince(Pruned(table, horizon), cutoff) == SumSince(table, cutoff)
    decreases |table|
  {
    if table != [] {
      PruneKeepsRecent(table[1..], horizon, at, cutoff);
      if table[0].window >= horizon {
        var t := Pruned(table, horizon);
        assert t[0] == table[0] && t[1..] == Pruned(table[1..], horizon);
      } else {
        assert Pruned(table, horizon) == Pruned(table[1..], horizon);
      }
    }
  }

  /** What the table says about any hour younger than a week is what was spent in it. */
  ghost predicate Accounted(s: World) {
    && (forall h :: h >= s.now - 7 * DAY ==> Calls(s.table, h) == InHour(s.spends, h))
    && (forall c :: c >= s.now - 7 * DAY ==> SumSince(s.table, c) == HoursSince(s.spends, c))
  }

  lemma SpendsAppend(spends: seq<Spend>, x: Spend)
    ensures forall h :: InHour(spends + [x], h) == InHour(spends, h) + (if HourOf(x.at) == h then 1 else 0)
    ensures forall c :: HoursSince(spends + [x], c) == HoursSince(spends, c) + (if HourOf(x.at) > c then 1 else 0)
    ensures forall w :: ByWorker(spends + [x], w) == ByWorker(spends, w) + (if x.who == w then 1 else 0)
  {
    assert (spends + [x])[..|spends|] == spends;
  }

  lemma AccountedStep(s: World, step: Step)
    requires Accounted(s)
    ensures Accounted(Next(s, step))
  {
    var t := Next(s, step);
    if step.Prune? {
      var horizon := s.now - 7 * DAY;
      forall h | h >= horizon ensures Calls(t.table, h) == InHour(t.spends, h) {
        PruneKeepsRecent(s.table, horizon, h, h);
      }
      forall c | c >= horizon ensures SumSince(t.table, c) == HoursSince(t.spends, c) {
        PruneKeepsRecent(s.table, horizon, c, c);
      }
    } else if t.spends != s.spends {
      assert t == AfterRecord(s, step.w);
      SpendsAppend(s.spends, Spend(step.w, s.now));
      forall h | h >= s.now - 7 * DAY ensures Calls(t.table, h) == InHour(t.spends, h) {
        IncrementAdds(s.table, HourOf(s.now), h, h);
      }
      forall c | c >= s.now - 7 * DAY ensures SumSince(t.table, c) == HoursSince(t.spends, c) {
        IncrementAdds(s.table, HourOf(s.now), c, c);
      }
    }
  }

  // ----- the bounds

  /** Spends are in time order and every hour holds at most the hourly cap. */
  ghost predicate Hourly(s: World) {
    && (forall i :: 0 <= i < |s.spends| ==> s.spends[i].at <= s.now)
    && (forall i, j :: 0 <= i < j < |s.spends| ==> s.spends[i].at <= s.spends[j].at)
    && (Enabled(s) ==> forall h :: InHour(s.spends, h) <= s.hourlyCap)
  }

  /** The day's total plus the checks still to be spent stays under the cap plus the number of workers. */
  ghost predicate Daily(s: World) {
    Enabled(s) ==> DaySum(s) + CountPhase(s.workers, Checked) < s.dailyCap + |s.workers|
  }

  /** The day's total as each spend left it: the hours that start within 24 hours of it. */
  ghost predicate DailyThroughout(s: World) {
    Enabled(s) ==>
      forall n :: 0 <= n < |s.spends| ==> DayAt(s.spends, n) < s.dailyCap + |s.workers|
  }

  /** The day's total right after the n-th spend. */
  function DayAt(spends: seq<Spend>, n: nat): nat
    requires n < |spends|
  {
    HoursSince(spends[..n + 1], spends[n].at - DAY)
  }

  lemma DayAtAppend(spends: seq<Spend>, x: Spend)
    ensures forall n :: 0 <= n < |spends| ==> DayAt(spends + [x], n) == DayAt(spends, n)
    ensures DayAt(spends + [x], |spends|) == HoursSince(spends + [x], x.at - DAY)
  {
    forall n | 0 <= n < |spends| ensures DayAt(spends + [x], n) == DayAt(spends, n) {
      assert (spends + [x])[..n + 1] == spends[..n + 1];
    }
    assert (spends + [x])[..|spends| + 1] == spends + [x];
  }

  /** A zero or negative cap means that nothing was ever checked, let alone spent. */
  ghost predicate DisabledIsFree(s: World) {
    !Enabled(s) ==> s.spends == [] && forall w :: 0 <= w < |s.workers| ==> s.workers[w].Idle?
  }

  ghost predicate Inv(s: World) {
    Accounted(s) && Hourly(s) && Daily(s) && DailyThroughout(s) && DisabledIsFree(s)
  }

  lemma {:induction false} SumSinceFalls(table: seq<Row>, early: Time, late: Time)
    requires early <= late
    ensures SumSince(table, late) <= SumSince(table, early)
    decreases |table|
  {
    if table != [] { SumSinceFalls(table[1..], early, late); }
  }

  /** Spending moves a check's room to the table; every other change of phase leaves room or makes it. */
  lemma DailyPhase(s: World, step: Step)
    requires Daily(s) && (step.Check? || step.Record? || step.Call? || step.Die?)
    ensures Daily(Next(s, step))
  {
    var t := Next(s, step);
    if step.w < |s.workers| {
      CountPhaseUpdate(s.workers, step.w, t.workers[step.w], Checked);
      assert s.workers[step.w := s.workers[step.w]] == s.workers;
      IncrementAdds(s.table, HourOf(s.now), 0, s.now - DAY);
    }
  }

  /** Reading the total and spending are apart, so a check must still leave room for every other worker's. */
  lemma DailyStep(s: World, step: Step)
    requires Daily(s)
    ensures Daily(Next(s, step))
  {
    if step.Tick? {
      if s.now <= step.to { SumSinceFalls(s.table, s.now - DAY, step.to - DAY); }
    } else if step.Prune? {
      PruneKeepsRecent(s.table, s.now - 7 * DAY, s.now, s.now - DAY);
    } else {
      DailyPhase(s, step);
    }
  }

  lemma HourlyStep(s: World, step: Step)
    requires Accounted(s) && Hourly(s)
    ensures Hourly(Next(s, step))
  {
    if Next(s, step).spends != s.spends {
      SpendsAppend(s.spends, Spend(step.w, s.now));
      assert Calls(s.table, HourOf(s.now)) == InHour(s.spends, HourOf(s.now));
    }
  }

  lemma DailyThroughoutStep(s: World, step: Step)
    requires DailyThroughout(s) && Accounted(Next(s, step)) && Daily(Next(s, step))
    ensures DailyThroughout(Next(s, step))
  {
    var t := Next(s, step);
    if t.spends != s.spends {
      assert t.spends == s.spends + [Spend(step.w, s.now)];
      DayAtAppend(s.spends, Spend(step.w, s.now));
      assert SumSince(t.table, t.now - DAY) == HoursSince(t.spends, t.now - DAY);
    }
  }

  lemma {:induction false} InvRun(s: World, run: seq<Step>)
    requires Inv(s)
    ensures Inv(Exec(s, run))
    decreases |run|
  {
    if run != [] {
      AccountedStep(s, run[0]);
      HourlyStep(s, run[0]);
      DailyStep(s, run[0]);
      DailyThroughoutStep(s, run[0]);
      InvRun(Next(s, run[0]), run[1..]);
    }
  }

  lemma InitInv(s: World)
    requires Init(s)
    ensures Inv(s)
  {
    NoneInPhase(s.workers, Checked);
  }

  lemma {:induction false} NoneInPhase(workers: seq<Phase>, phase: Phase)
    requires forall w :: 0 <= w < |workers| ==> workers[w] != phase
    ensures CountPhase(workers, phase) == 0
    decreases |workers|
  {
    if workers != [] { NoneInPhase(workers[..|workers| - 1], phase); }
  }

  // ----- any real day

  /** Up to the last spend in it, a real day lies in the hours its check sums and the one before them. */
  lemma {:induction false} DayCovered(spends: seq<Spend>, from: Time, last: Time)
    requires from >= last - DAY
    requires forall i :: 0 <= i < |spends| ==> spends[i].at <= last
    ensures Between(spends, from, last) <= HoursSince(spends, last - DAY) + InHour(spends, HourOf(last - DAY))
    decreases |spends|
  {
    if spends != [] {
      DayCovered(spends[..|spends| - 1], from, last);
      if spends[|spends| - 1].at >= from { HoursAreAligned(spends[|spends| - 1].at, last - DAY); }
    }
  }

  /** Every hour after the one that `t` is in starts after `t`. */
  lemma HoursAreAligned(at: Time, t: Time)
    requires at >= t
    ensures HourOf(at) > t || HourOf(at) == HourOf(t)
  {
    var a, b := at / HOUR, t / HOUR;
    assert HourOf(at) == a * HOUR && HourOf(t) == b * HOUR;
    if a > b {
      assert HourOf(at) >= HourOf(t) + HOUR;
    } else {
      assert a == b;
    }
  }

  /** Nothing after a prefix counts when it lies outside the interval. */
  lemma {:induction false} BetweenPrefix(spends: seq<Spend>, n: nat, from: Time, to: Time)
    requires n <= |spends| && forall i :: n <= i < |spends| ==> !(from <= spends[i].at <= to)
    ensures Between(spends, from, to) == Between(spends[..n], from, to)
    decreases |spends|
  {
    if n < |spends| {
      BetweenPrefix(spends[..|spends| - 1], n, from, to);
      assert spends[..|spends| - 1][..n] == spends[..n];
    } else {
      assert spends[..n] == spends;
    }
  }

  lemma {:induction false} BetweenTo(spends: seq<Spend>, from: Time, to: Time, last: Time)
    requires last <= to && forall i :: 0 <= i < |spends| ==> spends[i].at <= last
    ensures Between(spends, from, to) == Between(spends, from, last)
    decreases |spends|
  {
    if spends != [] { BetweenTo(spends[..|spends| - 1], from, to, last); }
  }

  lemma {:induction false} InHourPrefix(spends: seq<Spend>, n: nat, window: Time)
    requires n <= |spends|
    ensures InHour(spends[..n], window) <= InHour(spends, window)
    decreases |spends|
  {
    if n < |spends| {
      InHourPrefix(spends[..|spends| - 1], n, window);
      assert spends[..|spends| - 1][..n] == spends[..n];
    } else {
      assert spends[..n] == spends;
    }
  }

  /** The index of the last spend no later than `to`, plus one. */
  function UpTo(spends: seq<Spend>, to: Time): (n: nat)
    ensures n <= |spends|
    ensures n > 0 ==> spends[n - 1].at <= to
    ensures forall i :: n <= i < |spends| ==> spends[i].at > to
  {
    if spends == [] then 0
    else if spends[|spends| - 1].at <= to then |spends|
    else UpTo(spends[..|spends| - 1], to)
  }

  /** A real day that holds the last of these spends. */
  lemma DayEndingAt(spends: seq<Spend>, from: Time)
    requires spends != [] && from <= spends[|spends| - 1].at <= from + DAY
    requires forall i :: 0 <= i < |spends| ==> spends[i].at <= spends[|spends| - 1].at
    ensures var last := spends[|spends| - 1].at;
      Between(spends, from, from + DAY) <= HoursSince(spends, last - DAY) + InHour(spends, HourOf(last - DAY))
  {
    var last := spends[|spends| - 1].at;
    BetweenTo(spends, from, from + DAY, last);
    DayCovered(spends, from, last);
  }

  lemma DayBound(t: World, from: Time)
    requires Hourly(t) && DailyThroughout(t) && Enabled(t)
    ensures Between(t.spends, from, from + DAY) < t.dailyCap + t.hourlyCap + |t.workers|
  {
    var n := UpTo(t.spends, from + DAY);
    if n > 0 && from <= t.spends[n - 1].at {
      var last := t.spends[n - 1].at;
      BetweenPrefix(t.spends, n, from, from + DAY);
      SortedPrefix(t, n);
      DayEndingAt(t.spends[..n], from);
      InHourPrefix(t.spends, n, HourOf(last - DAY));
      assert InHour(t.spends, HourOf(last - DAY)) <= t.hourlyCap;
      assert DayAt(t.spends, n - 1) == HoursSince(t.spends[..n], last - DAY);
    } else {
      NoneBetween(t, n, from);
    }
  }

  lemma NoneBetween(t: World, n: nat, from: Time)
    requires Hourly(t) && n == UpTo(t.spends, from + DAY) && (n > 0 ==> t.spends[n - 1].at < from)
    ensures Between(t.spends, from, from + DAY) == 0
  {
    forall i | 0 <= i < |t.spends| ensures !(from <= t.spends[i].at <= from + DAY) {
      if i < n { assert t.spends[i].at <= t.spends[n - 1].at; }
    }
    BetweenPrefix(t.spends, 0, from, from + DAY);
  }

  lemma SortedPrefix(t: World, n: nat)
    requires Hourly(t) && 0 < n <= |t.spends|
    ensures var prefix := t.spends[..n];
      |prefix| == n && prefix[n - 1] == t.spends[n - 1]
      && forall i :: 0 <= i < n ==> prefix[i].at <= prefix[n - 1].at
  {
  }

  /**
     In any run, any 24 hours of real time, both ends included, hold at most the
     two caps together plus one spend for each worker but the first.
   */
  lemma AnyRealDay(s: World, run: seq<Step>, from: Time)
    requires Init(s) && Enabled(s)
    ensures Between(Exec(s, run).spends, from, from + DAY) < s.dailyCap + s.hourlyCap + |s.workers|
  {
    InitInv(s);
    InvRun(s, run);
    CapsKept(s, run);
    DayBound(Exec(s, run), from);
  }

  lemma {:induction false} CapsKept(s: World, run: seq<Step>)
    ensures var t := Exec(s, run);
      t.hourlyCap == s.hourlyCap && t.dailyCap == s.dailyCap && |t.workers| == |s.workers|
    decreases |run|
  {
    if run != [] { CapsKept(Next(s, run[0]), run[1..]); }
  }

  /** In any run, every clock hour is within the hourly cap and the day's total within the daily cap's reach. */
  lemma AnyHourAndWindow(s: World, run: seq<Step>, h: Time)
    requires Init(s)
    ensures var t := Exec(s, run);
      if Enabled(s) then InHour(t.spends, h) <= s.hourlyCap && DaySum(t) < s.dailyCap + |s.workers|
      else t.spends == [] && t.calls == []
  {
    InitInv(s);
    InvRun(s, run);
    CapsKept(s, run);
    PaidForRun(s, run);
  }

  // ----- a call is never made without its own spend

  function CallsBy(calls: seq<nat>, w: nat): nat {
    if calls == [] then 0
    else CallsBy(calls[..|calls| - 1], w) + (if calls[|calls| - 1] == w then 1 else 0)
  }

  ghost predicate PaidFor(s: World) {
    && (forall w :: 0 <= w < |s.workers| ==>
          CallsBy(s.calls, w) + (if s.workers[w].Paid? then 1 else 0) <= ByWorker(s.spends, w))
    && (s.spends == [] ==> s.calls == [])
  }

  lemma PaidForStep(s: World, step: Step)
    requires PaidFor(s)
    ensures PaidFor(Next(s, step))
  {
    var t := Next(s, step);
    if t.spends != s.spends {
      SpendsAppend(s.spends, Spend(step.w, s.now));
    } else if t.calls != s.calls {
      assert t.calls[..|s.calls|] == s.calls;
    }
  }

  lemma {:induction false} PaidForRun(s: World, run: seq<Step>)
    requires Init(s) || PaidFor(s)
    ensures PaidFor(Exec(s, run))
    decreases |run|
  {
    if run != [] {
      PaidForStep(s, run[0]);
      PaidForRun(Next(s, run[0]), run[1..]);
    }
  }

  // ----- the bound is reached

  ghost predicate Reaches(s: World, t: World) {
    exists run: seq<Step> :: Exec(s, run) == t
  }

  lemma ReachesNext(s: World, t: World, step: Step)
    requires Reaches(s, t)
    ensures Reaches(s, Next(t, step))
  {
    var run :| Exec(s, run) == t;
    ExecAppend(s, run, step);
  }

  /** A state at which `spent` calls were recorded in this hour and none in the day before it. */
  ghost predicate Spending(s: World, n: nat, dailyCap: nat, spent: nat) {
    && |s.workers| == n && s.dailyCap == dailyCap && s.hourlyCap == dailyCap + n - 1
    && Accounted(s) && InHour(s.spends, HourOf(s.now)) == spent && HoursSince(s.spends, s.now - DAY) == spent
  }

  /** All workers are in one phase, but the first `k` already in the other. */
  ghost predicate Phases(s: World, k: nat, from: Phase, to: Phase) {
    k <= |s.workers| && forall w :: 0 <= w < |s.workers| ==> s.workers[w] == if w < k then to else from
  }

  /** The same clock and caps, with `k` more spends, all at the same time. */
  ghost predicate Grew(s: World, t: World, k: nat) {
    && t.now == s.now && |t.spends| == |s.spends| + k && s.spends <= t.spends
    && forall i :: |s.spends| <= i < |t.spends| ==> t.spends[i].at == s.now
  }

  lemma CheckPasses(s: World, n: nat, dailyCap: nat, spent: nat, w: nat)
    requires Spending(s, n, dailyCap, spent) && spent < dailyCap && w < n && s.workers[w].Idle? && n > 0
    ensures Next(s, Check(w)) == SetPhase(s, w, Checked) && Spending(Next(s, Check(w)), n, dailyCap, spent)
  {
    AccountedStep(s, Check(w));
  }

  lemma RecordGranted(s: World, n: nat, dailyCap: nat, spent: nat, w: nat)
    requires Spending(s, n, dailyCap, spent) && spent < dailyCap + n - 1 && w < n && s.workers[w].Checked?
    ensures var t := Next(s, Record(w));
      Spending(t, n, dailyCap, spent + 1) && Grew(s, t, 1) && t.workers == s.workers[w := Paid]
  {
    SpendsAppend(s.spends, Spend(w, s.now));
    AccountedStep(s, Record(w));
  }

  lemma OneCall(origin: World, s: World, n: nat, dailyCap: nat, spent: nat) returns (t: World)
    requires Reaches(origin, s) && Spending(s, n, dailyCap, spent) && spent + 1 < dailyCap && n > 0 && Phases(s, 0, Idle, Idle)
    ensures Reaches(origin, t) && Spending(t, n, dailyCap, spent + 1) && Phases(t, 0, Idle, Idle) && Grew(s, t, 1)
  {
    CheckPasses(s, n, dailyCap, spent, 0);
    ReachesNext(origin, s, Check(0));
    var checked := Next(s, Check(0));
    RecordGranted(checked, n, dailyCap, spent, 0);
    ReachesNext(origin, checked, Record(0));
    var paid := Next(checked, Record(0));
    AccountedStep(paid, Die(0));
    ReachesNext(origin, paid, Die(0));
    t := Next(paid, Die(0));
  }

  /** One call after the other by the first worker, until one more would be refused. */
  lemma OneByOne(origin: World, s: World, n: nat, dailyCap: nat) returns (t: World)
    requires Reaches(origin, s) && Spending(s, n, dailyCap, 0) && n > 0 && dailyCap > 0 && Phases(s, 0, Idle, Idle)
    ensures Reaches(origin, t) && Spending(t, n, dailyCap, dailyCap - 1) && Phases(t, 0, Idle, Idle) && Grew(s, t, dailyCap - 1)
  {
    t := s;
    for spent := 0 to dailyCap - 1
      invariant Reaches(origin, t) && Spending(t, n, dailyCap, spent) && Phases(t, 0, Idle, Idle) && Grew(s, t, spent)
    {
      t := OneCall(origin, t, n, dailyCap, spent);
    }
  }

  /** With room for one more call left, every worker checks before any of them spends. */
  lemma AllCheck(origin: World, s: World, n: nat, dailyCap: nat) returns (t: World)
    requires n > 0 && dailyCap > 0 && Reaches(origin, s) && Spending(s, n, dailyCap, dailyCap - 1) && Phases(s, 0, Idle, Checked)
    ensures Reaches(origin, t) && Spending(t, n, dailyCap, dailyCap - 1) && Phases(t, n, Idle, Checked) && Grew(s, t, 0)
  {
    t := s;
    for w := 0 to n
      invariant Reaches(origin, t) && Spending(t, n, dailyCap, dailyCap - 1) && Phases(t, w, Idle, Checked) && Grew(s, t, 0)
    {
      CheckPasses(t, n, dailyCap, dailyCap - 1, w);
      ReachesNext(origin, t, Check(w));
      t := Next(t, Check(w));
    }
  }

  lemma AllRecord(origin: World, s: World, n: nat, dailyCap: nat) returns (t: World)
    requires dailyCap > 0 && Reaches(origin, s) && Spending(s, n, dailyCap, dailyCap - 1) && Phases(s, 0, Checked, Paid)
    ensures Reaches(origin, t) && Spending(t, n, dailyCap, dailyCap + n - 1) && Phases(t, n, Checked, Paid) && Grew(s, t, n)
  {
    t := s;
    for w := 0 to n
      invariant Reaches(origin, t) && Spending(t, n, dailyCap, dailyCap - 1 + w) && Phases(t, w, Checked, Paid) && Grew(s, t, w)
    {
      RecordGranted(t, n, dailyCap, dailyCap - 1 + w, w);
      ReachesNext(origin, t, Record(w));
      t := Next(t, Record(w));
    }
  }

  lemma AllRest(origin: World, s: World, n: nat, dailyCap: nat, spent: nat) returns (t: World)
    requires Reaches(origin, s) && Spending(s, n, dailyCap, spent) && Phases(s, 0, Paid, Idle)
    ensures Reaches(origin, t) && Spending(t, n, dailyCap, spent) && Phases(t, n, Paid, Idle) && Grew(s, t, 0)
  {
    t := s;
    for w := 0 to n
      invariant Reaches(origin, t) && Spending(t, n, dailyCap, spent) && Phases(t, w, Paid, Idle) && Grew(s, t, 0)
    {
      AccountedStep(t, Die(w));
      ReachesNext(origin, t, Die(w));
      t := Next(t, Die(w));
    }
  }

  /** In one moment the workers together make as many calls as the hour allows: one for each but the first beyond the daily cap. */
  lemma Burst(origin: World, s: World, n: nat, dailyCap: nat) returns (t: World)
    requires Reaches(origin, s) && Spending(s, n, dailyCap, 0) && n > 0 && dailyCap > 0 && Phases(s, 0, Idle, Idle)
    ensures Reaches(origin, t) && Spending(t, n, dailyCap, dailyCap + n - 1) && Phases(t, 0, Idle, Idle)
    ensures Grew(s, t, dailyCap + n - 1)
  {
    var s1 := OneByOne(origin, s, n, dailyCap);
    var s2 := AllCheck(origin, s1, n, dailyCap);
    var s3 := AllRecord(origin, s2, n, dailyCap);
    t := AllRest(origin, s3, n, dailyCap, dailyCap + n - 1);
  }

  lemma {:induction false} AllInHour(spends: seq<Spend>, at: Time, window: Time, cutoff: Time)
    requires forall i :: 0 <= i < |spends| ==> spends[i].at == at
    ensures InHour(spends, window) == if HourOf(at) == window then |spends| else 0
    ensures HoursSince(spends, cutoff) == if HourOf(at) > cutoff then |spends| else 0
    decreases |spends|
  {
    if spends != [] { AllInHour(spends[..|spends| - 1], at, window, cutoff); }
  }

  lemma {:induction false} AllBetween(spends: seq<Spend>, from: Time, to: Time)
    requires forall i :: 0 <= i < |spends| ==> from <= spends[i].at <= to
    ensures Between(spends, from, to) == |spends|
    decreases |spends|
  {
    if spends != [] { AllBetween(spends[..|spends| - 1], from, to); }
  }

  /** A day later, less the second before midnight, the first burst counts for nothing. */
  lemma NextDay(s: World, n: nat, dailyCap: nat)
    requires |s.workers| == n && s.dailyCap == dailyCap && s.hourlyCap == dailyCap + n - 1 && s.now == HOUR - SECOND
    requires Accounted(s) && forall i :: 0 <= i < |s.spends| ==> s.spends[i].at == HOUR - SECOND
    ensures Spending(Next(s, Tick(DAY)), n, dailyCap, 0) && Next(s, Tick(DAY)) == s.(now := DAY)
  {
    assert HourOf(HOUR - SECOND) == 0 && HourOf(DAY) == DAY;
    AllInHour(s.spends, HOUR - SECOND, DAY, 0);
    AccountedStep(s, Tick(DAY));
  }

  /**
     The bound cannot be improved: for every daily cap and any number of workers,
     with an hourly cap of the daily cap and one call more for every worker but the
     first, a burst in the last second of an hour and another one a day less a second
     later fill 24 hours with exactly as many calls as AnyRealDay allows.
   */
  lemma BoundIsReached(n: nat, dailyCap: nat) returns (s: World, t: World)
    requires n > 0 && dailyCap > 0
    ensures Init(s) && Enabled(s) && Reaches(s, t) && |s.workers| == n && s.dailyCap == dailyCap
    ensures Between(t.spends, HOUR - SECOND, HOUR - SECOND + DAY) == s.dailyCap + s.hourlyCap + n - 1
  {
    s := World(dailyCap + n - 1, dailyCap, HOUR - SECOND, [], seq(n, _ => Idle), [], []);
    assert Exec(s, []) == s;
    var first := Burst(s, s, n, dailyCap);
    NextDay(first, n, dailyCap);
    ReachesNext(s, first, Tick(DAY));
    t := Burst(s, Next(first, Tick(DAY)), n, dailyCap);
    forall i | 0 <= i < |t.spends| ensures HOUR - SECOND <= t.spends[i].at <= HOUR - SECOND + DAY {
      if i < |first.spends| { assert t.spends[i] == first.spends[i]; }
    }
    AllBetween(t.spends, HOUR - SECOND, HOUR - SECOND + DAY);
  }

  // ----- the composer

  datatype Outcome = Composed | InnerFailed | Exhausted

  lemma ExecAppend(s: World, run: seq<Step>, step: Step)
    ensures Exec(s, run + [step]) == Next(Exec(s, run), step)
    decreases |run|
  {
    if run == [] {
      assert run + [step] == [step] && [step][1..] == [];
    } else {
      assert (run + [step])[0] == run[0] && (run + [step])[1..] == run[1..] + [step];
      ExecAppend(Next(s, run[0]), run[1..], step);
    }
  }

  lemma OthersKeepMine(s: World, step: Step, me: nat)
    requires me < |s.workers| && Theirs(step, me)
    ensures var t := Next(s, step);
      |t.workers| == |s.workers| && t.workers[me] == s.workers[me]
      && ByWorker(t.spends, me) == ByWorker(s.spends, me) && CallsBy(t.calls, me) == CallsBy(s.calls, me)
      && t.hourlyCap == s.hourlyCap && t.dailyCap == s.dailyCap
  {
    var t := Next(s, step);
    if step.Record? && t.spends != s.spends {
      var x := Spend(step.w, s.now);
      assert t.spends == s.spends + [x] && (s.spends + [x])[..|s.spends|] == s.spends;
    } else if step.Call? && t.calls != s.calls {
      assert t.calls == s.calls + [step.w] && t.calls[..|s.calls|] == s.calls;
    }
  }

  predicate Theirs(step: Step, me: nat) {
    step.Tick? || step.Prune? || step.w != me
  }

  /** `BudgetedComposer`: every call is a run of the machine, other workers' statements in between. */
  class BudgetedComposer {
    const me: nat
    var s: World
    ghost var origin: World
    ghost var run: seq<Step>

    ghost predicate Valid()
      reads this
    {
      me < |s.workers| && s == Exec(origin, run)
    }

    twostate predicate Continues()
      reads this
    {
      && origin == old(origin) && |s.workers| == |old(s).workers|
      && s.hourlyCap == old(s).hourlyCap && s.dailyCap == old(s).dailyCap
    }

    ghost function MySpends(): nat reads this { ByWorker(s.spends, me) }
    ghost function MyCalls(): nat reads this { CallsBy(s.calls, me) }

    constructor (me: nat, s: World)
      requires me < |s.workers|
      ensures Valid() && this.me == me && this.s == s && origin == s && run == []
    {
      this.me, this.s, origin, run := me, s, s, [];
    }

    method Do(step: Step)
      requires Valid()
      modifies this`s, this`run
      ensures Valid() && Continues() && s == Next(old(s), step)
    {
      ExecAppend(origin, run, step);
      s, run := Next(s, step), run + [step];
    }

    method Others()
      requires Valid()
      modifies this`s, this`run
      ensures Valid() && Continues() && s.workers[me] == old(s).workers[me]
      ensures MySpends() == old(MySpends()) && MyCalls() == old(MyCalls())
    {
      var steps: seq<Step> := *;
      for i := 0 to |steps|
        invariant Valid() && Continues() && s.workers[me] == old(s).workers[me]
        invariant MySpends() == old(MySpends()) && MyCalls() == old(MyCalls())
      {
        if Theirs(steps[i], me) {
          OthersKeepMine(s, steps[i], me);
          Do(steps[i]);
        }
      }
    }

    /**
     `_spend`.  `day` is the state whose total it read and `hour` the state in which
     it asked for the hour's row; a refusal has one of the two to show, and costs nothing.
     */
    method TrySpend() returns (granted: bool, ghost day: World, ghost hour: World)
      requires Valid() && s.workers[me].Idle?
      modifies this`s, this`run
      ensures Valid() && Continues() && MyCalls() == old(MyCalls())
      ensures MySpends() == old(MySpends()) + (if granted then 1 else 0)
      ensures s.workers[me] == if granted then Paid else Idle
      ensures !Enabled(old(s)) ==> !granted && s == old(s)
      ensures Enabled(old(s)) && DaySum(day) >= s.dailyCap ==> !granted && s == day
      ensures Enabled(old(s)) && DaySum(day) < s.dailyCap ==>
        && s == Next(hour, Record(me)) && me < |hour.workers| && hour.workers[me] == Checked
        && (granted <==> Calls(hour.table, HourOf(hour.now)) < s.hourlyCap)
    {
      day, hour := s, s;
      if !Enabled(s) { return false, s, s; }
      Others();
      day := s;
      var dayCalls := DaySum(s);
      Do(Check(me));
      if dayCalls >= s.dailyCap { return false, day, day; }
      Others();
      hour := s;
      SpendsAppend(s.spends, Spend(me, s.now));
      Do(Record(me));
      granted := s.workers[me].Paid?;
    }

    /**
     `compose`: the inner composer runs only after a spend of this worker's own, and
     may fail; a refusal has the state to show in which a cap was reached.
     */
    method Compose() returns (outcome: Outcome, ghost day: World, ghost hour: World)
      requires Valid() && s.workers[me].Idle?
      modifies this`s, this`run
      ensures Valid() && Continues() && s.workers[me].Idle?
      ensures var paid := if outcome.Exhausted? then 0 else 1;
        MySpends() == old(MySpends()) + paid && MyCalls() == old(MyCalls()) + paid
      ensures !Enabled(old(s)) ==> outcome.Exhausted? && s == old(s)
      ensures Enabled(old(s)) && outcome.Exhausted? ==>
        || (s == day && DaySum(day) >= s.dailyCap)
        || (s == Next(hour, Record(me)) && Calls(hour.table, HourOf(hour.now)) >= s.hourlyCap)
    {
      var granted;
      granted, day, hour := TrySpend();
      if !granted { return Exhausted, day, hour; }
      Others();
      ghost var before := s.calls;
      Do(Call(me));
      assert s.calls[..|before|] == before;
      var failed: bool := *;
      outcome := if failed then InnerFailed else Composed;
    }

    /** `prune`: no bound and no total of the last 24 hours is affected. */
    method PruneTable()
      requires Valid()
      modifies this`s, this`run
      ensures Valid() && Continues() && s == old(s).(table := s.table) && DaySum(s) == DaySum(old(s))
      ensures forall h :: h >= s.now - 7 * DAY ==> Calls(s.table, h) == Calls(old(s).table, h)
    {
      forall h | h >= s.now - 7 * DAY
        ensures Calls(Pruned(s.table, s.now - 7 * DAY), h) == Calls(s.table, h)
      {
        PruneKeepsRecent(s.table, s.now - 7 * DAY, h, h);
      }
      PruneKeepsRecent(s.table, s.now - 7 * DAY, s.now, s.now - DAY);
      Do(Prune);
    }

    /** `spent`: the two figures shown to the operator are this hour's spends and the day's total. */
    method Spent() returns (hour: nat, day: nat)
      requires Valid() && Inv(s)
      ensures hour == InHour(s.spends, HourOf(s.now)) && day == HoursSince(s.spends, s.now - DAY)
    {
      hour, day := Calls(s.table, HourOf(s.now)), DaySum(s);
    }
  }
}
