/**
 `supervise` of freshet/ops/supervisor.py.  Children die whenever they like,
 the clock runs, and a spawn may raise; `procs` is the history of every process
 ever spawned.
 */
module Supervisor {
  import opened Basics

  /** A supervised child; `proc` is the index of its current process. */
  datatype Child = Child(proc: nat, startedAt: Time, restarts: nat, fastDeaths: nat)

  /** A process: whose it is, when it was spawned, whether it has exited, and what the supervisor did with it or saw of it. */
  datatype Proc = Proc(child: nat, spawnedAt: Time, startedAt: Time, exited: bool, seenDead: bool, terminated: bool, killed: bool)

  datatype Exit = Stopped | DependencyDown(child: nat) | SpawnRaised | StillRunning

  /** Seen dead, or terminated and then, having outlived that, killed. */
  predicate Settled(p: Proc) {
    p.seenDead || (p.terminated && p.killed)
  }

  predicate NoOrphans(procs: seq<Proc>) {
    forall p :: 0 <= p < |procs| ==> Settled(procs[p])
  }

  /** How many of the last deaths, without a gap, were fast. */
  function TrailingFast(deaths: seq<Time>, fast: Time): nat {
    if deaths == [] || deaths[|deaths| - 1] >= fast then 0 else 1 + TrailingFast(deaths[..|deaths| - 1], fast)
  }

  lemma {:induction false} TrailingFastMeans(deaths: seq<Time>, fast: Time)
    ensures var n := TrailingFast(deaths, fast);
      && n <= |deaths| && (forall i :: |deaths| - n <= i < |deaths| ==> deaths[i] < fast)
      && (n < |deaths| ==> deaths[|deaths| - n - 1] >= fast)
    decreases |deaths|
  {
    if deaths != [] { TrailingFastMeans(deaths[..|deaths| - 1], fast); }
  }

  /** Spawns of one child are at least the backoff apart, counted from the recorded start. */
  predicate Spaced(procs: seq<Proc>, backoff: Time) {
    forall p, q :: 0 <= p < q < |procs| && procs[p].child == procs[q].child ==> procs[p].startedAt + backoff <= procs[q].spawnedAt
  }

  datatype Config = Config(backoff: Time, fastDeath: Time, maxFastDeaths: int)

  /** The supervisor and, as history, every process and how long after its start each death was noticed. */
  datatype State = State(children: seq<Child>, clock: Time, began: Time, procs: seq<Proc>, deaths: seq<seq<Time>>)

  predicate Owns(s: State, c: nat)
    requires c < |s.children|
  {
    s.children[c].proc < |s.procs| && s.procs[s.children[c].proc].child == c
    && s.procs[s.children[c].proc].startedAt == s.children[c].startedAt
  }

  /** The counters say what happened. */
  predicate Counted(cfg: Config, s: State, c: nat)
    requires c < |s.children| == |s.deaths|
  {
    && s.children[c].restarts == |s.deaths[c]|
    && s.children[c].fastDeaths == TrailingFast(s.deaths[c], cfg.fastDeath)
    && (cfg.backoff >= 0 ==> s.began + s.children[c].restarts * cfg.backoff <= s.children[c].startedAt)
  }

  /** A process is its child's current one, or was seen dead; and it is no newer than that one. */
  predicate Recorded(s: State, p: nat, n: nat)
    requires p < |s.procs| && n <= |s.children|
  {
    var owner := s.procs[p].child;
    && owner < n && s.procs[p].spawnedAt <= s.procs[p].startedAt <= s.clock
    && p <= s.children[owner].proc && s.procs[p].startedAt <= s.children[owner].startedAt
    && (p == s.children[owner].proc || s.procs[p].seenDead)
  }

  /** The first n children have been started, and no process is out of sight. */
  predicate Tracked(s: State, n: nat) {
    && n <= |s.children|
    && (forall c :: 0 <= c < n ==> Owns(s, c))
    && (forall p :: 0 <= p < |s.procs| ==> Recorded(s, p, n))
  }

  predicate Inv(cfg: Config, s: State, n: nat) {
    && Tracked(s, n) && |s.deaths| == |s.children| && s.began <= s.clock && Spaced(s.procs, cfg.backoff)
    && (forall c :: 0 <= c < n ==> Counted(cfg, s, c))
    && (forall c :: n <= c < |s.children| ==> s.children[c] == Child(0, 0, 0, 0) && s.deaths[c] == [])
  }

  /** No child has reached the limit of fast deaths. */
  predicate NotYetDown(cfg: Config, s: State) {
    forall c :: 0 <= c < |s.children| ==> s.children[c].fastDeaths == 0 || s.children[c].fastDeaths < cfg.maxFastDeaths
  }

  /** `_start`: the clock is read after the spawn. */
  function Started(s: State, c: nat, startedAt: Time): State
    requires c < |s.children|
  {
    s.(children := s.children[c := s.children[c].(proc := |s.procs|, startedAt := startedAt)],
       procs := s.procs + [Proc(c, s.clock, startedAt, false, false, false, false)],
       clock := startedAt)
  }

  /** Its process was seen dead, this long after its start. */
  function Noticed(cfg: Config, s: State, c: nat, waited: Time): State
    requires c < |s.children| == |s.deaths|
  {
    var fastDeaths := if waited < cfg.fastDeath then s.children[c].fastDeaths + 1 else 0;
    s.(children := s.children[c := s.children[c].(fastDeaths := fastDeaths)],
       deaths := s.deaths[c := s.deaths[c] + [waited]])
  }

  function Restarted(cfg: Config, s: State, c: nat, waited: Time, startedAt: Time): State
    requires c < |s.children| == |s.deaths|
  {
    var t := Noticed(cfg, s, c, waited);
    Started(t.(children := t.children[c := t.children[c].(restarts := t.children[c].restarts + 1)]), c, startedAt)
  }

  /** The same processes, some exited since, with more seen of some and more done to some. */
  predicate MoreSeen(a: seq<Proc>, b: seq<Proc>) {
    && |a| == |b|
    && forall p :: 0 <= p < |a| ==>
         && b[p] == a[p].(exited := b[p].exited, seenDead := b[p].seenDead, terminated := b[p].terminated, killed := b[p].killed)
         && (a[p].exited ==> b[p].exited) && (a[p].seenDead ==> b[p].seenDead) && (Settled(a[p]) ==> Settled(b[p]))
  }

  /** The first n children whose process had exited have a newer one. */
  predicate Replaced(s: State, t: State, n: nat) {
    forall c :: 0 <= c < n && c < |s.children| && c < |t.children| && s.children[c].proc < |s.procs| ==>
      s.procs[s.children[c].proc].exited ==> t.children[c].proc >= |s.procs|
  }

  /** Processes were added at most, and what had exited stays so. */
  predicate Longer(a: seq<Proc>, b: seq<Proc>) {
    |a| <= |b| && forall p :: 0 <= p < |a| && a[p].exited ==> b[p].exited
  }

  lemma SeenIsLonger(a: seq<Proc>, b: seq<Proc>)
    requires MoreSeen(a, b)
    ensures Longer(a, b)
  {
  }

  lemma MoreSeenStill(a: seq<Proc>, b: seq<Proc>, c: seq<Proc>)
    requires MoreSeen(a, b) && MoreSeen(b, c)
    ensures MoreSeen(a, c)
  {
    forall p | 0 <= p < |a|
      ensures c[p] == a[p].(exited := c[p].exited, seenDead := c[p].seenDead, terminated := c[p].terminated, killed := c[p].killed)
    {
      assert b[p].child == a[p].child && c[p].child == b[p].child;
    }
  }

  lemma LongerStill(a: seq<Proc>, b: seq<Proc>, c: seq<Proc>)
    requires Longer(a, b) && Longer(b, c)
    ensures Longer(a, c)
  {
  }

  lemma MoreSeenKeeps(cfg: Config, s: State, procs: seq<Proc>, n: nat)
    requires Tracked(s, n) && MoreSeen(s.procs, procs)
    ensures Tracked(s.(procs := procs), n)
    ensures Inv(cfg, s, n) ==> Inv(cfg, s.(procs := procs), n)
  {
    var u := s.(procs := procs);
    forall p | 0 <= p < |u.procs| ensures Recorded(u, p, n) { assert Recorded(s, p, n); }
    forall c | 0 <= c < n ensures Owns(u, c) { assert Owns(s, c); }
    if Inv(cfg, s, n) {
      forall c | 0 <= c < n ensures Counted(cfg, u, c) { assert Counted(cfg, s, c); }
    }
  }

  lemma ClockForward(cfg: Config, s: State, t: Time, n: nat)
    requires Inv(cfg, s, n) && s.clock <= t
    ensures Inv(cfg, s.(clock := t), n)
  {
    var u := s.(clock := t);
    forall p | 0 <= p < |u.procs| ensures Recorded(u, p, n) { assert Recorded(s, p, n); }
    forall c | 0 <= c < n ensures Owns(u, c) && Counted(cfg, u, c) { assert Owns(s, c) && Counted(cfg, s, c); }
  }

  lemma FirstStart(cfg: Config, s: State, n: nat, t: Time)
    requires Inv(cfg, s, n) && n < |s.children| && s.clock <= t
    ensures Inv(cfg, Started(s, n, t), n + 1)
  {
    var u := Started(s, n, t);
    forall p | 0 <= p < |u.procs|
      ensures Recorded(u, p, n + 1) && (p < |s.procs| ==> u.procs[p].child != n)
    {
      if p < |s.procs| { assert Recorded(s, p, n); }
    }
    forall c | 0 <= c < n + 1 ensures Owns(u, c) && Counted(cfg, u, c) {
      if c < n { assert Owns(s, c) && Counted(cfg, s, c); }
    }
  }

  /** A restart comes at least the backoff after the start before it. */
  lemma RestartKeeps(cfg: Config, s: State, c: nat, waited: Time, t: Time)
    requires Inv(cfg, s, |s.children|) && c < |s.children| && Owns(s, c) && s.procs[s.children[c].proc].seenDead
    requires s.children[c].startedAt + cfg.backoff <= s.clock <= t
    ensures Inv(cfg, Restarted(cfg, s, c, waited, t), |s.children|)
  {
    var n, u := |s.children|, Restarted(cfg, s, c, waited, t);
    assert Owns(s, c) && Counted(cfg, s, c);
    forall p | 0 <= p < |u.procs|
      ensures Recorded(u, p, n)
      ensures p < |s.procs| && u.procs[p].child == c ==> u.procs[p].startedAt + cfg.backoff <= s.clock
    {
      if p < |s.procs| { assert Recorded(s, p, n); }
    }
    forall d | 0 <= d < n ensures Owns(u, d) && Counted(cfg, u, d) {
      assert Owns(s, d) && Counted(cfg, s, d);
      if d == c { OneMore(s.children[c].restarts, cfg.backoff); }
    }
    assert forall p :: 0 <= p < |s.procs| ==> u.procs[p] == s.procs[p];
  }

  lemma OneMore(n: nat, x: int)
    ensures (n + 1) * x == n * x + x
  {
  }

  lemma NoticedTracked(s: State, u: State, c: nat)
    requires Tracked(s, |s.children|) && c < |s.children| && |u.children| == |s.children|
    requires u == s.(children := u.children, deaths := u.deaths)
    requires u.children == s.children[c := s.children[c].(fastDeaths := u.children[c].fastDeaths)]
    ensures Tracked(u, |u.children|)
  {
    forall p | 0 <= p < |u.procs| ensures Recorded(u, p, |u.children|) { assert Recorded(s, p, |s.children|); }
    forall d | 0 <= d < |u.children| ensures Owns(u, d) { assert Owns(s, d); }
  }

  /** Every process settled, once each child's current one is. */
  lemma CurrentSettled(s: State, n: nat)
    requires Tracked(s, n) && forall c :: 0 <= c < n ==> Owns(s, c) && Settled(s.procs[s.children[c].proc])
    ensures NoOrphans(s.procs)
  {
    forall p | 0 <= p < |s.procs| ensures Settled(s.procs[p]) { assert Recorded(s, p, n); }
  }

  // ----- what the history tells

  /** What bounds the restarts, also where a run ends in the middle of one. */
  predicate Throttled(cfg: Config, s: State) {
    && Spaced(s.procs, cfg.backoff)
    && (cfg.backoff >= 0 ==>
          forall c :: 0 <= c < |s.children| ==> s.began + s.children[c].restarts * cfg.backoff <= s.clock)
  }

  lemma InvThrottles(cfg: Config, s: State, n: nat)
    requires Inv(cfg, s, n)
    ensures Throttled(cfg, s)
  {
    forall c | 0 <= c < |s.children| && cfg.backoff >= 0
      ensures s.began + s.children[c].restarts * cfg.backoff <= s.clock
    {
      if c < n { assert Owns(s, c) && Counted(cfg, s, c) && Recorded(s, s.children[c].proc, n); }
    }
  }

  /** The halt and the failed restart: a death was noticed, the backoff waited for, and perhaps the restart counted. */
  lemma NoticedThrottles(cfg: Config, s: State, u: State, c: nat)
    requires Inv(cfg, s, |s.children|) && c < |s.children| && s.children[c].startedAt + cfg.backoff <= s.clock
    requires u.procs == s.procs && u.began == s.began && u.clock == s.clock && |u.children| == |s.children|
    requires forall d :: 0 <= d < |s.children| && d != c ==> u.children[d].restarts == s.children[d].restarts
    requires u.children[c].restarts <= s.children[c].restarts + 1
    ensures Throttled(cfg, u)
  {
    InvThrottles(cfg, s, |s.children|);
    assert Counted(cfg, s, c);
    if cfg.backoff >= 0 {
      OneMore(s.children[c].restarts, cfg.backoff);
      NoMore(u.children[c].restarts, s.children[c].restarts + 1, cfg.backoff);
    }
  }

  lemma NoMore(a: nat, b: nat, x: int)
    requires a <= b && x >= 0
    ensures a * x <= b * x
  {
  }

  /** A run of length T restarts no child more than T / backoff times. */
  lemma RestartsBounded(cfg: Config, s: State, c: nat)
    requires Throttled(cfg, s) && c < |s.children| && cfg.backoff > 0
    ensures s.children[c].restarts <= (s.clock - s.began) / cfg.backoff
  {
    var r, b, span := s.children[c].restarts, cfg.backoff, s.clock - s.began;
    assert r * b <= span;
    DivideBound(r, b, span);
  }

  lemma DivideBound(r: nat, b: int, span: int)
    requires b > 0 && r * b <= span
    ensures r <= span / b
  {
    var q := span / b;
    assert (r - q) * b == r * b - q * b;
    AtLeastOne(r - q, b);
  }

  lemma AtLeastOne(k: int, b: int)
    requires b > 0
    ensures k >= 1 ==> k * b >= b
  {
  }

  /** The last deaths, as many as the limit and at least one, were all fast. */
  predicate FastAtEnd(deaths: seq<Time>, fast: Time, max: int) {
    deaths != [] && max <= |deaths| && forall i :: 0 <= i < |deaths| && (i >= |deaths| - max || i == |deaths| - 1) ==> deaths[i] < fast
  }

  /** The counter reaches the limit exactly when the last deaths, as many as the limit, were fast. */
  lemma CounterAtLimit(deaths: seq<Time>, fast: Time, max: int)
    ensures var n := TrailingFast(deaths, fast); n > 0 && n >= max <==> FastAtEnd(deaths, fast, max)
  {
    TrailingFastMeans(deaths, fast);
  }

  /** One more death of the child is on record, with its age; the age is exact when the clock is read at once. */
  predicate DeathNoted(before: seq<seq<Time>>, after: seq<seq<Time>>, c: nat, age: Time, prompt: bool) {
    && c < |before| == |after| && |after[c]| == |before[c]| + 1 && after == before[c := after[c]]
    && after[c] == before[c] + [after[c][|before[c]|]]
    && age <= after[c][|before[c]|] && (prompt ==> after[c][|before[c]|] == age)
  }

  lemma NotedCounter(before: seq<Time>, waited: Time, fast: Time)
    ensures TrailingFast(before + [waited], fast) == if waited < fast then TrailingFast(before, fast) + 1 else 0
  {
    assert (before + [waited])[..|before|] == before;
  }

  class Supervisor {
    const cfg: Config
    const prompt: bool    // no time passes between seeing a process dead and reading the clock
    var children: seq<Child>
    var clock: Time
    ghost var began: Time
    var procs: seq<Proc>
    ghost var deaths: seq<seq<Time>>

    ghost function View(): State
      reads this
    {
      State(children, clock, began, procs, deaths)
    }

    ghost predicate Valid(n: nat)
      reads this
    {
      Inv(cfg, View(), n)
    }

    constructor (count: nat, cfg: Config, prompt: bool, clock: Time)
      ensures Valid(0) && |children| == count && NotYetDown(cfg, View()) && procs == []
      ensures this.cfg == cfg && this.prompt == prompt && began == this.clock == clock
    {
      this.cfg, this.prompt := cfg, prompt;
      children := seq(count, _ => Child(0, 0, 0, 0));
      this.clock, began, procs := clock, clock, [];
      deaths := seq(count, _ => []);
    }

    /** Reading the clock, which does not go back. */
    method Now(n: nat) returns (t: Time)
      requires Valid(n)
      modifies this`clock, this`procs
      ensures Valid(n) && t == clock >= old(clock) && MoreSeen(old(procs), procs)
      ensures prompt ==> t == old(clock)
    {
      if !prompt { Sleep(n, 0); }
      t := clock;
    }

    /** Time passes, and processes may exit. */
    method Sleep(n: nat, span: Time)
      requires Valid(n)
      modifies this`clock, this`procs
      ensures Valid(n) && clock >= old(clock) + span && clock >= old(clock) && MoreSeen(old(procs), procs)
    {
      var extra: Time, exits: set<nat> := *, *;
      var d := (if span > 0 then span else 0) + (if extra > 0 then extra else 0);
      ClockForward(cfg, View(), clock + d, n);
      clock := clock + d;
      ghost var before := View();
      procs := seq(|procs|, i requires 0 <= i < |procs| reads this => procs[i].(exited := procs[i].exited || i in exits));
      MoreSeenKeeps(cfg, before, procs, n);
    }

    /** `_start` for the first time. */
    method Start(c: nat) returns (raised: bool)
      requires Valid(c) && c < |children| && NotYetDown(cfg, View())
      modifies this`children, this`clock, this`procs
      ensures |children| == |old(children)|
      ensures if raised then View() == old(View()) else Valid(c + 1) && NotYetDown(cfg, View())
    {
      raised := *;
      if raised { return; }
      var d: Time := *;
      var t := clock + if d > 0 then d else 0;
      FirstStart(cfg, View(), c, t);
      procs := procs + [Proc(c, clock, t, false, false, false, false)];
      children := children[c := children[c].(proc := |procs| - 1, startedAt := t)];
      clock := t;
    }

    /** `child.proc.poll()`: whether the process has exited. */
    method Poll(c: nat) returns (dead: bool)
      requires Valid(|children|) && c < |children| && Owns(View(), c)
      modifies this`procs
      ensures Valid(|children|) && Owns(View(), c) && MoreSeen(old(procs), procs)
      ensures dead == old(procs[children[c].proc].exited) && (dead ==> procs[children[c].proc].seenDead)
    {
      var pid := children[c].proc;
      dead := procs[pid].exited;
      if dead {
        ghost var before := View();
        procs := procs[pid := procs[pid].(seenDead := true)];
        MoreSeenKeeps(cfg, before, procs, |children|);
      }
    }

    /** Count the death: fast deaths add up, a slow one clears the count. */
    method Note(c: nat, waited: Time) returns (down: bool)
      requires Valid(|children|) && c < |children| && NotYetDown(cfg, View())
      modifies this`children, this`deaths
      ensures View() == Noticed(cfg, old(View()), c, waited)
      ensures down <==> Blamed(c)
      ensures down ==> Tracked(View(), |children|)
      ensures !down ==> NotYetDown(cfg, View())
    {
      ghost var before := View();
      assert Counted(cfg, before, c);
      var fastDeaths := if waited < cfg.fastDeath then children[c].fastDeaths + 1 else 0;
      children := children[c := children[c].(fastDeaths := fastDeaths)];
      deaths := deaths[c := deaths[c] + [waited]];
      NotedCounter(before.deaths[c], waited, cfg.fastDeath);
      down := waited < cfg.fastDeath && fastDeaths >= cfg.maxFastDeaths;
      CounterAtLimit(deaths[c], cfg.fastDeath, cfg.maxFastDeaths);
      if down { NoticedTracked(before, View(), c); }
    }

    /** Count the restart and start it again. */
    method Restart(c: nat, ghost before: State, ghost waited: Time) returns (raised: bool)
      requires Inv(cfg, before, |before.children|) && c < |before.children| && Owns(before, c)
      requires before.procs[before.children[c].proc].seenDead
      requires before.children[c].startedAt + cfg.backoff <= before.clock
      requires View() == Noticed(cfg, before, c, waited) && NotYetDown(cfg, View())
      modifies this`children, this`procs, this`clock
      ensures |children| == |old(children)| && Throttled(cfg, View())
      ensures forall d :: 0 <= d < |children| && d != c ==> children[d] == old(children)[d]
      ensures !raised ==> Valid(|children|) && NotYetDown(cfg, View())
      ensures !raised ==> children[c].proc == |old(procs)|
      ensures old(procs) <= procs
    {
      children := children[c := children[c].(restarts := children[c].restarts + 1)];
      NoticedThrottles(cfg, before, View(), c);
      raised := *;
      if raised { return; }
      var d: Time := *;
      var t := clock + if d > 0 then d else 0;
      RestartKeeps(cfg, before, c, waited, t);
      procs := procs + [Proc(c, clock, t, false, false, false, false)];
      children := children[c := children[c].(proc := |procs| - 1, startedAt := t)];
      clock := t;
      assert View() == Restarted(cfg, before, c, waited, t);
      InvThrottles(cfg, View(), |children|);
    }

    /** How long after its start the death was noticed; a restart has to wait until the backoff is over. */
    method Await(c: nat) returns (waited: Time)
      requires Valid(|children|) && c < |children|
      modifies this`clock, this`procs
      ensures Valid(|children|) && MoreSeen(old(procs), procs) && children[c].startedAt + cfg.backoff <= clock
      ensures old(clock) - children[c].startedAt <= waited <= clock - children[c].startedAt
      ensures prompt ==> waited == old(clock) - children[c].startedAt
    {
      ghost var was := procs;
      var now := Now(|children|);
      ghost var mid := procs;
      waited := now - children[c].startedAt;
      if waited < cfg.backoff {
        Sleep(|children|, cfg.backoff - waited);
        MoreSeenStill(was, mid, procs);
      }
    }

    /**
     One child in one round.  If its process had exited it has a new one afterwards,
     unless that was one fast death too many or the spawn raised; a live one is left alone.
     */
    method Tend(c: nat) returns (exit: Option<Exit>)
      requires Valid(|children|) && c < |children| && NotYetDown(cfg, View()) && Owns(View(), c)
      modifies this
      ensures |children| == |old(children)| && began == old(began) && Throttled(cfg, View())
      ensures forall d :: 0 <= d < |children| && d != c ==> children[d] == old(children)[d]
      ensures Longer(old(procs), procs)
      ensures exit.None? ==> Valid(|children|) && NotYetDown(cfg, View())
      ensures exit.None? ==>
        children[c].proc == if old(procs[children[c].proc].exited) then |old(procs)| else old(children[c].proc)
      ensures exit.Some? ==> exit.value.SpawnRaised? || exit.value == DependencyDown(c)
      ensures exit == Some(DependencyDown(c)) ==> Tracked(View(), |children|) && Blamed(c)
      ensures !old(procs[children[c].proc].exited) ==> exit.None? && deaths == old(deaths)
      ensures old(procs[children[c].proc].exited) ==>
        && DeathNoted(old(deaths), deaths, c, old(clock) - old(children)[c].startedAt, prompt)
        && (exit == Some(DependencyDown(c)) <==> Blamed(c))
    {
      var dead := Poll(c);
      ghost var polled := procs;
      SeenIsLonger(old(procs), polled);
      if !dead {
        InvThrottles(cfg, View(), |children|);
        return None;
      }
      var waited := Await(c);
      SeenIsLonger(polled, procs);
      LongerStill(old(procs), polled, procs);
      ghost var before := View();
      assert Owns(before, c);
      var down := Note(c, waited);
      if down {
        NoticedThrottles(cfg, before, View(), c);
        return Some(DependencyDown(c));
      }
      var raised := Restart(c, before, waited);
      exit := if raised then Some(SpawnRaised) else None;
    }

    /** One round over the children: every process that had exited when it began was replaced. */
    method Round() returns (exit: Option<Exit>)
      requires Valid(|children|) && NotYetDown(cfg, View())
      modifies this
      ensures |children| == |old(children)| && began == old(began) && Throttled(cfg, View())
      ensures exit.None? ==> Valid(|children|) && NotYetDown(cfg, View())
      ensures exit.None? ==> Replaced(old(View()), View(), |children|)
      ensures exit.Some? ==> exit.value.SpawnRaised? || exit.value.DependencyDown?
      ensures exit.Some? && exit.value.DependencyDown? ==> Tracked(View(), |children|) && Blamed(exit.value.child)
    {
      InvThrottles(cfg, View(), |children|);
      var n := |children|;
      for c := 0 to n
        invariant |children| == n && began == old(began) && Valid(n) && NotYetDown(cfg, View()) && Throttled(cfg, View())
        invariant Longer(old(procs), procs)
        invariant forall d :: c <= d < n ==> children[d] == old(children)[d]
        invariant Replaced(old(View()), View(), c)
      {
        assert Owns(View(), c);
        assert Owns(old(View()), c);
        ghost var mid := procs;
        exit := Tend(c);
        if exit.Some? { return; }
        LongerStill(old(procs), mid, procs);
      }
      exit := None;
    }

    /** The child whose deaths ended the run: its last ones, as many as the limit, were fast. */
    ghost predicate Blamed(c: nat)
      reads this
    {
      c < |deaths| && FastAtEnd(deaths[c], cfg.fastDeath, cfg.maxFastDeaths)
    }

    /** `_shutdown`: terminate every child, then wait for each and kill the ones that do not exit. */
    method Shutdown()
      requires Tracked(View(), |children|)
      modifies this`procs
      ensures Tracked(View(), |children|) && MoreSeen(old(procs), procs) && NoOrphans(procs)
      ensures Throttled(cfg, old(View())) ==> Throttled(cfg, View())
    {
      ghost var before := View();
      for c := 0 to |children|
        invariant Tracked(View(), |children|) && MoreSeen(before.procs, procs)
        invariant forall d :: 0 <= d < c ==> Owns(View(), d) && procs[children[d].proc].terminated
      {
        assert Owns(View(), c);
        Mark(children[c].proc, false, true, false);
      }
      for c := 0 to |children|
        invariant Tracked(View(), |children|) && MoreSeen(before.procs, procs)
        invariant forall d :: 0 <= d < |children| ==> Owns(View(), d) && procs[children[d].proc].terminated
        invariant forall d :: 0 <= d < c ==> Settled(procs[children[d].proc])
      {
        var exited: bool := *;
        if exited {
          Mark(children[c].proc, true, false, false);
        } else {
          var landed: bool := *;
          Mark(children[c].proc, landed, false, true);
        }
      }
      CurrentSettled(View(), |children|);
    }

    method Mark(pid: nat, seenDead: bool, terminated: bool, killed: bool)
      requires Tracked(View(), |children|) && pid < |procs|
      modifies this`procs
      ensures Tracked(View(), |children|) && MoreSeen(old(procs), procs)
      ensures procs == old(procs)[pid := procs[pid]]
      ensures (seenDead ==> procs[pid].seenDead) && (terminated ==> procs[pid].terminated) && (killed ==> procs[pid].killed)
      ensures old(procs)[pid].terminated ==> procs[pid].terminated
    {
      ghost var before := View();
      var p := procs[pid];
      procs := procs[pid := p.(exited := p.exited || seenDead, seenDead := p.seenDead || seenDead, terminated := p.terminated || terminated, killed := p.killed || killed)];
      MoreSeenKeeps(cfg, before, procs, |children|);
    }

    /**
     `supervise`, for as many rounds as the script has unless it is stopped before.
     At both orderly exits no process of the run is left behind; at every exit the
     starts of each child are the backoff apart and its restarts bounded by the time.
     */
    method Supervise(poll: Time, rounds: nat) returns (exit: Exit)
      requires Valid(0) && NotYetDown(cfg, View())
      modifies this
      ensures Throttled(cfg, View()) && began == old(began) && |children| == |old(children)|
      ensures exit.Stopped? || exit.DependencyDown? ==> NoOrphans(procs)
      ensures exit.Stopped? || exit.StillRunning? ==> Valid(|children|) && NotYetDown(cfg, View())
      ensures exit.DependencyDown? ==> Blamed(exit.child)
    {
      InvThrottles(cfg, View(), 0);
      for c := 0 to |children|
        invariant Valid(c) && NotYetDown(cfg, View()) && |children| == |old(children)| && began == old(began)
        invariant Throttled(cfg, View())
      {
        var raised := Start(c);
        if raised { return SpawnRaised; }
        InvThrottles(cfg, View(), c + 1);
      }
      for round := 0 to rounds
        invariant Valid(|children|) && NotYetDown(cfg, View()) && |children| == |old(children)| && began == old(began)
        invariant Throttled(cfg, View())
      {
        var stop: bool := *;
        if stop {
          ghost var before := View();
          Shutdown();
          MoreSeenKeeps(cfg, before, procs, |children|);
          return Stopped;
        }
        Sleep(|children|, poll);
        var ended := Round();
        if ended.Some? {
          exit := ended.value;
          if exit.DependencyDown? { Shutdown(); }
          return;
        }
      }
      exit := StillRunning;
    }
  }
}
