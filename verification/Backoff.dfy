/**
 `HostBackoff` of freshet/ingest/poller.py: a failing host is skipped for a
 growing but bounded interval, which survives a restart through wall-clock
 deadlines although the monotonic clock starts afresh.
 */
module Backoff {
  import opened Basics

  const MAX_BACKOFF: Time := 300 * SECOND

  /** What `snapshot` writes to the cache file. */
  datatype Saved = Saved(failures: map<string, nat>, deadlines: map<string, Time>)

  function Min(a: int, b: int): int { if a < b then a else b }

  function Pow2(n: nat): nat { if n == 0 then 1 else 2 * Pow2(n - 1) }

  /** The provider's own interval when it gives a positive one, otherwise a guess; bounded either way. */
  function Delay(n: nat, retryAfter: Option<Time>): Time {
    if retryAfter.Some? && retryAfter.value > 0 then Min(MAX_BACKOFF, retryAfter.value)
    else Min(MAX_BACKOFF, Pow2(Min(n, 10)) * SECOND)
  }

  function Deadline(until: map<string, Time>, host: string): Time {
    if host in until then until[host] else 0
  }

  predicate Skips(until: map<string, Time>, host: string, now: Time) {
    now < Deadline(until, host)
  }

  function Failures(failures: map<string, nat>, host: string): nat {
    if host in failures then failures[host] else 0
  }

  function Deadlines(until: map<string, Time>, now: Time, wall: Time): map<string, Time> {
    map host | host in until && until[host] - now > 0 :: wall + (until[host] - now)
  }

  function Restored(deadlines: map<string, Time>, now: Time, wall: Time): map<string, Time> {
    map host | host in deadlines && deadlines[host] - wall > 0 :: now + (deadlines[host] - wall)
  }

  lemma {:induction false} Pow2Grows(n: nat, m: nat)
    requires n <= m
    ensures 1 <= Pow2(n) <= Pow2(m)
    decreases m
  {
    if n < m { Pow2Grows(n, m - 1); } else if n > 0 { Pow2Grows(n - 1, m - 1); }
  }

  /**
     A positive instruction is followed as long as it is at most five minutes, and cut to
     that beyond; without one the first failure costs two seconds and each further one
     doubles it, up to five minutes.
   */
  lemma DelayDoubles(n: nat, retryAfter: Option<Time>)
    ensures 0 < Delay(n, retryAfter) <= MAX_BACKOFF
    ensures retryAfter.Some? && 0 < retryAfter.value <= 300 * SECOND ==> Delay(n, retryAfter) == retryAfter.value
    ensures retryAfter.Some? && retryAfter.value > 300 * SECOND ==> Delay(n, retryAfter) == 300 * SECOND
    ensures retryAfter.None? || retryAfter.value <= 0 ==> Delay(n, retryAfter) == Delay(n, None)
    ensures Delay(1, None) == 2 * SECOND
    ensures Delay(n + 1, None) == Min(MAX_BACKOFF, 2 * Delay(n, None))
  {
    Pow2Grows(0, Min(n, 10));
    if n >= 9 {
      Pow2Grows(9, Min(n, 10));
      Pow2Grows(9, Min(n + 1, 10));
      assert Pow2(9) == 2 * Pow2(8) == 4 * Pow2(7) == 8 * Pow2(6) == 16 * Pow2(5) == 32 * Pow2(4);
      assert Pow2(4) == 16;
    }
  }

  class HostBackoff {
    var until: map<string, Time>
    var failures: map<string, nat>

    constructor ()
      ensures until == map[] && failures == map[]
    {
      until, failures := map[], map[];
    }

    method Skip(host: string, now: Time) returns (skip: bool)
      ensures skip == Skips(until, host, now)
    {
      skip := now < if host in until then until[host] else 0;
    }

    method Failed(host: string, retryAfter: Option<Time>, now: Time) returns (delay: Time)
      modifies this
      ensures failures == old(failures)[host := Failures(old(failures), host) + 1]
      ensures delay == Delay(failures[host], retryAfter) && 0 < delay <= MAX_BACKOFF
      ensures until == old(until)[host := now + delay]
    {
      var n := if host in failures then failures[host] + 1 else 1;
      failures := failures[host := n];
      DelayDoubles(n, retryAfter);
      delay := Delay(n, retryAfter);
      until := until[host := now + delay];
    }

    method Succeeded(host: string)
      modifies this
      ensures until == old(until) - {host} && failures == old(failures) - {host}
    {
      failures := failures - {host};
      until := until - {host};
    }

    method Snapshot(now: Time, wall: Time) returns (saved: Saved)
      ensures saved == Saved(failures, Deadlines(until, now, wall))
    {
      saved := Saved(failures, Deadlines(until, now, wall));
    }

    /** A restart's object is fresh, so only the deadlines still ahead come back. */
    method Restore(saved: Saved, now: Time, wall: Time)
      requires until == map[]
      modifies this
      ensures failures == saved.failures && until == Restored(saved.deadlines, now, wall)
    {
      failures := saved.failures;
      var left := saved.deadlines.Keys;
      while left != {}
        invariant left <= saved.deadlines.Keys && failures == saved.failures
        invariant until == map host | host in saved.deadlines && host !in left && saved.deadlines[host] - wall > 0
                             :: now + (saved.deadlines[host] - wall)
        decreases |left|
      {
        var host :| host in left;
        var remaining := saved.deadlines[host] - wall;
        if remaining > 0 {
          until := until[host := now + remaining];
        }
        left := left - {host};
      }
    }
  }

  /**
     A restart keeps every skip to the moment: after it, a host is skipped at a
     given instant exactly when the interval was still running at the snapshot
     and would be running at that instant without the restart.
   */
  lemma RestartKeepsSkips(until: map<string, Time>, host: string, now: Time, wall: Time,
                          newNow: Time, newWall: Time, elapsed: nat)
    requires newNow >= 0
    ensures Skips(Restored(Deadlines(until, now, wall), newNow, newWall), host, newNow + elapsed)
       <==> host in until && until[host] > now && Skips(until, host, now + (newWall - wall) + elapsed)
  {
  }

  // ----- no run pins a host

  /** A process with its clocks, and the cache file. */
  datatype World = World(until: map<string, Time>, failures: map<string, nat>, mono: Time, wall: Time, disk: Saved)

  datatype Step =
    | Tick(span: nat)
    | Fail(host: string, retryAfter: Option<Time>)
    | Succeed(host: string)
    | Save
    | Restart(down: nat, mono: nat)

  function Next(s: World, step: Step): World {
    match step
    case Tick(span) => s.(mono := s.mono + span, wall := s.wall + span)
    case Fail(host, retryAfter) =>
      var n := Failures(s.failures, host) + 1;
      s.(failures := s.failures[host := n], until := s.until[host := s.mono + Delay(n, retryAfter)])
    case Succeed(host) => s.(until := s.until - {host}, failures := s.failures - {host})
    case Save => s.(disk := Saved(s.failures, Deadlines(s.until, s.mono, s.wall)))
    case Restart(down, mono) =>
      World(Restored(s.disk.deadlines, mono, s.wall + down), s.disk.failures, mono, s.wall + down, s.disk)
  }

  function Exec(s: World, run: seq<Step>): World
    decreases |run|
  {
    if run == [] then s else Exec(Next(s, run[0]), run[1..])
  }

  predicate Bounded(s: World) {
    && (forall host :: host in s.until ==> s.until[host] <= s.mono + MAX_BACKOFF)
    && (forall host :: host in s.disk.deadlines ==> s.disk.deadlines[host] <= s.wall + MAX_BACKOFF)
  }

  /**
     Whatever fails, and however often the process restarts, no host is skipped
     five minutes from now: neither its own Retry-After nor a restart can pin it.
   */
  lemma {:induction false} NeverPinned(s: World, run: seq<Step>, host: string)
    requires Bounded(s)
    ensures Bounded(Exec(s, run))
    ensures var t := Exec(s, run);
      t.mono + MAX_BACKOFF >= 0 ==> !Skips(t.until, host, t.mono + MAX_BACKOFF)
    decreases |run|
  {
    if run != [] {
      if run[0].Fail? { DelayDoubles(Failures(s.failures, run[0].host) + 1, run[0].retryAfter); }
      NeverPinned(Next(s, run[0]), run[1..], host);
    }
  }

  lemma {:induction false} ExecStep(s: World, run: seq<Step>, step: Step)
    ensures Exec(s, run + [step]) == Next(Exec(s, run), step)
    decreases |run|
  {
    if run == [] {
      assert run + [step] == [step] && [step][1..] == [];
    } else {
      assert (run + [step])[0] == run[0] && (run + [step])[1..] == run[1..] + [step];
      ExecStep(Next(s, run[0]), run[1..], step);
    }
  }

  /** The part of the run that still counts: a restart forgets what came after the last save. */
  function Live(run: seq<Step>): seq<Step> {
    if run == [] then []
    else
      var front, last := run[..|run| - 1], run[|run| - 1];
      if last.Restart? then SavedPart(front) else Live(front) + [last]
  }

  /** What counted when the cache file was last written. */
  function SavedPart(run: seq<Step>): seq<Step> {
    if run == [] then []
    else
      var front, last := run[..|run| - 1], run[|run| - 1];
      if last.Save? then Live(front) else SavedPart(front)
  }

  /** Failures of the host since it last succeeded. */
  function FailsInARow(run: seq<Step>, host: string): nat {
    if run == [] || run[|run| - 1] == Succeed(host) then 0
    else FailsInARow(run[..|run| - 1], host) + (if run[|run| - 1].Fail? && run[|run| - 1].host == host then 1 else 0)
  }

  lemma FailsAppend(run: seq<Step>, step: Step, host: string)
    ensures FailsInARow(run + [step], host)
         == if step == Succeed(host) then 0
            else FailsInARow(run, host) + (if step.Fail? && step.host == host then 1 else 0)
  {
    assert (run + [step])[..|run|] == run;
  }

  lemma FailuresNext(s: World, step: Step, host: string)
    ensures var t, n := Next(s, step), Failures(s.failures, host);
      && Failures(t.failures, host) ==
           (match step
            case Fail(h, _) => if h == host then n + 1 else n
            case Succeed(h) => if h == host then 0 else n
            case Restart(_, _) => Failures(s.disk.failures, host)
            case _ => n)
      && t.disk.failures == if step.Save? then s.failures else s.disk.failures
  {
  }

  lemma LiveAppend(front: seq<Step>, last: Step)
    ensures Live(front + [last]) == if last.Restart? then SavedPart(front) else Live(front) + [last]
    ensures SavedPart(front + [last]) == if last.Save? then Live(front) else SavedPart(front)
  {
    assert (front + [last])[..|front|] == front;
  }

  /** The counts in memory and on disk are those of the parts of the run that count. */
  predicate Counts(s: World, run: seq<Step>, host: string) {
    && Failures(s.failures, host) == FailsInARow(Live(run), host)
    && Failures(s.disk.failures, host) == FailsInARow(SavedPart(run), host)
  }

  lemma CountsStep(s: World, front: seq<Step>, last: Step, host: string)
    requires Counts(s, front, host)
    ensures Counts(Next(s, last), front + [last], host)
  {
    LiveAppend(front, last);
    FailuresNext(s, last, host);
    FailsAppend(Live(front), last, host);
  }

  /**
     The count that sets a host's interval, whatever the other hosts do and however
     often the process restarts: its failures since it last succeeded, without those
     that a restart forgot because no save came after them.
   */
  lemma {:induction false} FailuresCount(s: World, run: seq<Step>, host: string)
    requires s.failures == map[] && s.disk.failures == map[]
    ensures Counts(Exec(s, run), run, host)
    decreases |run|
  {
    if run != [] {
      var front, last := run[..|run| - 1], run[|run| - 1];
      assert run == front + [last];
      ExecStep(s, front, last);
      FailuresCount(s, front, host);
      CountsStep(Exec(s, front), front, last, host);
    }
  }
}
