/**
 freshet/common/heartbeat.py: a throttled beat into a log with one row a
 minute, and the walk back over that log to the start of the current unbroken
 run, which decides what the freshness measurement counts.
 */
module Heartbeat {
  import opened Basics

  const GAP_TOLERANCE: Time := 300 * SECOND

  /** `date_trunc('minute', t)`. */
  function MinuteOf(t: Time): (m: Time)
    ensures m <= t < m + MINUTE
  {
    t - t % MINUTE
  }

  /** The start of the minute, and of no other. */
  lemma MinuteStarts(t: Time)
    ensures MinuteOf(t) % MINUTE == 0 && MinuteOf(t) <= t < MinuteOf(t) + MINUTE
  {
    assert t == (t / MINUTE) * MINUTE + t % MINUTE;
    MinutesAreWhole(t / MINUTE);
  }

  lemma MinutesAreWhole(q: int)
    ensures (q * MINUTE) % MINUTE == 0
  {
  }

  predicate Ascending(times: seq<Time>) {
    forall i, j :: 0 <= i < j < |times| ==> times[i] <= times[j]
  }

  /** The forward form: a beat after too long a gap starts the run afresh. */
  function RunStart(beats: seq<Time>, tolerance: Time): Time
    requires beats != []
  {
    var n := |beats| - 1;
    if n == 0 || beats[n] - beats[n - 1] > tolerance then beats[n] else RunStart(beats[..n], tolerance)
  }

  function Reverse(rows: seq<Time>): seq<Time> {
    if rows == [] then [] else Reverse(rows[1..]) + [rows[0]]
  }

  lemma {:induction false} ReverseAt(rows: seq<Time>, k: nat)
    requires k < |rows|
    ensures |Reverse(rows)| == |rows| && Reverse(rows)[|rows| - 1 - k] == rows[k]
    decreases |rows|
  {
    if |rows| > 1 { ReverseAt(rows[1..], if k == 0 then 0 else k - 1); }
  }

  lemma {:induction false} ReverseShape(rows: seq<Time>)
    ensures var asc := Reverse(rows); |asc| == |rows| && forall k :: 0 <= k < |rows| ==> asc[|rows| - 1 - k] == rows[k]
  {
    if rows != [] { ReverseAt(rows, 0); }
    forall k | 0 <= k < |rows| ensures Reverse(rows)[|rows| - 1 - k] == rows[k] { ReverseAt(rows, k); }
  }

  /** The newest beats drop out of the forward form while there is no gap among them. */
  lemma {:induction false} NoGapAbove(asc: seq<Time>, tolerance: Time, j: nat)
    requires j < |asc| && forall i :: j < i < |asc| ==> asc[i] - asc[i - 1] <= tolerance
    ensures RunStart(asc, tolerance) == RunStart(asc[..j + 1], tolerance)
    decreases |asc|
  {
    var n := |asc| - 1;
    if j < n {
      NoGapAbove(asc[..n], tolerance, j);
      assert asc[..n][..j + 1] == asc[..j + 1];
    } else {
      assert asc[..j + 1] == asc;
    }
  }

  /**
     `continuous_run_start`: the walk back from the newest row stops at the first
     gap, and arrives where the forward form does.
   */
  method ContinuousRunStart(rows: seq<Time>, tolerance: Time) returns (start: Option<Time>)
    ensures start == if rows == [] then None else Some(RunStart(Reverse(rows), tolerance))
  {
    if rows == [] { return None; }
    var at := rows[0];
    var k := 1;
    ghost var asc := Reverse(rows);
    ghost var n := |rows|;
    ReverseShape(rows);
    while k < |rows|
      invariant 1 <= k <= |rows| && at == rows[k - 1] == asc[n - k]
      invariant forall i :: n - k < i < n ==> asc[i] - asc[i - 1] <= tolerance
    {
      var earlier := rows[k];
      assert earlier == asc[n - 1 - k];
      if at - earlier > tolerance { break; }
      at := earlier;
      k := k + 1;
    }
    NoGapAbove(asc, tolerance, n - k);
    start := Some(at);
  }

  // ----- from the process's own beats to its log

  function Minutes(beats: seq<Time>): seq<Time> {
    seq(|beats|, i requires 0 <= i < |beats| => MinuteOf(beats[i]))
  }

  /** The log keeps one row a minute. */
  function Log(beats: seq<Time>): (log: seq<Time>)
    ensures beats != [] ==> log != [] && log[|log| - 1] == MinuteOf(beats[|beats| - 1])
  {
    if beats == [] then []
    else
      var n := |beats| - 1;
      var front := Log(beats[..n]);
      if n > 0 && MinuteOf(beats[n]) == MinuteOf(beats[n - 1]) then front else front + [MinuteOf(beats[n])]
  }

  /** Keeping one row a minute does not move the start of the run. */
  lemma {:induction false} LogKeepsStart(beats: seq<Time>, tolerance: Time)
    requires beats != [] && tolerance >= 0
    ensures RunStart(Log(beats), tolerance) == RunStart(Minutes(beats), tolerance)
    decreases |beats|
  {
    var n := |beats| - 1;
    assert Minutes(beats)[..n] == Minutes(beats[..n]);
    if n > 0 {
      LogKeepsStart(beats[..n], tolerance);
      var front := Log(beats[..n]);
      assert (front + [MinuteOf(beats[n])])[..|front|] == front;
    }
  }

  /** While the process never pauses for longer than the tolerance less a minute, its run is not cut. */
  lemma {:induction false} SteadyBeatsKeepTheRun(beats: seq<Time>, i: nat)
    requires i < |beats| && forall k :: i < k < |beats| ==> beats[k] - beats[k - 1] <= 4 * MINUTE
    requires Ascending(beats)
    ensures RunStart(Minutes(beats), GAP_TOLERANCE) <= MinuteOf(beats[i])
    decreases |beats|
  {
    var n := |beats| - 1;
    assert Minutes(beats)[..n] == Minutes(beats[..n]);
    if i < n {
      SteadyBeatsKeepTheRun(beats[..n], i);
    } else {
      MinutesAscend(beats);
      StartNotAfterLast(Minutes(beats), GAP_TOLERANCE);
    }
  }

  lemma {:induction false} MinutesAscend(beats: seq<Time>)
    requires Ascending(beats)
    ensures Ascending(Minutes(beats))
  {
    forall i, j | 0 <= i < j < |beats| ensures Minutes(beats)[i] <= Minutes(beats)[j] {
      MinutesGrow(beats[i], beats[j]);
    }
  }

  lemma {:induction false} StartNotAfterLast(beats: seq<Time>, tolerance: Time)
    requires beats != [] && tolerance >= 0 && Ascending(beats)
    ensures RunStart(beats, tolerance) <= beats[|beats| - 1]
    decreases |beats|
  {
    if |beats| > 1 { StartNotAfterLast(beats[..|beats| - 1], tolerance); }
  }

  /** An outage of more than the tolerance and a minute always does cut it, whatever came before or after. */
  lemma {:induction false} OutageCutsTheRun(beats: seq<Time>, i: nat)
    requires i + 1 < |beats| && beats[i + 1] - beats[i] > 6 * MINUTE
    requires Ascending(beats)
    ensures RunStart(Minutes(beats), GAP_TOLERANCE) >= MinuteOf(beats[i + 1])
    decreases |beats|
  {
    var n := |beats| - 1;
    assert Minutes(beats)[..n] == Minutes(beats[..n]);
    if i + 1 < n {
      OutageCutsTheRun(beats[..n], i);
      MinutesGrow(beats[i + 1], beats[n]);
    }
  }

  lemma {:induction false} MinutesGrow(a: Time, b: Time)
    requires a <= b
    ensures MinuteOf(a) <= MinuteOf(b)
  {
    var p, q := a / MINUTE, b / MINUTE;
    assert MinuteOf(a) == p * MINUTE && MinuteOf(b) == q * MINUTE;
  }

  /** The writer: one row per component, at most one beat an interval. */
  class Writer {
    const interval: Time
    var last: Time
    var log: seq<Time>
    ghost var beats: seq<Time>

    ghost predicate Valid()
      reads this
    {
      && log == Log(beats) && Ascending(beats)
      && (forall i :: 0 < i < |beats| ==> beats[i] - beats[i - 1] >= interval)
      && (beats != [] ==> last == beats[|beats| - 1])
    }

    constructor (interval: Time)
      ensures Valid() && this.interval == interval && beats == []
    {
      this.interval, last, log, beats := interval, -1_000_000_000 * SECOND, [], [];
    }

    /** `beat`: skipped while the last one is less than an interval old; an insert of a minute already there does nothing. */
    method Beat(now: Time) returns (wrote: bool)
      requires Valid() && interval >= 0 && now >= last
      modifies this
      ensures Valid() && wrote == (now - old(last) >= interval)
      ensures beats == if wrote then old(beats) + [now] else old(beats)
    {
      if now - last < interval { return false; }
      assert (beats + [now])[..|beats|] == beats;
      if log == [] || log[|log| - 1] != MinuteOf(now) { log := log + [MinuteOf(now)]; }
      beats, last := beats + [now], now;
      wrote := true;
    }
  }
}
