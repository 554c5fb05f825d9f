/**
 The batch arm of the freshness measurement, freshet/eval/freshness.py, over
 the reals: what an update would have waited under a fixed refresh cadence,
 averaged over every second at which the refresh could sit.
 */
module Freshness {
  import opened Basics
  import opened KeepFirst

  // ----- real arithmetic

  lemma {:induction false} SumTimes(a: real, b: real, c: real, m: real)
    requires c == a + b
    ensures c * m == a * m + b * m
  {
  }

  lemma {:induction false} Split(a: real, b: real, m: real)
    requires m != 0.0
    ensures (a + b) / m == a / m + b / m
    ensures b == m ==> b / m == 1.0
    ensures b == -m ==> b / m == -1.0
  {
  }

  lemma {:induction false} CancelNegative(t: real, m: real)
    requires m > 0.0 && t * m < 0.0
    ensures t < 0.0
  {
  }

  lemma {:induction false} CancelAtLeast(t: real, m: real)
    requires m > 0.0 && t * m >= m
    ensures t >= 1.0
  {
    assert t < 1.0 ==> (1.0 - t) * m > 0.0;
    SumTimes(1.0, -t, 1.0 - t, m);
  }

  // ----- remainders

  /** Python's `x % m` for a positive m. */
  function Mod(x: real, m: real): (r: real)
    requires m > 0.0
    ensures 0.0 <= r < m
    decreases Rank(x, m)
  {
    Closer(x, m);
    if x < 0.0 then Mod(x + m, m) else if x >= m then Mod(x - m, m) else x
  }

  function Rank(x: real, m: real): nat
    requires m > 0.0
  {
    var q := (x / m).Floor;
    if q < 0 then -q else q
  }

  lemma {:induction false} Closer(x: real, m: real)
    requires m > 0.0
    ensures x < 0.0 ==> Rank(x + m, m) < Rank(x, m)
    ensures x >= m ==> Rank(x - m, m) < Rank(x, m)
  {
    Split(x, m, m);
    Split(x, -m, m);
    var t := x / m;
    assert t * m == x;
    if x < 0.0 {
      CancelNegative(t, m);
    } else if x >= m {
      CancelAtLeast(t, m);
    }
  }

  /** q times a, by adding. */
  function Times(q: int, a: real): real
    decreases if q < 0 then -q else q
  {
    if q == 0 then 0.0 else if q > 0 then Times(q - 1, a) + a else Times(q + 1, a) - a
  }

  lemma {:induction false} TimesIs(q: int, a: real)
    ensures Times(q, a) == q as real * a
    decreases if q < 0 then -q else q
  {
    if q > 0 {
      TimesIs(q - 1, a);
      SumTimes((q - 1) as real, 1.0, q as real, a);
    } else if q < 0 {
      TimesIs(q + 1, a);
      SumTimes(q as real, 1.0, (q + 1) as real, a);
    }
  }

  lemma {:induction false} TimesSum(p: int, q: int, sum: int, a: real)
    requires sum == p + q
    ensures Times(sum, a) == Times(p, a) + Times(q, a)
  {
    TimesIs(sum, a);
    TimesIs(p, a);
    TimesIs(q, a);
    SumTimes(p as real, q as real, sum as real, a);
  }

  lemma {:induction false} TimesOfSum(q: nat, a: real, b: real)
    ensures Times(q, a + b) == Times(q, a) + Times(q, b)
  {
    if q > 0 { TimesOfSum(q - 1, a, b); }
  }

  lemma {:induction false} TimesTimes(d: int, n: int, a: real)
    ensures Times(d * n, a) == Times(d, Times(n, a))
    decreases if d < 0 then -d else d
  {
    if d > 0 {
      TimesTimes(d - 1, n, a);
      assert d * n == (d - 1) * n + n;
      TimesSum((d - 1) * n, n, d * n, a);
    } else if d < 0 {
      TimesTimes(d + 1, n, a);
      assert (d + 1) * n == d * n + n;
      TimesSum(d * n, n, (d + 1) * n, a);
    }
  }

  lemma {:induction false} TimesNonNegative(q: nat, a: real)
    requires a >= 0.0
    ensures Times(q, a) >= 0.0
  {
    if q > 0 { TimesNonNegative(q - 1, a); }
  }

  /** A number is a whole multiple of m and its remainder. */
  lemma {:induction false} Quotient(x: real, m: real) returns (q: int)
    requires m > 0.0
    ensures x == Times(q, m) + Mod(x, m)
    decreases Rank(x, m)
  {
    Closer(x, m);
    if x < 0.0 {
      var p := Quotient(x + m, m);
      q := p - 1;
      TimesSum(q, 1, p, m);
    } else if x >= m {
      var p := Quotient(x - m, m);
      q := p + 1;
      TimesSum(p, 1, q, m);
    } else {
      q := 0;
    }
  }

  /** And the remainder is determined by being one. */
  lemma {:induction false} ModUnique(x: real, m: real, q: int, r: real)
    requires m > 0.0 && x == Times(q, m) + r && 0.0 <= r < m
    ensures Mod(x, m) == r
    decreases if q < 0 then -q else q
  {
    if q > 0 {
      TimesNonNegative(q - 1, m);
      ModUnique(x - m, m, q - 1, r);
    } else if q < 0 {
      TimesNonNegative(-(q + 1), m);
      TimesSum(q + 1, -(q + 1), 0, m);
      ModUnique(x + m, m, q + 1, r);
    }
  }

  // ----- the batch arm

  function BatchStaleness(posted: real, interval: real, phase: real): real
    requires interval > 0.0
  {
    interval - Mod(posted - phase, interval)
  }

  function SumStaleness(posted: seq<real>, interval: real, phase: real): real
    requires interval > 0.0
  {
    if posted == [] then 0.0
    else SumStaleness(posted[..|posted| - 1], interval, phase) + BatchStaleness(posted[|posted| - 1], interval, phase)
  }

  /** Where the refresh sits in the k-th alignment. */
  function Phase(k: nat, step: real): real {
    k as real * step
  }

  /** `batch_alignment_sweep` for a workload that is not empty. */
  function Sweep(posted: seq<real>, interval: real, alignments: nat): seq<real>
    requires interval > 0.0 && alignments > 0 && posted != []
  {
    SweepBySteps(posted, interval, alignments, interval / alignments as real)
  }

  function SweepBySteps(posted: seq<real>, interval: real, alignments: nat, step: real): seq<real>
    requires interval > 0.0 && posted != []
  {
    seq(alignments, k requires 0 <= k < alignments => SumStaleness(posted, interval, Phase(k, step)) / |posted| as real)
  }

  function Sum(xs: seq<real>): real {
    if xs == [] then 0.0 else Sum(xs[..|xs| - 1]) + xs[|xs| - 1]
  }

  function Mean(xs: seq<real>): real
    requires xs != []
  {
    Sum(xs) / |xs| as real
  }

  function Mods(posted: seq<real>, step: real): seq<real>
    requires step > 0.0
  {
    seq(|posted|, i requires 0 <= i < |posted| => Mod(posted[i], step))
  }

  // ----- every window of n consecutive numbers has each residue once

  /** Sum of (q - k) mod n over k below j. */
  function Residues(q: int, n: nat, j: nat): int
    requires n > 0
  {
    if j == 0 then 0 else Residues(q, n, j - 1) + (q - (j - 1)) % n
  }

  lemma {:induction false} ResiduesShift(q: int, n: nat, j: nat)
    requires n > 0
    ensures Residues(q + 1, n, j + 1) == (q + 1) % n + Residues(q, n, j)
  {
    if j > 0 { ResiduesShift(q, n, j - 1); }
  }

  lemma {:induction false} ResiduesStart(n: nat, j: nat)
    requires j <= n && n > 0
    ensures 2 * Residues(n - 1, n, j) == j * (2 * n - 1 - j)
  {
    if j > 0 {
      ResiduesStart(n, j - 1);
      var before := Residues(n - 1, n, j - 1);
      assert Residues(n - 1, n, j) == before + (n - 1 - (j - 1)) % n;
      RemainderUnique(n - 1 - (j - 1), n, 0, n - j);
      Triangle(n, j);
    }
  }

  lemma {:induction false} Triangle(n: int, j: int)
    ensures (j - 1) * (2 * n - 1 - (j - 1)) + 2 * (n - j) == j * (2 * n - 1 - j)
  {
    assert (j - 1) * (2 * n - j) == j * (2 * n - j) - (2 * n - j);
    assert j * (2 * n - 1 - j) == j * (2 * n - j) - j;
  }

  lemma {:induction false} ModPeriod(a: int, n: nat)
    requires n > 0
    ensures (a + n) % n == a % n
  {
    RemainderUnique(a + n, n, a / n + 1, a % n);
  }

  lemma {:induction false} RemainderUnique(a: int, n: nat, q: int, r: int)
    requires n > 0 && a == q * n + r && 0 <= r < n
    ensures a % n == r
  {
    var d := q - a / n;
    assert d * n + r == a % n;
    Multiple(d, n);
  }

  lemma {:induction false} Multiple(d: int, n: nat)
    ensures d >= 1 ==> d * n >= n
    ensures d <= -1 ==> d * n + n <= 0
  {
  }

  lemma {:induction false} ResiduesNext(q: int, n: nat)
    requires n > 0
    ensures Residues(q + 1, n, n) == Residues(q, n, n)
  {
    ResiduesShift(q, n, n - 1);
    ModPeriod(q + 1 - n, n);
  }

  /** Every window of n consecutive numbers has each residue once. */
  lemma {:induction false} ResiduesOfWindow(q: int, n: nat)
    requires n > 0
    ensures 2 * Residues(q, n, n) == n * (n - 1)
    decreases if q < n - 1 then n - 1 - q else q - (n - 1)
  {
    if q == n - 1 {
      ResiduesStart(n, n);
    } else if q < n - 1 {
      ResiduesOfWindow(q + 1, n);
      ResiduesNext(q, n);
    } else {
      ResiduesOfWindow(q - 1, n);
      ResiduesNext(q - 1, n);
    }
  }

  // ----- one update over all phases

  /** Sum of the waits of one update over the first j phases. */
  function SumPhases(p: real, interval: real, step: real, j: nat): real
    requires interval > 0.0
  {
    if j == 0 then 0.0 else SumPhases(p, interval, step, j - 1) + BatchStaleness(p, interval, Times(j - 1, step))
  }

  /** At phase k an update waits a whole number of steps, less its offset within a step. */
  lemma {:induction false} WaitAtPhase(p: real, interval: real, step: real, n: nat, q: int, r: real, k: nat)
    requires step > 0.0 && n > 0 && interval == Times(n, step) > 0.0 && p == Times(q, step) + r && 0.0 <= r < step
    ensures BatchStaleness(p, interval, Times(k, step)) == interval - Times((q - k) % n, step) - r
  {
    var d, c := PhaseQuotient(step, n, q, k);
    OffsetInInterval(c, n, step, r);
    ModUnique(p - Times(k, step), interval, d, Times(c, step) + r);
  }

  lemma {:induction false} PhaseQuotient(step: real, n: nat, q: int, k: nat) returns (d: int, c: nat)
    requires n > 0
    ensures c == (q - k) % n && c < n
    ensures Times(q, step) - Times(k, step) == Times(d, Times(n, step)) + Times(c, step)
  {
    d, c := (q - k) / n, (q - k) % n;
    TimesTimes(d, n, step);
    DividedTimes(q, k, d * n, c, step);
  }

  lemma {:induction false} DividedTimes(q: int, k: int, whole: int, c: int, step: real)
    requires q - k == whole + c
    ensures Times(q, step) - Times(k, step) == Times(whole, step) + Times(c, step)
  {
    TimesSum(whole + c, k, q, step);
    TimesSum(whole, c, whole + c, step);
  }

  lemma {:induction false} OffsetInInterval(c: nat, n: nat, step: real, r: real)
    requires c < n && step > 0.0 && 0.0 <= r < step
    ensures 0.0 <= Times(c, step) + r < Times(n, step)
  {
    TimesNonNegative(c, step);
    TimesNonNegative(n - 1 - c, step);
    TimesSum(n - 1 - c, c, n - 1, step);
  }

  lemma {:induction false} SumOverPhases(p: real, interval: real, step: real, n: nat, q: int, r: real, j: nat)
    requires step > 0.0 && n > 0 && interval == Times(n, step) > 0.0 && p == Times(q, step) + r && 0.0 <= r < step
    ensures SumPhases(p, interval, step, j) == Times(j, interval - r) - Times(Residues(q, n, j), step)
  {
    if j > 0 {
      SumOverPhases(p, interval, step, n, q, r, j - 1);
      WaitAtPhase(p, interval, step, n, q, r, j - 1);
      TimesSum(Residues(q, n, j - 1), (q - (j - 1)) % n, Residues(q, n, j), step);
    }
  }

  /** Over all phases an update waits half an interval and half a step, less its offset within a step, on average. */
  lemma {:induction false} OneUpdate(p: real, interval: real, step: real, n: nat, half: real)
    requires step > 0.0 && n > 0 && interval == Times(n, step) > 0.0 && 2.0 * half == interval + step
    ensures SumPhases(p, interval, step, n) == Times(n, half - Mod(p, step))
  {
    var r := Mod(p, step);
    var q := Quotient(p, step);
    SumOverPhases(p, interval, step, n, q, r, n);
    ResiduesOfWindow(q, n);
    TwiceTheSteps(Residues(q, n, n), n, step);
    var rest := interval - half;
    TimesOfSum(n, half - r, rest);
    TimesOfSum(n, rest, rest);
    assert half - r + rest == interval - r && rest + rest == interval - step;
  }

  /** The residues, in steps, make up n times half of what an interval has over a step. */
  lemma {:induction false} TwiceTheSteps(R: int, n: nat, step: real)
    requires 2 * R == n * (n - 1) && n > 0
    ensures 2.0 * Times(R, step) == Times(n, Times(n, step) - step)
  {
    TimesSum(R, R, n * (n - 1), step);
    TimesTimes(n, n - 1, step);
    TimesSum(n - 1, 1, n, step);
  }

  // ----- the sweep

  /** Sum over the first j phases of the waits of all updates. */
  function SweepTotal(posted: seq<real>, interval: real, step: real, j: nat): real
    requires interval > 0.0
  {
    if j == 0 then 0.0 else SweepTotal(posted, interval, step, j - 1) + SumStaleness(posted, interval, Times(j - 1, step))
  }

  lemma {:induction false} OneMoreUpdate(posted: seq<real>, interval: real, step: real, j: nat)
    requires interval > 0.0 && posted != []
    ensures SweepTotal(posted, interval, step, j)
         == SweepTotal(posted[..|posted| - 1], interval, step, j) + SumPhases(posted[|posted| - 1], interval, step, j)
  {
    if j > 0 { OneMoreUpdate(posted, interval, step, j - 1); }
  }

  lemma {:induction false} NoUpdates(interval: real, step: real, j: nat)
    requires interval > 0.0
    ensures SweepTotal([], interval, step, j) == 0.0
  {
    if j > 0 { NoUpdates(interval, step, j - 1); }
  }

  lemma {:induction false} TimesZero(n: nat)
    ensures Times(n, 0.0) == 0.0
  {
    if n > 0 { TimesZero(n - 1); }
  }

  /** The sum over all phases and updates. */
  lemma {:induction false} SweepTotalIs(posted: seq<real>, interval: real, step: real, n: nat, half: real)
    requires step > 0.0 && n > 0 && interval == Times(n, step) > 0.0 && 2.0 * half == interval + step
    ensures SweepTotal(posted, interval, step, n) == Times(n, Times(|posted|, half) - Sum(Mods(posted, step)))
    decreases |posted|
  {
    if posted == [] {
      NoUpdates(interval, step, n);
      TimesZero(n);
    } else {
      var front, last := posted[..|posted| - 1], posted[|posted| - 1];
      SweepTotalIs(front, interval, step, n, half);
      OneMoreUpdate(posted, interval, step, n);
      OneUpdate(last, interval, step, n, half);
      assert Mods(posted, step)[..|front|] == Mods(front, step);
      TimesOfSum(n, Times(|front|, half) - Sum(Mods(front, step)), half - Mod(last, step));
    }
  }

  /** Dividing each phase's sum by the number of updates divides the total. */
  lemma {:induction false} SumOfMeans(xs: seq<real>, posted: seq<real>, interval: real, step: real)
    requires interval > 0.0 && posted != []
    requires forall k :: 0 <= k < |xs| ==> xs[k] == SumStaleness(posted, interval, Times(k, step)) / |posted| as real
    ensures Sum(xs) == SweepTotal(posted, interval, step, |xs|) / |posted| as real
    decreases |xs|
  {
    if xs != [] {
      SumOfMeans(xs[..|xs| - 1], posted, interval, step);
      Split(SweepTotal(posted, interval, step, |xs| - 1), SumStaleness(posted, interval, Times(|xs| - 1, step)), |posted| as real);
    }
  }

  lemma {:induction false} Cancel(N: real, m: real, half: real, mods: real, total: real)
    requires N != 0.0 && m != 0.0 && total == N * (m * half - mods)
    ensures total / m / N == half - mods / m
  {
    var y := half - mods / m;
    TimesOver(mods, m);
    Spread(m, half, mods / m);
    assert m * half - mods == m * y;
    Reorder(N, m, y);
    TimesOver(y * N, m);
    assert total / m == y * N;
    TimesOver(y, N);
  }

  lemma {:induction false} TimesOver(a: real, m: real)
    requires m != 0.0
    ensures a * m / m == a && a / m * m == a && m * (a / m) == a
  {
  }

  lemma {:induction false} Spread(m: real, a: real, b: real)
    ensures m * a - m * b == m * (a - b)
  {
  }

  lemma {:induction false} Reorder(N: real, m: real, y: real)
    ensures N * (m * y) == y * N * m
  {
  }

  lemma {:induction false} StepTimesCount(interval: real, alignments: nat, step: real)
    requires alignments > 0 && interval > 0.0 && step == interval / alignments as real
    ensures step > 0.0 && interval == Times(alignments, step)
  {
    TimesIs(alignments, step);
  }

  lemma {:induction false} SweepAtSteps(posted: seq<real>, interval: real, alignments: nat, step: real)
    requires posted != [] && interval > 0.0
    ensures forall k :: 0 <= k < alignments ==>
              SweepBySteps(posted, interval, alignments, step)[k]
              == SumStaleness(posted, interval, Times(k, step)) / |posted| as real
  {
    forall k | 0 <= k < alignments
      ensures SweepBySteps(posted, interval, alignments, step)[k]
           == SumStaleness(posted, interval, Times(k, step)) / |posted| as real
    {
      TimesIs(k, step);
      assert Phase(k, step) == Times(k, step);
      assert SweepBySteps(posted, interval, alignments, step)[k] == SumStaleness(posted, interval, Phase(k, step)) / |posted| as real;
    }
  }

  /**
     The swept mean does not depend on where the refresh sits: for every
     workload it is half of an interval and a step, less the mean offset of the
     updates within a step.
   */
  lemma {:induction false} AlignmentIndependent(posted: seq<real>, interval: real, alignments: nat)
    requires posted != [] && interval > 0.0 && alignments > 0
    ensures interval / alignments as real > 0.0
    ensures var step := interval / alignments as real;
      Mean(Sweep(posted, interval, alignments)) == (interval + step) / 2.0 - Mean(Mods(posted, step))
  {
    var step := interval / alignments as real;
    StepTimesCount(interval, alignments, step);
    SweepAtSteps(posted, interval, alignments, step);
    SweptMean(posted, interval, SweepBySteps(posted, interval, alignments, step), step, (interval + step) / 2.0);
  }

  lemma {:induction false} SweptMean(posted: seq<real>, interval: real, sweep: seq<real>, step: real, half: real)
    requires posted != [] && sweep != [] && step > 0.0 && interval == Times(|sweep|, step) > 0.0
    requires 2.0 * half == interval + step
    requires forall k :: 0 <= k < |sweep| ==> sweep[k] == SumStaleness(posted, interval, Times(k, step)) / |posted| as real
    ensures Mean(sweep) == half - Mean(Mods(posted, step))
  {
    SumOfMeans(sweep, posted, interval, step);
    MeanOfSum(posted, interval, sweep, step, half);
  }

  lemma {:induction false} MeanOfSum(posted: seq<real>, interval: real, sweep: seq<real>, step: real, half: real)
    requires posted != [] && sweep != [] && step > 0.0 && interval == Times(|sweep|, step) > 0.0
    requires 2.0 * half == interval + step
    requires Sum(sweep) == SweepTotal(posted, interval, step, |sweep|) / |posted| as real
    ensures Mean(sweep) == half - Mean(Mods(posted, step))
  {
    SweepTotalIs(posted, interval, step, |sweep|, half);
    MeanOfTotal(SweepTotal(posted, interval, step, |sweep|), |sweep|, |posted|, half, Sum(Mods(posted, step)));
  }

  lemma {:induction false} MeanOfTotal(total: real, n: nat, m: nat, half: real, mods: real)
    requires n > 0 && m > 0 && total == Times(n, Times(m, half) - mods)
    ensures total / m as real / n as real == half - mods / m as real
  {
    TimesIs(m, half);
    TimesIs(n, Times(m, half) - mods);
    Cancel(n as real, m as real, half, mods, total);
  }

  lemma {:induction false} SumBounds(xs: seq<real>, bound: real)
    requires forall i :: 0 <= i < |xs| ==> 0.0 <= xs[i] < bound
    ensures 0.0 <= Sum(xs) <= |xs| as real * bound && (xs != [] ==> Sum(xs) < |xs| as real * bound)
    decreases |xs|
  {
    if xs != [] {
      SumBounds(xs[..|xs| - 1], bound);
      SumTimes((|xs| - 1) as real, 1.0, |xs| as real, bound);
    }
  }

  /** For an hourly refresh swept second by second, every workload's batch mean is half an hour, give or take half a second. */
  lemma {:induction false} HourlyBatchMean(posted: seq<real>)
    requires posted != []
    ensures 1799.5 < Mean(Sweep(posted, 3600.0, 3600)) <= 1800.5
  {
    AlignmentIndependent(posted, 3600.0, 3600);
    var mods := Mods(posted, 1.0);
    SumBounds(mods, 1.0);
    var m := |mods| as real;
    assert 0.0 <= Sum(mods) / m < 1.0 by { BelowOne(Sum(mods), m); }
  }

  lemma {:induction false} BelowOne(x: real, m: real)
    requires 0.0 <= x < m
    ensures 0.0 <= x / m < 1.0
  {
  }

  // ----- one row per update

  datatype Row = Row(posted: real, queryable: real, eventId: string)

  function EventOf(r: Row): Option<string> {
    Some(r.eventId)
  }

  /** The pairs of these rows, in order. */
  predicate PairsOf(updates: seq<(real, real)>, rows: seq<Row>) {
    |updates| == |rows| && forall i :: 0 <= i < |updates| ==> updates[i] == (rows[i].posted, rows[i].queryable)
  }

  /** `distinct_updates`: the first chunk row of each update stands for it. */
  method DistinctUpdates(rows: seq<Row>) returns (updates: seq<(real, real)>)
    ensures |updates| == |KeysOf(rows, EventOf)| && PairsOf(updates, Kept(rows, EventOf))
  {
    updates := [];
    var seen: set<string> := {};
    for i := 0 to |rows|
      invariant seen == KeysOf(rows[..i], EventOf) && |updates| == |seen| && PairsOf(updates, Kept(rows[..i], EventOf))
    {
      var row := rows[i];
      assert rows[..i + 1] == rows[..i] + [row];
      KeptAppendOne(rows[..i], row, EventOf);
      KeysAppendOne(rows[..i], row, EventOf, row.eventId);
      if row.eventId !in seen {
        seen := seen + {row.eventId};
        updates := updates + [(row.posted, row.queryable)];
      } else {
        assert seen + {row.eventId} == seen;
      }
    }
    assert rows[..|rows|] == rows;
  }
}
