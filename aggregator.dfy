/** The per-phase aggregator: one pass over all log rows that keeps the samples
    of one discharge phase, skipping those that follow a logging gap of
    `MaxGap` seconds or more, and accumulates the phase's relative time. Times
    stay in seconds and energies in raw units. */
module Aggregator {
  import opened BatteryLog

  /** Timestamp t lies within the phase, both ends included. */
  predicate InPhase(phase: Phase, t: int) {
    phase.start <= t <= phase.end
  }

  // ---------------------------------------------------------------------------
  // Rows kept by the scan as written: previous_time advances on every row

  /** The time the scan measures row i's gap from: the phase start for the
      first row, otherwise the previous row's timestamp, whether or not that
      row was in the phase. */
  function PreviousTime(data: seq<Row>, phase: Phase, i: nat): int
    requires i <= |data|
  {
    if i == 0 then phase.start else data[i - 1].timestamp
  }

  function Gap(data: seq<Row>, phase: Phase, i: nat): int
    requires i < |data|
  {
    data[i].timestamp - PreviousTime(data, phase, i)
  }

  /** Row i yields a sample: it is in the phase and its gap is below MaxGap. */
  predicate Kept(data: seq<Row>, phase: Phase, i: nat)
    requires i < |data|
  {
    InPhase(phase, data[i].timestamp) && Gap(data, phase, i) < MaxGap
  }

  /** The indices, in order, of the rows among the first n that yield a sample. */
  function KeptRows(data: seq<Row>, phase: Phase, n: nat): (rows: seq<nat>)
    requires n <= |data|
    ensures forall k :: 0 <= k < |rows| ==> rows[k] < n
  {
    if n == 0 then []
    else KeptRows(data, phase, n - 1) + (if Kept(data, phase, n - 1) then [n - 1] else [])
  }

  /** The gaps of the given rows. */
  function GapsAt(data: seq<Row>, phase: Phase, rows: seq<nat>): (gaps: seq<int>)
    requires forall k :: 0 <= k < |rows| ==> rows[k] < |data|
    ensures |gaps| == |rows|
  {
    seq(|rows|, k requires 0 <= k < |rows| => Gap(data, phase, rows[k]))
  }

  /** The energies of the given rows. */
  function EnergiesAt(data: seq<Row>, rows: seq<nat>): (energies: seq<int>)
    requires forall k :: 0 <= k < |rows| ==> rows[k] < |data|
    ensures |energies| == |rows|
  {
    seq(|rows|, k requires 0 <= k < |rows| => data[rows[k]].energy)
  }

  function Sum(xs: seq<int>): int {
    if xs == [] then 0 else Sum(xs[..|xs| - 1]) + xs[|xs| - 1]
  }

  /** The running totals of xs: entry k is the sum of xs[..k + 1]. */
  function RunningTotals(xs: seq<int>): (totals: seq<int>)
    ensures |totals| == |xs|
  {
    if xs == [] then [] else RunningTotals(xs[..|xs| - 1]) + [Sum(xs)]
  }

  /** The scan of one phase: `previous_time` starts at the phase start and takes
      every row's timestamp; a row in the phase whose gap is below MaxGap adds
      the gap to the relative time and contributes (relative time, energy).
      The result is exactly the rows `Kept` selects: their energies, the
      running totals of their gaps, and the sum of those gaps. */
  method AggregatePhase(data: seq<Row>, phase: Phase) returns (time: seq<int>, energy: seq<int>, relativeTime: int)
    ensures |time| == |energy| == |KeptRows(data, phase, |data|)|
    ensures energy == EnergiesAt(data, KeptRows(data, phase, |data|))
    ensures relativeTime == Sum(GapsAt(data, phase, KeptRows(data, phase, |data|)))
    ensures time == RunningTotals(GapsAt(data, phase, KeptRows(data, phase, |data|)))
  {
    var previousTime := phase.start;
    relativeTime := 0;
    time := [];
    energy := [];
    for i := 0 to |data|
      invariant previousTime == PreviousTime(data, phase, i)
      invariant energy == EnergiesAt(data, KeptRows(data, phase, i))
      invariant relativeTime == Sum(GapsAt(data, phase, KeptRows(data, phase, i)))
      invariant time == RunningTotals(GapsAt(data, phase, KeptRows(data, phase, i)))
    {
      var t := data[i].timestamp;
      AppendRow(data, phase, KeptRows(data, phase, i), i);
      if phase.start <= t && t <= phase.end {
        if t - previousTime < MaxGap {
          assert KeptRows(data, phase, i + 1) == KeptRows(data, phase, i) + [i];
          relativeTime := relativeTime + (t - previousTime);
          time := time + [relativeTime];
          energy := energy + [data[i].energy];
          assert relativeTime == Sum(GapsAt(data, phase, KeptRows(data, phase, i + 1)));
          assert time == RunningTotals(GapsAt(data, phase, KeptRows(data, phase, i + 1)));
        } else {
          assert KeptRows(data, phase, i + 1) == KeptRows(data, phase, i);
        }
      } else {
          assert KeptRows(data, phase, i + 1) == KeptRows(data, phase, i);
      }
      previousTime := t;
    }
  }

  /** Appending a row to a selection appends its gap and its energy. */
  lemma AppendRow(data: seq<Row>, phase: Phase, rows: seq<nat>, i: nat)
    requires forall k :: 0 <= k < |rows| ==> rows[k] < |data|
    requires i < |data|
    ensures GapsAt(data, phase, rows + [i]) == GapsAt(data, phase, rows) + [Gap(data, phase, i)]
    ensures EnergiesAt(data, rows + [i]) == EnergiesAt(data, rows) + [data[i].energy]
    ensures RunningTotals(GapsAt(data, phase, rows) + [Gap(data, phase, i)]) ==
            RunningTotals(GapsAt(data, phase, rows)) + [Sum(GapsAt(data, phase, rows)) + Gap(data, phase, i)]
    ensures Sum(GapsAt(data, phase, rows) + [Gap(data, phase, i)]) == Sum(GapsAt(data, phase, rows)) + Gap(data, phase, i)
  {
  }

  // ---------------------------------------------------------------------------
  // Properties of the scan as written

  /** The scan keeps exactly the rows `Kept` describes, each once, in log order:
      a row in the phase whose gap from the row before it (the phase start for
      the first row) is below MaxGap. */
  lemma {:induction false} KeptRowsExact(data: seq<Row>, phase: Phase, n: nat)
    requires n <= |data|
    ensures forall i :: 0 <= i < n ==> (i in KeptRows(data, phase, n) <==> Kept(data, phase, i))
    ensures forall a, b :: 0 <= a < b < |KeptRows(data, phase, n)| ==>
              KeptRows(data, phase, n)[a] < KeptRows(data, phase, n)[b]
  {
    if n > 0 {
      KeptRowsExact(data, phase, n - 1);
    }
  }

  /** Every gap the scan adds is below MaxGap, and with non-decreasing
      timestamps none is negative. */
  lemma KeptGapsBounded(data: seq<Row>, phase: Phase)
    ensures forall g :: g in GapsAt(data, phase, KeptRows(data, phase, |data|)) ==> g < MaxGap
    ensures NonDecreasing(data) ==>
              forall g :: g in GapsAt(data, phase, KeptRows(data, phase, |data|)) ==> 0 <= g
  {
    var rows := KeptRows(data, phase, |data|);
    KeptRowsExact(data, phase, |data|);
    forall k | 0 <= k < |rows|
      ensures GapsAt(data, phase, rows)[k] < MaxGap
      ensures NonDecreasing(data) ==> 0 <= GapsAt(data, phase, rows)[k]
    {
      assert rows[k] in rows;
      assert Kept(data, phase, rows[k]);
    }
  }

  /** Running totals: one per entry, the first is the first entry, each next
      one adds the next entry, and the last one is the sum. */
  lemma {:induction false} RunningTotalsShape(xs: seq<int>)
    ensures |RunningTotals(xs)| == |xs|
    ensures xs != [] ==> RunningTotals(xs)[0] == xs[0] && RunningTotals(xs)[|xs| - 1] == Sum(xs)
    ensures forall k :: 0 < k < |xs| ==> RunningTotals(xs)[k] == RunningTotals(xs)[k - 1] + xs[k]
  {
    if xs != [] {
      var init := xs[..|xs| - 1];
      RunningTotalsShape(init);
      if init != [] {
        assert init[0] == xs[0];
        assert Sum(xs) == RunningTotals(init)[|init| - 1] + xs[|xs| - 1];
      } else {
        assert Sum(xs) == Sum(init) + xs[0];
      }
    }
  }

  /** The series of one phase: times and energies pair up, the first time is
      below MaxGap, consecutive times differ by less than MaxGap, the relative
      time is the last time (zero for an empty series), and with non-decreasing
      timestamps the times never decrease and never go below zero. */
  lemma SeriesShape(data: seq<Row>, phase: Phase)
    ensures var gaps := GapsAt(data, phase, KeptRows(data, phase, |data|));
            var time := RunningTotals(gaps);
            |time| == |EnergiesAt(data, KeptRows(data, phase, |data|))| &&
            (time == [] ==> Sum(gaps) == 0) &&
            (time != [] ==> time[0] < MaxGap && time[|time| - 1] == Sum(gaps)) &&
            (forall k :: 0 < k < |time| ==> time[k] - time[k - 1] < MaxGap) &&
            (NonDecreasing(data) ==>
               (time != [] ==> 0 <= time[0]) && forall k :: 0 < k < |time| ==> time[k - 1] <= time[k])
  {
    var gaps := GapsAt(data, phase, KeptRows(data, phase, |data|));
    RunningTotalsShape(gaps);
    KeptGapsBounded(data, phase);
    var time := RunningTotals(gaps);
    if gaps != [] {
      assert gaps[0] in gaps;
    }
    forall k | 0 < k < |time|
      ensures time[k] - time[k - 1] < MaxGap
      ensures NonDecreasing(data) ==> time[k - 1] <= time[k]
    {
      assert gaps[k] in gaps;
    }
  }

  // ---------------------------------------------------------------------------
  // The scan with previous_time advancing only on rows within the phase

  /** The time a phase-only scan measures row i's gap from: the timestamp of
      the last row before i that lies in the phase, or the phase start. */
  function PreviousInPhase(data: seq<Row>, phase: Phase, i: nat): int
    requires i <= |data|
  {
    if i == 0 then phase.start
    else if InPhase(phase, data[i - 1].timestamp) then data[i - 1].timestamp
    else PreviousInPhase(data, phase, i - 1)
  }

  function GapFromStart(data: seq<Row>, phase: Phase, i: nat): int
    requires i < |data|
  {
    data[i].timestamp - PreviousInPhase(data, phase, i)
  }

  predicate KeptFromStart(data: seq<Row>, phase: Phase, i: nat)
    requires i < |data|
  {
    InPhase(phase, data[i].timestamp) && GapFromStart(data, phase, i) < MaxGap
  }

  function KeptRowsFromStart(data: seq<Row>, phase: Phase, n: nat): (rows: seq<nat>)
    requires n <= |data|
    ensures forall k :: 0 <= k < |rows| ==> rows[k] < n
  {
    if n == 0 then []
    else KeptRowsFromStart(data, phase, n - 1) + (if KeptFromStart(data, phase, n - 1) then [n - 1] else [])
  }

  function GapsFromStartAt(data: seq<Row>, phase: Phase, rows: seq<nat>): (gaps: seq<int>)
    requires forall k :: 0 <= k < |rows| ==> rows[k] < |data|
    ensures |gaps| == |rows|
  {
    seq(|rows|, k requires 0 <= k < |rows| => GapFromStart(data, phase, rows[k]))
  }

  /** The scan with the gap measured from the phase start or the previous row
      within the phase, so that relative time begins at zero at the phase
      start. */
  method AggregatePhaseFromStart(data: seq<Row>, phase: Phase) returns (time: seq<int>, energy: seq<int>, relativeTime: int)
    ensures |time| == |energy| == |KeptRowsFromStart(data, phase, |data|)|
    ensures energy == EnergiesAt(data, KeptRowsFromStart(data, phase, |data|))
    ensures relativeTime == Sum(GapsFromStartAt(data, phase, KeptRowsFromStart(data, phase, |data|)))
    ensures time == RunningTotals(GapsFromStartAt(data, phase, KeptRowsFromStart(data, phase, |data|)))
  {
    var previousTime := phase.start;
    relativeTime := 0;
    time := [];
    energy := [];
    for i := 0 to |data|
      invariant previousTime == PreviousInPhase(data, phase, i)
      invariant energy == EnergiesAt(data, KeptRowsFromStart(data, phase, i))
      invariant relativeTime == Sum(GapsFromStartAt(data, phase, KeptRowsFromStart(data, phase, i)))
      invariant time == RunningTotals(GapsFromStartAt(data, phase, KeptRowsFromStart(data, phase, i)))
    {
      var t := data[i].timestamp;
      AppendRowFromStart(data, phase, KeptRowsFromStart(data, phase, i), i);
      if phase.start <= t && t <= phase.end {
        if t - previousTime < MaxGap {
          assert KeptRowsFromStart(data, phase, i + 1) == KeptRowsFromStart(data, phase, i) + [i];
          relativeTime := relativeTime + (t - previousTime);
          time := time + [relativeTime];
          energy := energy + [data[i].energy];
          assert relativeTime == Sum(GapsFromStartAt(data, phase, KeptRowsFromStart(data, phase, i + 1)));
          assert time == RunningTotals(GapsFromStartAt(data, phase, KeptRowsFromStart(data, phase, i + 1)));
        } else {
          assert KeptRowsFromStart(data, phase, i + 1) == KeptRowsFromStart(data, phase, i);
        }
        previousTime := t;
      } else {
        assert KeptRowsFromStart(data, phase, i + 1) == KeptRowsFromStart(data, phase, i);
      }
    }
  }

  lemma AppendRowFromStart(data: seq<Row>, phase: Phase, rows: seq<nat>, i: nat)
    requires forall k :: 0 <= k < |rows| ==> rows[k] < |data|
    requires i < |data|
    ensures GapsFromStartAt(data, phase, rows + [i]) == GapsFromStartAt(data, phase, rows) + [GapFromStart(data, phase, i)]
    ensures EnergiesAt(data, rows + [i]) == EnergiesAt(data, rows) + [data[i].energy]
    ensures RunningTotals(GapsFromStartAt(data, phase, rows) + [GapFromStart(data, phase, i)]) ==
            RunningTotals(GapsFromStartAt(data, phase, rows)) + [Sum(GapsFromStartAt(data, phase, rows)) + GapFromStart(data, phase, i)]
    ensures Sum(GapsFromStartAt(data, phase, rows) + [GapFromStart(data, phase, i)]) ==
            Sum(GapsFromStartAt(data, phase, rows)) + GapFromStart(data, phase, i)
  {
  }

  /** Before the first row within the phase nothing is kept and the gap is
      still measured from the phase start. */
  lemma {:induction false} NothingBeforePhase(data: seq<Row>, phase: Phase, n: nat)
    requires n <= |data|
    requires forall i :: 0 <= i < n ==> !InPhase(phase, data[i].timestamp)
    ensures PreviousInPhase(data, phase, n) == phase.start
    ensures KeptRowsFromStart(data, phase, n) == []
  {
    if n > 0 {
      NothingBeforePhase(data, phase, n - 1);
    }
  }

  /** Later scans only extend earlier ones. */
  lemma {:induction false} KeptRowsFromStartGrow(data: seq<Row>, phase: Phase, m: nat, n: nat)
    requires m <= n <= |data|
    ensures KeptRowsFromStart(data, phase, m) <= KeptRowsFromStart(data, phase, n)
  {
    if m < n {
      KeptRowsFromStartGrow(data, phase, m, n - 1);
    }
  }

  /** With non-decreasing timestamps, the first row within a phase that starts
      at row s's timestamp carries the phase start itself. */
  lemma FirstRowInPhase(data: seq<Row>, phase: Phase, s: nat) returns (j: nat)
    requires NonDecreasing(data)
    requires s < |data| && data[s].timestamp == phase.start <= phase.end
    ensures j <= s && data[j].timestamp == phase.start
    ensures forall i :: 0 <= i < j ==> !InPhase(phase, data[i].timestamp)
  {
    j := s;
    while j > 0 && InPhase(phase, data[j - 1].timestamp)
      invariant j <= s && InPhase(phase, data[j].timestamp)
    {
      j := j - 1;
    }
    forall i | 0 <= i < j
      ensures !InPhase(phase, data[i].timestamp)
    {
      assert data[i].timestamp <= data[j - 1].timestamp;
    }
    assert j == s || data[j].timestamp <= data[s].timestamp;
  }

  /** With non-decreasing timestamps and a phase that starts at a row of the
      log, the phase-only scan keeps the phase's first row with gap zero: the
      series is never empty and begins at relative time zero. */
  lemma FromStartBeginsAtZero(data: seq<Row>, phase: Phase, s: nat)
    requires NonDecreasing(data)
    requires s < |data| && data[s].timestamp == phase.start <= phase.end
    ensures KeptRowsFromStart(data, phase, |data|) != []
    ensures RunningTotals(GapsFromStartAt(data, phase, KeptRowsFromStart(data, phase, |data|)))[0] == 0
  {
    var j := FirstRowInPhase(data, phase, s);
    NothingBeforePhase(data, phase, j);
    assert KeptFromStart(data, phase, j) && GapFromStart(data, phase, j) == 0;
    assert KeptRowsFromStart(data, phase, j + 1) == [j];
    KeptRowsFromStartGrow(data, phase, j + 1, |data|);
    var rows := KeptRowsFromStart(data, phase, |data|);
    assert rows[0] == j;
    RunningTotalsShape(GapsFromStartAt(data, phase, rows));
  }

  /** Invariant of the phase-only scan: the relative time so far never exceeds
      the time from the phase start to the last row seen within the phase. */
  lemma {:induction false} FromStartElapsed(data: seq<Row>, phase: Phase, n: nat)
    requires NonDecreasing(data) && phase.start <= phase.end
    requires n <= |data|
    ensures phase.start <= PreviousInPhase(data, phase, n) <= phase.end
    ensures n > 0 ==> PreviousInPhase(data, phase, n) <= phase.start ||
                      PreviousInPhase(data, phase, n) <= data[n - 1].timestamp
    ensures Sum(GapsFromStartAt(data, phase, KeptRowsFromStart(data, phase, n))) <=
            PreviousInPhase(data, phase, n) - phase.start
  {
    if n > 0 {
      FromStartElapsed(data, phase, n - 1);
      var rows := KeptRowsFromStart(data, phase, n - 1);
      var before := PreviousInPhase(data, phase, n - 1);
      var t := data[n - 1].timestamp;
      // the row is not older than the time its gap is measured from
      assert InPhase(phase, t) ==> before <= t by {
        if n > 1 && before > phase.start {
          assert data[n - 2].timestamp <= t;
        }
      }
      if KeptFromStart(data, phase, n - 1) {
        AppendRowFromStart(data, phase, rows, n - 1);
        assert KeptRowsFromStart(data, phase, n) == rows + [n - 1];
      } else {
        assert KeptRowsFromStart(data, phase, n) == rows;
      }
      if !InPhase(phase, t) && n > 1 && before > phase.start {
        assert data[n - 2].timestamp <= t;
      }
    }
  }

  /** With non-decreasing timestamps the phase-only scan never reports more
      relative time than the phase lasts. */
  lemma FromStartDurationBound(data: seq<Row>, phase: Phase)
    requires NonDecreasing(data) && phase.start <= phase.end
    ensures Sum(GapsFromStartAt(data, phase, KeptRowsFromStart(data, phase, |data|))) <= phase.end - phase.start
  {
    FromStartElapsed(data, phase, |data|);
  }

  // ---------------------------------------------------------------------------
  // Summary statistics

  /** Duration in seconds, peak and trough energy of one phase. */
  datatype Summary = Summary(duration: int, peak: int, trough: int)

  function Max(xs: seq<int>): (m: int)
    requires xs != []
    ensures m in xs && forall x :: x in xs ==> x <= m
  {
    if |xs| == 1 then xs[0]
    else
      assert xs == [xs[0]] + xs[1..];
      var rest := Max(xs[1..]); if xs[0] >= rest then xs[0] else rest
  }

  function Min(xs: seq<int>): (m: int)
    requires xs != []
    ensures m in xs && forall x :: x in xs ==> m <= x
  {
    if |xs| == 1 then xs[0]
    else
      assert xs == [xs[0]] + xs[1..];
      var rest := Min(xs[1..]); if xs[0] <= rest then xs[0] else rest
  }

  /** The summary of phase `index`: its relative time and the largest and
      smallest energy kept. Without any energy the maximum and minimum do not
      exist and phase `index` fails with an empty series. */
  function Summarize(relativeTime: int, energy: seq<int>, index: nat): (r: Result<Summary>)
    ensures r.Err? <==> energy == []
    ensures r.Err? ==> r.error == EmptySeries(index)
    ensures r.Ok? ==> r.value.duration == relativeTime &&
                      r.value.peak in energy && r.value.trough in energy &&
                      forall e :: e in energy ==> r.value.trough <= e <= r.value.peak
  {
    if energy == [] then Err(EmptySeries(index))
    else Ok(Summary(relativeTime, Max(energy), Min(energy)))
  }
}
