/** Small logs worked through the model: what the segmenter and the scan give
    for them, row by row. */
module Scenarios {
  import opened BatteryLog
  import opened Segmenter
  import opened Aggregator

  function R(t: int, s: Status, e: int): Row {
    Row(t, s, e, [])
  }

  /** Charger removed at t = 10 and plugged in again at t = 20: the phase is
      closed at the previous row, t = 10, not at the row that ends it. */
  lemma ChargerRemovedThenPluggedIn()
    ensures var data := [R(0, Full, 100), R(10, Discharging, 100), R(20, Charging, 90)];
            Segment(data) == [Phase(10, 10)]
  {
    var data := [R(0, Full, 100), R(10, Discharging, 100), R(20, Charging, 90)];
    assert Run(data, 1, ByValue) == Config(Idle, []);
    assert Run(data, 2, ByValue) == Config(Open(10), []);
  }

  /** A log that starts while already discharging opens its phase at the
      first row. */
  lemma LogStartsDischarging()
    ensures var data := [R(0, Discharging, 100), R(10, Discharging, 90), R(20, Charging, 85)];
            Segment(data) == [Phase(0, 10)]
  {
    var data := [R(0, Discharging, 100), R(10, Discharging, 90), R(20, Charging, 85)];
    assert Run(data, 1, ByValue) == Config(Open(0), []);
    assert Run(data, 2, ByValue) == Config(Open(0), []);
  }

  /** An energy rise on a Discharging row splits the phase: the first part
      ends at the previous row (t = 0), the second starts at the rising row
      and is flushed at the last row. */
  lemma EnergyRiseSplits()
    ensures var data := [R(0, Discharging, 50), R(10, Discharging, 80), R(20, Discharging, 70)];
            Segment(data) == [Phase(0, 0), Phase(10, 20)]
  {
    var data := [R(0, Discharging, 50), R(10, Discharging, 80), R(20, Discharging, 70)];
    assert Run(data, 1, ByValue) == Config(Open(0), []);
    assert Run(data, 2, ByValue) == Config(Open(10), [Phase(0, 0)]);
  }

  /** A row that follows a 200 s logging gap is dropped, and the gap does not
      count towards the relative time; the row after it is kept again. */
  lemma GapDropsSample()
    ensures var data := [R(0, Discharging, 100), R(10, Discharging, 90), R(210, Discharging, 80), R(220, Discharging, 70)];
            var rows := KeptRows(data, Phase(0, 220), 4);
            Segment(data) == [Phase(0, 220)] &&
            rows == [0, 1, 3] &&
            EnergiesAt(data, rows) == [100, 90, 70] &&
            RunningTotals(GapsAt(data, Phase(0, 220), rows)) == [0, 10, 20] &&
            Sum(GapsAt(data, Phase(0, 220), rows)) == 20
  {
    var data := [R(0, Discharging, 100), R(10, Discharging, 90), R(210, Discharging, 80), R(220, Discharging, 70)];
    var phase := Phase(0, 220);
    assert Run(data, 1, ByValue) == Config(Open(0), []);
    assert Run(data, 2, ByValue) == Config(Open(0), []);
    assert Run(data, 3, ByValue) == Config(Open(0), []);
    assert KeptRows(data, phase, 2) == [0, 1];
    assert KeptRows(data, phase, 3) == [0, 1];
    assert KeptRows(data, phase, 4) == [0, 1, 3];
    var gaps := GapsAt(data, phase, [0, 1, 3]);
    assert gaps == [0, 10, 10];
    RunningTotalsShape(gaps);
  }

  /** First-row detection compares whole rows: a later copy of the first row,
      met while idle, opens a phase as the first row would, which position
      based detection does not do. */
  lemma CopyOfFirstRowReopens()
    ensures var data := [R(0, Discharging, 50), R(0, Other("Not charging"), 60), R(0, Discharging, 50), R(10, Discharging, 40)];
            Segment(data) == [Phase(0, 0), Phase(0, 10)] &&
            SegmentByPosition(data) == [Phase(0, 0)]
  {
    var data := [R(0, Discharging, 50), R(0, Other("Not charging"), 60), R(0, Discharging, 50), R(10, Discharging, 40)];
    assert Run(data, 1, ByValue) == Config(Open(0), []);
    assert Run(data, 2, ByValue) == Config(Idle, [Phase(0, 0)]);
    assert Run(data, 3, ByValue) == Config(Open(0), [Phase(0, 0)]);
    assert Run(data, 1, ByPosition) == Config(Open(0), []);
    assert Run(data, 2, ByPosition) == Config(Idle, [Phase(0, 0)]);
    assert Run(data, 3, ByPosition) == Config(Idle, [Phase(0, 0)]);
  }

  /** Last-row detection compares whole rows too: an earlier copy of the last
      row flushes the open phase where it stands, mid-log, and leaves the
      machine idle for the real last row. Position-based detection keeps the
      phase open until the real last row; here both end with the same phase. */
  lemma CopyOfLastRowFlushes()
    ensures var data := [R(0, Discharging, 50), R(10, Discharging, 40), R(10, Discharging, 40)];
            Run(data, 2, ByValue) == Config(Idle, [Phase(0, 10)]) &&
            Run(data, 2, ByPosition) == Config(Open(0), []) &&
            Segment(data) == [Phase(0, 10)] &&
            SegmentByPosition(data) == [Phase(0, 10)]
  {
    var data := [R(0, Discharging, 50), R(10, Discharging, 40), R(10, Discharging, 40)];
    assert Run(data, 1, ByValue) == Config(Open(0), []);
    assert Run(data, 2, ByValue) == Config(Idle, [Phase(0, 10)]);
    assert Run(data, 1, ByPosition) == Config(Open(0), []);
    assert Run(data, 2, ByPosition) == Config(Open(0), []);
  }

  /** The scan as written measures the first sample of a phase from the row
      before the phase: for the phase [10, 10] found above, the only sample
      sits at relative time 10 and the phase's relative time is 10 s, though
      the phase lasts 0 s. Measured from the phase start it sits at 0. */
  lemma FirstSampleNotAtZero()
    ensures var data := [R(0, Full, 100), R(10, Discharging, 100), R(20, Charging, 90)];
            var phase := Phase(10, 10);
            Segment(data) == [phase] &&
            RunningTotals(GapsAt(data, phase, KeptRows(data, phase, 3))) == [10] &&
            Sum(GapsAt(data, phase, KeptRows(data, phase, 3))) > phase.end - phase.start &&
            RunningTotals(GapsFromStartAt(data, phase, KeptRowsFromStart(data, phase, 3))) == [0]
  {
    var data := [R(0, Full, 100), R(10, Discharging, 100), R(20, Charging, 90)];
    var phase := Phase(10, 10);
    assert KeptRows(data, phase, 3) == [1];
    assert GapsAt(data, phase, [1]) == [10];
    RunningTotalsShape([10]);
    assert KeptRowsFromStart(data, phase, 3) == [1];
    assert GapsFromStartAt(data, phase, [1]) == [0];
    RunningTotalsShape([0]);
  }

  /** The scan as written can keep no sample at all: the charger is removed
      right after a 200 s logging gap and plugged in again at the next row, so
      the phase [200, 200] has one row, whose gap from the row before the
      phase is 200 s. Its energy list is empty and its peak and trough do not
      exist. Measured from the phase start, that row is kept. */
  lemma PhaseWithoutSamples()
    ensures var data := [R(0, Full, 100), R(200, Discharging, 100), R(210, Charging, 100)];
            var phase := Phase(200, 200);
            Segment(data) == [phase] &&
            KeptRows(data, phase, 3) == [] &&
            KeptRowsFromStart(data, phase, 3) == [1]
  {
  }
}
