/** The discharge-phase segmenter: a two-state machine run over the log rows in
    order, which emits a `[start, end]` pair for every discharge phase it
    closes. */
module Segmenter {
  import opened BatteryLog

  /** Idle, or inside a discharge phase that began at `start`. */
  datatype State = Idle | Open(start: int)

  /** The machine's state together with the phases emitted so far. */
  datatype Config = Config(state: State, phases: seq<Phase>)

  /** How a row is recognised as the first or the last one: `ByValue` compares
      the row with the log's first and last rows (what the analysis does),
      `ByPosition` looks at its index. */
  datatype RowFlags = ByValue | ByPosition

  predicate FirstFlag(data: seq<Row>, i: nat, how: RowFlags)
    requires i < |data|
  {
    match how
    case ByValue => data[i] == data[0]
    case ByPosition => i == 0
  }

  predicate LastFlag(data: seq<Row>, i: nat, how: RowFlags)
    requires i < |data|
  {
    match how
    case ByValue => data[i] == data[|data| - 1]
    case ByPosition => i == |data| - 1
  }

  /** The row the scan compares row i with: the first row is its own predecessor. */
  function PreviousRow(data: seq<Row>, i: nat): Row
    requires i < |data|
  {
    if i == 0 then data[0] else data[i - 1]
  }

  /** A phase opens when the charger is removed (Full, Charging or Unknown
      followed by Discharging), or when the first row is already Discharging. */
  predicate Opens(prev: Row, row: Row, first: bool) {
    row.status == Discharging &&
    (prev.status == Full || prev.status == Charging || prev.status == Unknown || first)
  }

  /** The charger was plugged in: Discharging followed by Charging or Full. */
  predicate PluggedIn(prev: Row, row: Row) {
    prev.status == Discharging && (row.status == Charging || row.status == Full)
  }

  /** The remaining energy went up: the device was switched off, charged and
      switched on again. */
  predicate EnergyRose(prev: Row, row: Row) {
    prev.energy < row.energy
  }

  /** One row of the state machine. While idle it only looks for an opening.
      While in a phase, a plug-in or an energy rise closes the phase at the
      previous row's timestamp; if the rise comes with a Discharging row, a new
      phase opens at once at this row (a split). Then, on the last row, a
      Discharging row closes the phase at its own timestamp (the flush). */
  function Step(c: Config, prev: Row, row: Row, first: bool, last: bool): (r: Config)
    // phases are only ever appended, at most two per row
    ensures c.phases <= r.phases && |r.phases| <= |c.phases| + 2
    // while idle nothing is emitted, and only a Discharging row opens a phase
    ensures c.state.Idle? ==> r.phases == c.phases
    ensures c.state.Idle? && r.state.Open? ==> row.status == Discharging && r.state.start == row.timestamp
    // a phase that opens or restarts here starts at this Discharging row
    ensures r.state.Open? && r != c ==> row.status == Discharging && r.state.start == row.timestamp
    // mid-log close: at the previous row's timestamp, never on a Discharging row
    ensures c.state.Open? && r.state.Idle? && !last ==>
              row.status != Discharging && r.phases == c.phases + [Phase(c.state.start, prev.timestamp)]
    // split: the old phase ends at the previous row, the next starts at this row
    ensures c.state.Open? && EnergyRose(prev, row) && row.status == Discharging ==>
              |r.phases| > |c.phases| && r.phases[|c.phases|] == Phase(c.state.start, prev.timestamp) &&
              if last then r == Config(Idle, c.phases + [Phase(c.state.start, prev.timestamp), Phase(row.timestamp, row.timestamp)])
              else r == Config(Open(row.timestamp), c.phases + [Phase(c.state.start, prev.timestamp)])
    // plug-in, or a rise on a row that is not Discharging: back to idle
    ensures c.state.Open? && (PluggedIn(prev, row) || EnergyRose(prev, row)) && row.status != Discharging ==>
              r == Config(Idle, c.phases + [Phase(c.state.start, prev.timestamp)])
    // flush: a Discharging last row ends the open phase at its own timestamp
    ensures c.state.Open? && last && row.status == Discharging ==>
              r.state.Idle? && |r.phases| > |c.phases| && r.phases[|r.phases| - 1].end == row.timestamp
    // nothing happens inside a phase without one of these events
    ensures c.state.Open? && !PluggedIn(prev, row) && !EnergyRose(prev, row) && !(last && row.status == Discharging) ==>
              r == c
  {
    match c.state
    case Idle =>
      if Opens(prev, row, first) then Config(Open(row.timestamp), c.phases) else c
    case Open(start) =>
      var mid :=
        if PluggedIn(prev, row) || EnergyRose(prev, row) then
          if EnergyRose(prev, row) && row.status == Discharging then
            Config(Open(row.timestamp), c.phases + [Phase(start, prev.timestamp)])
          else
            Config(Idle, c.phases + [Phase(start, prev.timestamp)])
        else c;
      if row.status == Discharging && last && mid.state.Open? then
        Config(Idle, mid.phases + [Phase(mid.state.start, row.timestamp)])
      else mid
  }

  /** The configuration after the first n rows, starting idle. */
  function Run(data: seq<Row>, n: nat, how: RowFlags): Config
    requires n <= |data|
  {
    if n == 0 then Config(Idle, [])
    else Step(Run(data, n - 1, how), PreviousRow(data, n - 1), data[n - 1],
              FirstFlag(data, n - 1, how), LastFlag(data, n - 1, how))
  }

  /** The phases the segmenter returns for a non-empty log. */
  function Segment(data: seq<Row>): seq<Phase>
    requires |data| > 0
  {
    Run(data, |data|, ByValue).phases
  }

  /** The same machine with first and last row recognised by position. */
  function SegmentByPosition(data: seq<Row>): seq<Phase>
    requires |data| > 0
  {
    Run(data, |data|, ByPosition).phases
  }

  /** Some Discharging row of the log carries timestamp t. */
  ghost predicate DischargingRowAt(data: seq<Row>, t: int) {
    exists i :: 0 <= i < |data| && data[i].status == Discharging && data[i].timestamp == t
  }

  /** The segmenter: a single pass over the rows that keeps a `discharging`
      flag, the start of the open phase and the previous row, and appends to
      the list of phases. An empty log fails on reading its first row. */
  method FindDischargePhases(data: seq<Row>) returns (r: Result<seq<Phase>>)
    ensures |data| == 0 <==> r.Err?
    ensures r.Err? ==> r.error == EmptyLog
    ensures r.Ok? ==> r.value == Segment(data)
  {
    if |data| == 0 {
      return Err(EmptyLog);
    }
    var transitions: seq<Phase> := [];
    var previousRow := data[0];
    var discharging := false;
    var startTime := 0;
    for i := 0 to |data|
      invariant previousRow == (if i == 0 then data[0] else data[i - 1])
      invariant Run(data, i, ByValue) == Config(if discharging then Open(startTime) else Idle, transitions)
    {
      var row := data[i];
      var firstRow := data[0] == row;
      var lastRow := data[|data| - 1] == row;
      if !discharging {
        if (previousRow.status == Full && row.status == Discharging) ||
           (previousRow.status == Charging && row.status == Discharging) ||
           (previousRow.status == Unknown && row.status == Discharging) ||
           (row.status == Discharging && firstRow)
        {
          discharging := true;
          startTime := row.timestamp;
        }
      } else {
        if (previousRow.status == Discharging && row.status == Charging) ||
           (previousRow.status == Discharging && row.status == Full) ||
           previousRow.energy < row.energy
        {
          if previousRow.energy < row.energy && row.status == Discharging {
            transitions := transitions + [Phase(startTime, previousRow.timestamp)];
            startTime := row.timestamp;
            discharging := true;
          } else {
            discharging := false;
            transitions := transitions + [Phase(startTime, previousRow.timestamp)];
          }
        }
        if row.status == Discharging && lastRow {
          discharging := false;
          transitions := transitions + [Phase(startTime, row.timestamp)];
        }
      }
      previousRow := row;
    }
    return Ok(transitions);
  }

  // ---------------------------------------------------------------------------
  // Invariants of the run, by induction on the number of rows processed

  /** Each row emits at most one phase more than it opens: together with the
      open phase, never more phases than rows. */
  lemma {:induction false} RunCount(data: seq<Row>, n: nat, how: RowFlags)
    requires n <= |data|
    ensures |Run(data, n, how).phases| + (if Run(data, n, how).state.Open? then 1 else 0) <= n
  {
    if n > 0 {
      RunCount(data, n - 1, how);
    }
  }

  /** Every phase, emitted or open, starts at the timestamp of a Discharging row. */
  lemma {:induction false} RunStarts(data: seq<Row>, n: nat, how: RowFlags)
    requires n <= |data|
    ensures forall k :: 0 <= k < |Run(data, n, how).phases| ==> DischargingRowAt(data, Run(data, n, how).phases[k].start)
    ensures Run(data, n, how).state.Open? ==> DischargingRowAt(data, Run(data, n, how).state.start)
  {
    if n > 0 {
      RunStarts(data, n - 1, how);
      var c := Run(data, n - 1, how);
      var r := Run(data, n, how);
      if r.state.Open? && r != c {
        assert data[n - 1].status == Discharging && data[n - 1].timestamp == r.state.start;
      }
      forall k | 0 <= k < |r.phases|
        ensures DischargingRowAt(data, r.phases[k].start)
      {
        if k >= |c.phases| {
          assert c.state.Open?;
          if r.phases[k].start != c.state.start {
            assert data[n - 1].status == Discharging && data[n - 1].timestamp == r.phases[k].start;
          }
        } else {
          assert r.phases[k] == c.phases[k];
        }
      }
    }
  }

  /** When the log starts Discharging, the machine stays in the phase opened at
      the first row until it emits that phase first. */
  lemma {:induction false} RunFirst(data: seq<Row>, n: nat)
    requires 0 < n <= |data|
    requires data[0].status == Discharging
    ensures var c := Run(data, n, ByValue);
            (c.phases == [] ==> c.state == Open(data[0].timestamp)) &&
            (c.phases != [] ==> c.phases[0].start == data[0].timestamp)
  {
    if n > 1 {
      RunFirst(data, n - 1);
      var c := Run(data, n - 1, ByValue);
      if c.phases != [] {
        assert Run(data, n, ByValue).phases[0] == c.phases[0];
      }
    }
  }

  /** The emitted phases are well formed and in order, none ends after time t,
      and the open phase, if any, starts at or before t and after every
      emitted end. */
  predicate OrderedUpTo(c: Config, t: int) {
    (forall k :: 0 <= k < |c.phases| ==> c.phases[k].start <= c.phases[k].end <= t) &&
    (forall k :: 0 < k < |c.phases| ==> c.phases[k - 1].end <= c.phases[k].start) &&
    (c.state.Open? ==> c.state.start <= t) &&
    (c.state.Open? && c.phases != [] ==> c.phases[|c.phases| - 1].end <= c.state.start)
  }

  /** One row keeps the phases ordered when it is not older than its predecessor. */
  lemma StepOrdered(c: Config, prev: Row, row: Row, first: bool, last: bool)
    requires OrderedUpTo(c, prev.timestamp) && prev.timestamp <= row.timestamp
    ensures OrderedUpTo(Step(c, prev, row, first, last), row.timestamp)
  {
  }

  /** With non-decreasing timestamps the run stays ordered up to the last row
      processed. */
  lemma {:induction false} RunOrdered(data: seq<Row>, n: nat, how: RowFlags)
    requires 0 < n <= |data|
    requires NonDecreasing(data)
    ensures OrderedUpTo(Run(data, n, how), data[n - 1].timestamp)
  {
    if n == 1 {
      StepOrdered(Config(Idle, []), data[0], data[0], FirstFlag(data, 0, how), LastFlag(data, 0, how));
    } else {
      RunOrdered(data, n - 1, how);
      StepOrdered(Run(data, n - 1, how), data[n - 2], data[n - 1], FirstFlag(data, n - 1, how), LastFlag(data, n - 1, how));
    }
  }

  /** On a log whose rows are pairwise different, recognising the first and
      last row by value or by position makes no difference. */
  lemma {:induction false} RunFlagsAgree(data: seq<Row>, n: nat)
    requires n <= |data|
    requires forall i, j :: 0 <= i < j < |data| ==> data[i] != data[j]
    ensures Run(data, n, ByValue) == Run(data, n, ByPosition)
  {
    if n > 0 {
      RunFlagsAgree(data, n - 1);
      assert FirstFlag(data, n - 1, ByValue) == FirstFlag(data, n - 1, ByPosition);
      assert LastFlag(data, n - 1, ByValue) == LastFlag(data, n - 1, ByPosition);
    }
  }

  // ---------------------------------------------------------------------------
  // Properties of the segmenter's output

  /** At most one phase per row. */
  lemma PhaseCountBound(data: seq<Row>)
    requires |data| > 0
    ensures |Segment(data)| <= |data|
  {
    RunCount(data, |data|, ByValue);
  }

  /** Every phase starts at the timestamp of a Discharging row. */
  lemma PhaseStartsAreDischargingRows(data: seq<Row>)
    requires |data| > 0
    ensures forall k :: 0 <= k < |Segment(data)| ==> DischargingRowAt(data, Segment(data)[k].start)
  {
    RunStarts(data, |data|, ByValue);
  }

  /** A log that starts Discharging has its first phase start at the first row. */
  lemma FirstPhaseStartsAtFirstRow(data: seq<Row>)
    requires |data| > 0 && data[0].status == Discharging
    ensures Segment(data) != [] ==> Segment(data)[0].start == data[0].timestamp
  {
    RunFirst(data, |data|);
  }

  /** With non-decreasing timestamps the phases are well formed, ordered and
      never overlap (adjacent ones may share a timestamp), and lie within the
      log's time span. */
  lemma PhasesOrdered(data: seq<Row>)
    requires |data| > 0 && NonDecreasing(data)
    ensures forall k :: 0 <= k < |Segment(data)| ==>
              data[0].timestamp <= Segment(data)[k].start <= Segment(data)[k].end <= data[|data| - 1].timestamp
    ensures forall k :: 0 < k < |Segment(data)| ==> Segment(data)[k - 1].end <= Segment(data)[k].start
  {
    RunOrdered(data, |data|, ByValue);
    RunStarts(data, |data|, ByValue);
    forall k | 0 <= k < |Segment(data)|
      ensures data[0].timestamp <= Segment(data)[k].start
    {
      assert DischargingRowAt(data, Segment(data)[k].start);
      var i :| 0 <= i < |data| && data[i].status == Discharging && data[i].timestamp == Segment(data)[k].start;
      assert i == 0 || data[0].timestamp <= data[i].timestamp;
    }
  }

  /** End of the log. If a phase is open when the last row arrives and that row
      is Discharging, the output ends with a phase closed at the last row's own
      timestamp. If the machine is idle when the last row arrives, the last row
      emits nothing: a phase opened there is never reported. */
  lemma LastRowFlush(data: seq<Row>)
    requires |data| > 0
    ensures var before := Run(data, |data| - 1, ByValue);
            (before.state.Open? && data[|data| - 1].status == Discharging ==>
               Segment(data) != [] && Segment(data)[|Segment(data)| - 1].end == data[|data| - 1].timestamp &&
               Run(data, |data|, ByValue).state.Idle?) &&
            (before.state.Idle? ==> Segment(data) == before.phases)
  {
  }

  /** A phase still open after the last row is never reported: it was opened on
      the last row, or the last row is not Discharging; either way the last
      row emitted nothing. */
  lemma OpenAtEndIsDropped(data: seq<Row>)
    requires |data| > 0
    requires Run(data, |data|, ByValue).state.Open?
    ensures Segment(data) == Run(data, |data| - 1, ByValue).phases
    ensures Run(data, |data| - 1, ByValue).state.Idle? || data[|data| - 1].status != Discharging
  {
  }

  /** On a log of pairwise different rows, the value comparisons that detect
      the first and last row give the same phases as index positions would. */
  lemma PositionFlagsAgree(data: seq<Row>)
    requires |data| > 0
    requires forall i, j :: 0 <= i < j < |data| ==> data[i] != data[j]
    ensures Segment(data) == SegmentByPosition(data)
  {
    RunFlagsAgree(data, |data|);
  }
}
