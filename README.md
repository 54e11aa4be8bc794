# simple-battery-log: discharge-phase analysis in Dafny

This project models the analysis core of `plot.py`, a script that reads a
battery log and plots its discharge phases. Each log row carries a unix
timestamp, a status (`Discharging`, `Charging`, `Full`, `Unknown` or any other
string) and the remaining energy in µWh. The script does two things:

- **Segmenter** (`battery_plot.__find_discharge_phase`): a two-state machine,
  idle or inside a phase. It runs over the rows in order and emits
  `[start, end]` timestamp pairs. A phase opens when the charger is removed, or
  at the first row if that row is already `Discharging`. It closes at the
  previous row's timestamp when the charger is plugged in or the energy rises.
  An energy rise on a `Discharging` row splits the phase in two. On the last
  row, a `Discharging` row closes the open phase at its own timestamp.
- **Aggregator** (the per-phase loop of `battery_plot.plot`): for one phase it
  scans all rows and keeps the rows inside the phase whose gap from the
  previous row is below 120 s. It sums those gaps into a relative time and
  collects (relative time, energy) samples. The phase summary is that time
  plus the peak and trough energy.

Files:

- `records.dfy` (module `BatteryLog`): rows, statuses, phases and error outcomes.
- `segmenter.dfy` (module `Segmenter`): the state machine as a function `Step`
  and its run `Run`/`Segment`. `FindDischargePhases` is the loop that keeps a
  `discharging` flag and is proved equal to `Segment`. Lemmas cover the output.
- `aggregator.dfy` (module `Aggregator`): the scan as a method with loop
  invariants, specified by the closed-form predicate `Kept` over row indices.
  It also holds a corrected scan (see Findings) and the summary (`Max`, `Min`,
  `Summarize`).
- `analysis.dfy` (module `Analysis`): the outer loop of `plot`, which segments,
  stops when there is no phase, and scans and summarises each phase.
- `scenarios.dfy` (module `Scenarios`): small logs worked through the model.

Times stay in integer seconds and energies in raw integer units. First and
last row are detected the way the script does it: by comparing whole rows
with the log's first and last row, not by position. `Row` therefore keeps the
columns the analysis ignores, so that row equality matches list equality in
the script. `SegmentByPosition` runs the same machine with index-based flags,
and `PositionFlagsAgree` proves both give the same phases when the rows are
pairwise different.

Behaviours of the code a reader may not expect:

- An empty log makes the segmenter fail when it reads the first row
  (`Err(EmptyLog)`).
- A plug-in closes the phase at the previous row's timestamp. The log
  `(0, Full), (10, Discharging), (20, Charging)` gives `[10, 10]`: the phase
  ends at the previous row, not at the plug-in row
  (`Scenarios.ChargerRemovedThenPluggedIn`).
- An energy rise on a `Discharging` row splits the phase at that row. The
  log `(0, D, 50), (10, D, 80), (20, D, 70)` gives `[0, 0], [10, 20]`
  (`Scenarios.EnergyRiseSplits`). A log whose energy keeps rising while
  `Discharging` therefore splits at every row.
- The flush at the last row sits in the branch for an already open phase. A
  phase opened on the last row is never reported, so a `Discharging` last row
  does not always end the last reported phase (`Segmenter.LastRowFlush`).

## Model

| member | source | states |
|---|---|---|
| `Segmenter.Step` | plot.py:41-89 | Phases are only appended, at most two per row. Nothing is emitted while idle, and only a `Discharging` row opens a phase, at its own timestamp. A mid-log close ends the phase at the previous row's timestamp and never happens on a `Discharging` row. A rise on a `Discharging` row splits: the old phase ends at the previous row and the next starts at this row. A plug-in, or a rise with another status, returns to idle. A `Discharging` last row ends an open phase at its own timestamp. Without an event an open phase stays unchanged. |
| `Segmenter.FindDischargePhases` | plot.py:28-93 | The flag-based loop fails exactly on an empty log (reading the first row). Otherwise it returns exactly the phases of the state machine `Segment`, with first/last row detected by value. |
| `Segmenter.PhaseCountBound` | plot.py:35-89 | A log yields at most as many phases as it has rows. |
| `Segmenter.PhaseStartsAreDischargingRows` | plot.py:50-76 | Every phase starts at the timestamp of a `Discharging` row of the log. |
| `Segmenter.FirstPhaseStartsAtFirstRow` | plot.py:50-56 | If the first row is `Discharging`, the first phase (if any) starts at the first row's timestamp. |
| `Segmenter.PhasesOrdered` | plot.py:56-89 | With non-decreasing timestamps, each phase has start <= end, lies within the log's first and last timestamps, and ends no later than the next phase starts (adjacent phases may share a timestamp, never overlap). |
| `Segmenter.LastRowFlush` | plot.py:84-89 | If a phase is open when the last row arrives and that row is `Discharging`, the output ends with a phase ending at the last row's timestamp and the machine ends idle. If the machine is idle when the last row arrives, the last row adds no phase, so a phase opened there is dropped. |
| `Segmenter.OpenAtEndIsDropped` | plot.py:58-89 | A phase still open after the last row is never reported. It was opened on the last row, or the last row is not `Discharging`. |
| `Segmenter.PositionFlagsAgree` | plot.py:38-39 | On a log of pairwise different rows, detecting the first and last row by value gives the same phases as detecting them by index. |
| `Aggregator.AggregatePhase` | plot.py:134-149 | The scan returns exactly the rows `Kept` selects, in log order. A row is kept when it lies in the phase and its gap from the preceding row (the phase start for the first row) is below 120 s. It returns their energies, the running totals of their gaps as times, and the sum of those gaps as relative time; times and energies have equal length. |
| `Aggregator.KeptRowsExact` | plot.py:142-149 | A row index is among the kept rows if and only if `Kept` holds for it, and kept indices are strictly increasing. A dropped row adds no sample and no time, but the next gap is still measured from it. |
| `Aggregator.KeptGapsBounded` | plot.py:143-145 | Every gap added to the relative time is below 120 s, and with non-decreasing timestamps none is negative. |
| `Aggregator.SeriesShape` | plot.py:145-147 | Times and energies pair up. The relative time is the last time, or 0 for an empty series. The first time is below 120 s and consecutive times differ by less than 120 s. With non-decreasing timestamps the times are non-negative and non-decreasing. |
| `Aggregator.Max` | plot.py:153 | The peak is an element of the non-empty energy list and no element exceeds it. |
| `Aggregator.Min` | plot.py:153 | The trough is an element of the non-empty energy list and no element is below it. |
| `Aggregator.Summarize` | plot.py:152-153 | The summary fails with `EmptySeries` exactly when the energy list is empty. Otherwise its duration is the relative time, and peak and trough are elements of the list that bound every element. |
| `Aggregator.AggregatePhaseFromStart` | plot.py:134-149 | Corrected scan (Findings): `previous_time` advances only on rows within the phase. It returns the rows `KeptFromStart` selects, with their energies, running totals and sum of gaps. |
| `Aggregator.FromStartBeginsAtZero` | plot.py:134-135 | With non-decreasing timestamps and a phase that starts at a row's timestamp, the corrected scan keeps at least one row and its first time is 0. |
| `Aggregator.FromStartDurationBound` | plot.py:135-145 | With non-decreasing timestamps, the corrected scan's relative time never exceeds `end - start` of the phase. |
| `Analysis.PhaseReport` | plot.py:145-153 | A phase's report exists exactly when its scan keeps a sample; otherwise it fails with `EmptySeries` for that phase. A report has equally long, non-empty time and energy series, and peak >= trough, both taken from its energies. |
| `Analysis.PhaseReportDuration` | plot.py:145-152 | A report's duration is its last relative time. |
| `Analysis.ReportPhase` | plot.py:130-153 | One pass of the per-phase loop: scanning the phase with `AggregatePhase` and summarising it gives exactly `PhaseReport`. |
| `Analysis.ReportPhases` | plot.py:129-153 | The loop reports the phases in order. It succeeds with one report per phase when every phase has one. Otherwise it fails with `EmptySeries(k)`, where k is the first phase without a sample. |
| `Analysis.Plot` | plot.py:121-153 | An empty log fails with `EmptyLog`, exactly. A log without phases stops with `NoPhases`, exactly. Otherwise every phase of `Segment` is reported in order. The run fails with `EmptySeries(k)` only when phase k keeps no sample and every earlier phase keeps one. |
| `Analysis.FromStartPhasesHaveSamples` | plot.py:134-153 | With the corrected scan, every phase found in a log with non-decreasing timestamps has a sample. Its series starts at relative time 0, and its relative time is at most the phase's length. |
| `Scenarios.ChargerRemovedThenPluggedIn` | plot.py:67-82 | `(0, Full), (10, Discharging), (20, Charging)` yields the single phase `[10, 10]`. |
| `Scenarios.LogStartsDischarging` | plot.py:50-82 | A log starting `Discharging` at t = 0 and plugged in at t = 20 yields `[0, 10]`. |
| `Scenarios.EnergyRiseSplits` | plot.py:67-89 | A rise at t = 10 while `Discharging` splits the log into `[0, 0]` and `[10, 20]`, the second flushed at the last row. |
| `Scenarios.GapDropsSample` | plot.py:142-149 | The segmenter finds the single phase `[0, 220]` in this log. In it the row after a 200 s gap is dropped. The next row is kept, times are `[0, 10, 20]` and the relative time is 20 s. |
| `Scenarios.CopyOfFirstRowReopens` | plot.py:38-56 | A later copy of the first row, met while idle, opens a phase by value comparison but not by position: `[0, 0], [0, 10]` against `[0, 0]`. |
| `Scenarios.CopyOfLastRowFlushes` | plot.py:39-89 | In `(0, D, 50), (10, D, 40), (10, D, 40)` the copy of the last row at index 1 flushes `[0, 10]` by value comparison and leaves the machine idle; by position the phase stays open until index 2. Both end with `[0, 10]`. |
| `Scenarios.FirstSampleNotAtZero` | plot.py:134-149 | For phase `[10, 10]` the as-written scan puts the only sample at relative time 10, longer than the phase. The corrected scan puts it at 0. |
| `Scenarios.PhaseWithoutSamples` | plot.py:134-153 | The log `(0, Full), (200, Discharging), (210, Charging)` yields phase `[200, 200]`. The as-written scan keeps no row of it, while the corrected scan keeps its row. |

## Findings

| source | as written | input that shows it | evidently intended | confidence | as-written member | corrected member |
|---|---|---|---|---|---|---|
| plot.py:134-149 | `previous_time` takes every row's timestamp (line 149), rows before the phase included. The first sample's gap is therefore measured from the row before the phase, not from the phase start. | `(0, Full, 100), (10, Discharging, 100), (20, Charging, 90)`: phase `[10, 10]`, only sample at relative time 10 s, total 10 s for a phase of 0 s | relative time begins at 0 when the phase begins (comment on line 135); `previous_time` should advance only on rows inside the phase | medium; not executed | `Scenarios.FirstSampleNotAtZero` | `Aggregator.FromStartBeginsAtZero` |
| plot.py:143-153 | A phase whose rows all follow a gap of 120 s or more from the row before keeps no sample. `max(energy)` on line 153 then raises and ends the run. | `(0, Full, 100), (200, Discharging, 100), (210, Charging, 100)`: phase `[200, 200]`, energy list empty | every phase found has at least one sample to summarise: `max(energy)` and `min(energy)` on line 153 and `max(time)` on line 159 assume a non-empty series | medium; not executed | `Scenarios.PhaseWithoutSamples` | `Analysis.FromStartPhasesHaveSamples` |

`Analysis.Plot` follows the script as written and uses `AggregatePhase`, so its
`EmptySeries` outcome is reachable. `AggregatePhaseFromStart` is the corrected
scan, and the two corrected lemmas are proved about it.

## Left out

- Reading the CSV file (`__read_file`) and parsing its fields: rows arrive as typed records. The reader maps the strings `Discharging`, `Charging`, `Full` and `Unknown` to their constructors and keeps any other status as `Other`.
- Row equality compares parsed integers. Two rows whose timestamp or energy texts differ but parse to the same number (`010` and `10`) are equal here but different in the script.
- Unit conversions (`/60`, `/1e6`, `/3600`) and the two-decimal formatting: floating-point presentation only. Times stay in seconds and energies in raw units.
- Chart drawing, tick computation and image output with matplotlib/numpy: foreign library calls. When a later phase fails with `EmptySeries`, the images of earlier phases have already been written; the model does not represent files.
- Console messages and the exit codes of `plot` and `main`. `NoPhases` stands for the early `return 1` when no phase is found.
- `start_time` is unbound in the script until the first phase opens, and it is never read before that. The loop starts it at 0.
