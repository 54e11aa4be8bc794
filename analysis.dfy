/** The analysis run over a whole log: segment it into discharge phases, then
    scan and summarise every phase in order. Rendering, file output and console
    messages are left to the caller. */
module Analysis {
  import opened BatteryLog
  import opened Segmenter
  import opened Aggregator

  /** What a phase hands to the renderer: its relative times (seconds), its
      energies (raw units) and its summary. */
  datatype Report = Report(time: seq<int>, energy: seq<int>, summary: Summary)

  /** The scan of this phase keeps at least one sample. */
  predicate HasSamples(data: seq<Row>, phase: Phase) {
    KeptRows(data, phase, |data|) != []
  }

  /** The report of phase number `index`: its scan, summarised; it fails when
      the scan keeps no sample. */
  function PhaseReport(data: seq<Row>, phase: Phase, index: nat): (r: Result<Report>)
    ensures r.Ok? <==> HasSamples(data, phase)
    ensures r.Err? ==> r.error == EmptySeries(index)
    ensures r.Ok? ==> |r.value.time| == |r.value.energy| > 0 &&
                      r.value.summary.trough <= r.value.summary.peak &&
                      r.value.summary.peak in r.value.energy && r.value.summary.trough in r.value.energy
  {
    var rows := KeptRows(data, phase, |data|);
    var gaps := GapsAt(data, phase, rows);
    var energy := EnergiesAt(data, rows);
    match Summarize(Sum(gaps), energy, index)
    case Ok(summary) => Ok(Report(RunningTotals(gaps), energy, summary))
    case Err(e) => Err(e)
  }

  /** What the scan of phase number `index` returns, summarised, is that
      phase's report. */
  lemma ScanIsReport(data: seq<Row>, phase: Phase, index: nat, time: seq<int>, energy: seq<int>, relativeTime: int)
    requires energy == EnergiesAt(data, KeptRows(data, phase, |data|))
    requires relativeTime == Sum(GapsAt(data, phase, KeptRows(data, phase, |data|)))
    requires time == RunningTotals(GapsAt(data, phase, KeptRows(data, phase, |data|)))
    ensures PhaseReport(data, phase, index) ==
            match Summarize(relativeTime, energy, index)
            case Ok(summary) => Ok(Report(time, energy, summary))
            case Err(e) => Err(e)
  {
  }

  /** A report's duration is its last relative time. */
  lemma PhaseReportDuration(data: seq<Row>, phase: Phase, index: nat)
    requires PhaseReport(data, phase, index).Ok?
    ensures var report := PhaseReport(data, phase, index).value;
            report.summary.duration == report.time[|report.time| - 1]
  {
  }

  /** One pass of the per-phase loop: scan phase number `index` and summarise
      the scan. */
  method ReportPhase(data: seq<Row>, phase: Phase, index: nat) returns (r: Result<Report>)
    ensures r == PhaseReport(data, phase, index)
  {
    var time, energy, relativeTime := AggregatePhase(data, phase);
    var summary := Summarize(relativeTime, energy, index);
    ScanIsReport(data, phase, index, time, energy, relativeTime);
    if summary.Err? {
      return Err(summary.error);
    }
    return Ok(Report(time, energy, summary.value));
  }

  /** The per-phase loop of the analysis: every phase is scanned and
      summarised in order, and the first phase without any sample fails (its
      peak and trough do not exist). */
  method ReportPhases(data: seq<Row>, phases: seq<Phase>) returns (r: Result<seq<Report>>)
    ensures r.Ok? ==> |r.value| == |phases| &&
                      forall k :: 0 <= k < |phases| ==> PhaseReport(data, phases[k], k) == Ok(r.value[k])
    ensures r.Err? ==> r.error.EmptySeries? && r.error.phase < |phases| &&
                       PhaseReport(data, phases[r.error.phase], r.error.phase) == Err(r.error) &&
                       forall k :: 0 <= k < r.error.phase ==> PhaseReport(data, phases[k], k).Ok?
  {
    var reports: seq<Report> := [];
    for i := 0 to |phases|
      invariant |reports| == i
      invariant forall k :: 0 <= k < i ==> PhaseReport(data, phases[k], k) == Ok(reports[k])
    {
      var report := ReportPhase(data, phases[i], i);
      if report.Err? {
        return Err(report.error);
      }
      reports := reports + [report.value];
    }
    return Ok(reports);
  }

  /** The analysis of a log. An empty log fails on its first row; a log without
      discharge phases stops early; otherwise the phases are reported in order
      until the first one without any sample. */
  method Plot(data: seq<Row>) returns (r: Result<seq<Report>>)
    ensures |data| == 0 <==> r == Err(EmptyLog)
    ensures |data| > 0 && Segment(data) == [] <==> r == Err(NoPhases)
    ensures r.Ok? ==> |data| > 0 && |r.value| == |Segment(data)| > 0 &&
                      forall k :: 0 <= k < |r.value| ==> PhaseReport(data, Segment(data)[k], k) == Ok(r.value[k])
    ensures r.Err? && r.error.EmptySeries? ==>
              |data| > 0 && r.error.phase < |Segment(data)| && !HasSamples(data, Segment(data)[r.error.phase]) &&
              forall k :: 0 <= k < r.error.phase ==> HasSamples(data, Segment(data)[k])
  {
    var found := FindDischargePhases(data);
    if found.Err? {
      return Err(found.error);
    }
    var phases := found.value;
    if |phases| == 0 {
      return Err(NoPhases);
    }
    r := ReportPhases(data, phases);
  }

  /** With the gap measured from the phase start (or the previous row within
      the phase), every phase the segmenter finds in a log with non-decreasing
      timestamps has samples, its series begins at relative time zero, and its
      relative time never exceeds the phase's length. */
  lemma FromStartPhasesHaveSamples(data: seq<Row>)
    requires |data| > 0 && NonDecreasing(data)
    ensures forall k :: 0 <= k < |Segment(data)| ==>
              var phase := Segment(data)[k];
              var gaps := GapsFromStartAt(data, phase, KeptRowsFromStart(data, phase, |data|));
              gaps != [] && RunningTotals(gaps)[0] == 0 && Sum(gaps) <= phase.end - phase.start
  {
    PhasesOrdered(data);
    PhaseStartsAreDischargingRows(data);
    forall k | 0 <= k < |Segment(data)|
      ensures var phase := Segment(data)[k];
              var gaps := GapsFromStartAt(data, phase, KeptRowsFromStart(data, phase, |data|));
              gaps != [] && RunningTotals(gaps)[0] == 0 && Sum(gaps) <= phase.end - phase.start
    {
      var phase := Segment(data)[k];
      assert DischargingRowAt(data, phase.start);
      var s :| 0 <= s < |data| && data[s].status == Discharging && data[s].timestamp == phase.start;
      FromStartBeginsAtZero(data, phase, s);
      FromStartDurationBound(data, phase);
    }
  }
}
