/** The values the battery log analysis works on: log rows as the CSV reader
    delivers them (already converted to integers), discharge phases, and the
    error outcomes of the analysis. */
module BatteryLog {

  /** The `status` column. The four strings the analysis compares against get
      their own constructor; any other string is kept verbatim. `Other` never
      carries one of those four names (`Other("Full")` is not a status the
      reader produces), so comparing constructors here is comparing strings in
      the script. */
  datatype Status = Discharging | Charging | Full | Unknown | Other(text: string)

  /** One log row: column 0 (unix time in seconds), column 1 (status), column 3
      (remaining energy in raw units, µWh) and every other column of the row,
      which the analysis ignores but which take part in row equality. */
  datatype Row = Row(timestamp: int, status: Status, energy: int, otherColumns: seq<string>)

  /** A discharge phase `[start, end]`, both unix timestamps. */
  datatype Phase = Phase(start: int, end: int)

  /** Why an analysis run produced no result:
      - EmptyLog: the log has no row, and reading its first row fails;
      - NoPhases: no discharge phase was found (the run stops with status 1);
      - EmptySeries(i): phase i kept no sample, so the peak and trough energy
        (maximum and minimum of an empty list) cannot be taken. */
  datatype Error = EmptyLog | NoPhases | EmptySeries(phase: nat)

  datatype Result<T> = Ok(value: T) | Err(error: Error)

  /** Largest gap in seconds between two rows that still counts as continuous. */
  const MaxGap: int := 120

  /** Timestamps never go backwards along the log. */
  predicate NonDecreasing(data: seq<Row>) {
    forall i, j :: 0 <= i < j < |data| ==> data[i].timestamp <= data[j].timestamp
  }
}
