/** Rows of the control tables: collection runs, collection targets and collector errors. */
module Tables {
  import opened Lists

  datatype RunStatus = Pending | Running | Success | Failed | Partial

  /** A run's id is its position in the table. */
  datatype Run = Run(
    collector: string, moduleName: Option<string>, source: Option<string>, status: RunStatus,
    startedAt: Option<int>, finishedAt: Option<int>)

  datatype Target = Target(moduleName: string, source: string, collector: string, url: string, active: bool)

  datatype ErrorKind = CircuitOpen | CircuitReopened | StaleRunTimeout | CollectorFailure

  /** An error's id is its position in the table; `name` is the collector_name column. */
  datatype ErrorRow = ErrorRow(
    name: string, kind: ErrorKind, contextModule: Option<string>, runId: Option<nat>, resolvedAt: Option<int>)

  predicate SameUrl(a: Target, b: Target) {
    a.moduleName == b.moduleName && a.source == b.source && a.url == b.url
  }

  predicate SameIdentity(a: Target, b: Target) {
    SameUrl(a, b) && a.collector == b.collector
  }

  /** The unique constraint on collection targets. */
  predicate UniqueTargets(table: seq<Target>) {
    forall i, j :: 0 <= i < j < |table| ==> !SameIdentity(table[i], table[j])
  }
}
