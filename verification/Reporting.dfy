/**
 * The reports workers build from what the control plane holds: when there is one, and what a dead letter does to it.
 */
module Reporting {
  import opened Prelude
  import opened OrderedDict
  import opened Records
  import opened ControlPlane
  import opened Lifecycle
  import opened Readiness
  import opened Worker
  import Report

  /** How the report builder reads what the control plane and the upload give it. */
  datatype Reader = Reader(
    result: string -> Report.Persisted, scan: Upload -> Report.Scan, bounded: Upload -> bool,
    fits: (Upload, map<Kind, ToolResult>) -> bool, limit: nat, fixtureMode: bool)

  /** A dead-letter summary has no scan and no records; any other result is read from its document. */
  function PersistedOf(reader: Reader, r: ToolResult): Report.Persisted {
    match r
    case Analyzed(result) => reader.result(result)
    case DeadLetter(_, _) => Report.Persisted("FAILED", None, None, Some([]), false)
  }

  function PersistedResults(reader: Reader, results: map<Kind, ToolResult>): map<Report.Tool, Report.Persisted> {
    map kind | kind in results :: PersistedOf(reader, results[kind])
  }

  ghost predicate BuildEnds(reader: Reader, upload: Upload, results: map<Kind, ToolResult>, built: ReportBuild) {
    var scan, persisted := reader.scan(upload), PersistedResults(reader, results);
    var missing := exists tool :: tool in scan.expected && tool !in persisted;
    && (built.Unbuildable? && built.permanent <==>
          || !reader.bounded(upload)
          || (!missing && (!reader.fits(upload, results)
                           || exists tool :: tool in scan.expected && tool in persisted
                                             && !Report.Acceptable(persisted[tool], scan, reader.limit))))
    && (built.Unbuildable? && !built.permanent <==> reader.bounded(upload) && missing)
  }

  /**
   * The engine's `build` is `build_final_report`: evidence or a report over its bounds and unacceptable results are
   * permanent failures, missing results a retryable one.
   */
  ghost predicate BuildsReports(reader: Reader, engine: Engine) {
    forall upload: Upload, results: map<Kind, ToolResult> ::
      BuildEnds(reader, upload, results, engine.build(upload, results))
  }

  lemma DeadLetterAccepted(reader: Reader, error: string, attempts: int, scan: Report.Scan)
    ensures var p := PersistedOf(reader, DeadLetter(error, attempts));
            && Report.Acceptable(p, scan, reader.limit) && Report.NormalizedStatus(p.status) == Report.Failure
            && Report.AcceptedFrom(p) == []
  {
    assert Report.Text.Upper("FAILED") == "FAILED";
  }

  /**
   * Once all tasks of a scan have finished, its report is built now or never: never exactly when the evidence or the
   * report is over its bounds or an analyzer's result is not acceptable. Dead letters alone never stand in the way.
   */
  lemma ReadyIsBuilt(reader: Reader, engine: Engine, s: State, scanId: Id)
    requires Sound(s) && scanId in s.scans.rows && s.scans.rows[scanId].upload.Some?
             && AllFinished(s.tasks.rows, scanId)
    requires BuildsReports(reader, engine)
    ensures var upload, results := s.scans.rows[scanId].upload.value, ScanAnalysisResults(s, scanId);
            var built := engine.build(upload, results);
            && (built.Unbuildable? ==> built.permanent)
            && (built.Built? <==>
                  && reader.bounded(upload) && reader.fits(upload, results)
                  && forall kind | kind in results && kind in reader.scan(upload).expected && results[kind].Analyzed? ::
                       Report.Acceptable(reader.result(results[kind].result), reader.scan(upload), reader.limit))
  {
    hide Sound, AllFinished, ScanAnalysisResults;
    FinishedHasResults(s, scanId);
    var upload, results := s.scans.rows[scanId].upload.value, ScanAnalysisResults(s, scanId);
    var scan, persisted := reader.scan(upload), PersistedResults(reader, results);
    assert BuildEnds(reader, upload, results, engine.build(upload, results));
    forall tool: Report.Tool ensures tool in persisted {
      match tool
      case Osv =>
      case DepScan =>
    }
    forall kind | kind in results && results[kind].DeadLetter?
      ensures Report.Acceptable(persisted[kind], scan, reader.limit)
    {
      DeadLetterAccepted(reader, results[kind].error, results[kind].attempts, scan);
    }
    hide Report.Acceptable;
  }

  /** A report that covers a dead-lettered tool lists it as a gap, and is never complete. */
  lemma DeadLetterIsAGap(reader: Reader, scan: Report.Scan, results: map<Kind, ToolResult>, r: Report.Report,
          kind: Kind)
    requires forall tool | tool in scan.expected :: tool in results
    requires kind in scan.expected && results[kind].DeadLetter?
    requires Report.AddsUp(scan, PersistedResults(reader, results), r)
    requires Report.SaysSo(scan, PersistedResults(reader, results), reader.fixtureMode, r)
    ensures !r.complete && r.status != Report.SuccessReport && kind in r.degraded
    ensures Report.NotSuccessful(kind, Report.Failure) in r.gaps && r.tools[kind].accepted == 0
  {
    DeadLetterAccepted(reader, results[kind].error, results[kind].attempts, scan);
    hide Report.NormalizedStatus, Report.AcceptedFrom, Report.Buckets;
    assert Report.Accounts(r.tools[kind], PersistedResults(reader, results)[kind]);
    assert Report.Placed(r, kind);
  }
}
