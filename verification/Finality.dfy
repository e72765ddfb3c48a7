/** Neither COMPLETE nor REJECTED is final: exactly when each is kept, and runs in which each is left. */
module Finality {
  import opened Prelude
  import opened OrderedDict
  import opened Records
  import opened Inventory
  import opened ControlPlane
  import opened Callers
  import opened Transitions
  import opened Lifecycle
  import opened Milestones
  import opened Readiness

  // ---------------------------------------------------------------- exactly when a final state is left

  /** A new rejection notice from the endpoint that owns the scan. */
  ghost predicate RejectsScan(s: State, op: Op, id: Id)
    requires id in s.scans.rows
  {
    && op.ReportRejection? && RejectedScan(op.notice) == Some(id) && Owns(op.principal, s.scans.rows[id])
    && KeyOf(op).value.0 !in s.answered
  }

  /** A report, or a recorded failure, for a scan that has no report yet. */
  ghost predicate ReportsScan(s: State, op: Op, id: Id)
    requires id in s.scans.rows
  {
    && s.scans.rows[id].finalReport.None? && (op.Finalize? || op.FinalizeFailure?) && op.scanId == id
    && (op.Finalize? ==> AllTerminal(StatesOf(s, id)))
  }

  lemma RejectionEffect(codec: Codec, s: State, op: Op, id: Id)
    requires op.ReportRejection? && id in s.scans.rows
    ensures var t := Step(codec, s, op).0;
            id in t.scans.rows
            && (if RejectsScan(s, op, id) then t.scans.rows[id].state == Rejected
               else t.scans.rows[id] == s.scans.rows[id])
  {
    hide Owns;
  }

  lemma FinalizeEffect(s: State, scanId: Id, report: Report, now: Time, id: Id)
    requires id in s.scans.rows
    ensures var t := FinalizeScanReport(s, scanId, report, now).0;
            id in t.scans.rows
            && (if s.scans.rows[id].finalReport.None? && scanId == id && AllTerminal(StatesOf(s, id))
                then t.scans.rows[id].state == Complete else t.scans.rows[id] == s.scans.rows[id])
  {
    hide StatesOf, AllTerminal;
  }

  lemma FailureEffect(s: State, scanId: Id, error: string, now: Time, id: Id)
    requires id in s.scans.rows
    ensures var t := FinalizeScanReportFailure(s, scanId, error, now).0;
            id in t.scans.rows
            && (if s.scans.rows[id].finalReport.None? && scanId == id
                then t.scans.rows[id].state == Complete else t.scans.rows[id] == s.scans.rows[id])
  {
    hide SanitizeError;
  }

  lemma ReportEffect(codec: Codec, s: State, op: Op, id: Id)
    requires (op.Finalize? || op.FinalizeFailure?) && id in s.scans.rows
    ensures var t := Step(codec, s, op).0;
            id in t.scans.rows
            && (if ReportsScan(s, op, id) then t.scans.rows[id].state == Complete
               else t.scans.rows[id] == s.scans.rows[id])
  {
    hide FinalizeScanReport, FinalizeScanReportFailure, StatesOf, AllTerminal;
    match op
    case Finalize(scanId, report, now) => FinalizeEffect(s, scanId, FinalReport(report), now, id);
    case FinalizeFailure(scanId, error, now) => FailureEffect(s, scanId, error, now, id);
  }

  lemma StateKept(a: Scan, b: Scan)
    requires ScanMoves(a, b) && (a.state == Complete || a.state == Rejected) && b.finalReport == a.finalReport
    requires b.state == Rejected ==> a.state == Rejected
    ensures b.state == a.state
  {
    hide ValidStatus, BoundTo;
  }

  ghost predicate NoneRejected(s: State, t: State) {
    forall id | id in s.scans.rows :: id in t.scans.rows
        && (t.scans.rows[id].state == Rejected ==> s.scans.rows[id].state == Rejected)
  }

  lemma PutRejectsNone(s: State, t: State, id: Id)
    requires id in s.scans.rows && id in t.scans.rows && t.scans == s.scans.Put(id, t.scans.rows[id])
    requires var a, b := s.scans.rows[id], t.scans.rows[id]; ReceivesEvidence(a, b) || ReceivesStatus(a, b)
    ensures NoneRejected(s, t)
  {
    hide ValidStatus, BoundTo;
  }

  lemma PollRejectsNone(s: State, principal: Principal, now: Time)
    ensures NoneRejected(s, ClaimNextJob(s, principal, now).0)
  {
    hide ClaimNextJob;
    PollChanges(s, principal, now);
    var t := ClaimNextJob(s, principal, now).0;
    forall id | id in s.scans.rows ensures t.scans.rows[id].state == Rejected ==> s.scans.rows[id].state == Rejected {
      assert PollMoves(principal, now, s.scans.rows[id], t.scans.rows[id]);
    }
  }

  lemma NotRejected(codec: Codec, s: State, op: Op)
    requires !op.ReportRejection? && !op.Finalize? && !op.FinalizeFailure?
    ensures NoneRejected(s, Perform(codec, s, op).0)
  {
    hide FreshIngest, ClaimNextJob, FreshStatus, ReceivesEvidence, ReceivesStatus;
    hide FreshGrant, FreshEnrollment, FreshRotation, ClaimAnalysisTask, CompleteAnalysisTask, FailAnalysisTask;
    var t := Perform(codec, s, op).0;
    if t.scans == s.scans { return; }
    match op
    case PollJob(principal, now) => PollRejectsNone(s, principal, now);
    case CreateScan(_, _, _, _) =>
    case Ingest(principal, scanId, upload, tasks, now, _, _) =>
      IngestScans(codec, s, principal, scanId, upload, tasks, now);
      PutRejectsNone(s, t, scanId);
    case ReportStatus(principal, scanId, status, now, _, _) =>
      StatusScans(s, principal, scanId, status, now);
      PutRejectsNone(s, t, scanId);
    case _ => OtherScans(codec, s, op);
  }

  /** No other operation moves a finished or rejected scan to another state. */
  lemma OthersKeepState(codec: Codec, s: State, op: Op, id: Id)
    requires !op.ReportRejection? && !op.Finalize? && !op.FinalizeFailure?
    requires id in s.scans.rows && (s.scans.rows[id].state == Complete || s.scans.rows[id].state == Rejected)
    ensures var t := Step(codec, s, op).0; id in t.scans.rows && t.scans.rows[id].state == s.scans.rows[id].state
  {
    hide Step, ScanMoves, Perform;
    StepMovesScans(codec, s, op);
    StepPerforms(codec, s, op);
    NoOtherReports(codec, s, op);
    NotRejected(codec, s, op);
    StateKept(s.scans.rows[id], Step(codec, s, op).0.scans.rows[id]);
  }

  lemma CompleteHasReport(s: State, id: Id)
    requires Sound(s) && id in s.scans.rows && s.scans.rows[id].state == Complete
    ensures s.scans.rows[id].finalReport.Some?
  {
    assert ScanSound(id, s.scans.rows[id]);
  }

  lemma NoRejection(s: State, op: Op, id: Id)
    requires id in s.scans.rows && !op.ReportRejection?
    ensures !RejectsScan(s, op, id)
  {
  }

  /** A finished scan stays COMPLETE exactly unless its endpoint sends a new rejection notice for it. */
  lemma CompleteKeptExactly(codec: Codec, s: State, op: Op, id: Id)
    requires Sound(s) && id in s.scans.rows && s.scans.rows[id].state == Complete
    ensures var t := Step(codec, s, op).0;
            id in t.scans.rows && (t.scans.rows[id].state == Complete <==> !RejectsScan(s, op, id))
  {
    hide Step, RejectsScan, Sound;
    CompleteHasReport(s, id);
    match op
    case ReportRejection(_, _, _, _, _) => RejectionEffect(codec, s, op, id);
    case Finalize(_, _, _) => ReportEffect(codec, s, op, id); NoRejection(s, op, id);
    case FinalizeFailure(_, _, _) => ReportEffect(codec, s, op, id); NoRejection(s, op, id);
    case _ => OthersKeepState(codec, s, op, id); NoRejection(s, op, id);
  }

  lemma NoReport(s: State, op: Op, id: Id)
    requires id in s.scans.rows && !op.Finalize? && !op.FinalizeFailure?
    ensures !ReportsScan(s, op, id)
  {
  }

  /** A rejected scan stays REJECTED exactly unless a report, or a failure, is recorded for it and it has none. */
  lemma RejectedKeptExactly(codec: Codec, s: State, op: Op, id: Id)
    requires id in s.scans.rows && s.scans.rows[id].state == Rejected
    ensures var t := Step(codec, s, op).0;
            id in t.scans.rows && (t.scans.rows[id].state == Rejected <==> !ReportsScan(s, op, id))
  {
    hide Step, ReportsScan;
    match op
    case ReportRejection(_, _, _, _, _) => RejectionEffect(codec, s, op, id); NoReport(s, op, id);
    case Finalize(_, _, _) => ReportEffect(codec, s, op, id);
    case FinalizeFailure(_, _, _) => ReportEffect(codec, s, op, id);
    case _ => OthersKeepState(codec, s, op, id); NoReport(s, op, id);
  }

  // ---------------------------------------------------------------- scans that are never finalized

  /** A scan with evidence and all its tasks finished, and without a report. */
  ghost predicate AwaitsReport(s: State, id: Id) {
    && id in s.scans.rows && s.scans.rows[id].upload.Some? && s.scans.rows[id].finalReport.None?
    && AllFinished(s.tasks.rows, id)
  }

  /** Such a scan is analyzing or was rejected, and is offered for finalization exactly when it was not rejected. */
  lemma AwaitingExactly(s: State, id: Id)
    requires Sound(s) && AwaitsReport(s, id)
    ensures s.scans.rows[id].state == Analyzing || s.scans.rows[id].state == Rejected
    ensures ReadyToFinalize(s, id) <==> s.scans.rows[id].state != Rejected
    ensures s.scans.rows[id].state == Rejected ==> NextReady(s) != Some(id)
    ensures s.scans.rows[id].state != Rejected ==> NextReady(s).Some?
  {
    hide TasksSound, OnePerKind, BothKinds, StatesOf, AllTerminal, AllFinished, SortBy, FirstReady;
    ReadyExactly(s, id);
    assert ScanSound(id, s.scans.rows[id]);
    assert id in LeastRecentlyUpdated(s.scans);
  }

  lemma ReportSticks(codec: Codec, s: State, op: Op, id: Id)
    requires id in s.scans.rows && ReportsScan(s, op, id)
    ensures id in Step(codec, s, op).0.scans.rows && Step(codec, s, op).0.scans.rows[id].finalReport.Some?
  {
    hide StatesOf, AllTerminal, SanitizeError;
  }

  /**
   * A rejected scan whose worker stops before finalizing it is never offered again: after any run, as long as nobody
   * gives it a report directly, it is still rejected and not the next scan to finalize.
   */
  lemma {:induction false} RejectedNeverOffered(codec: Codec, s: State, ops: seq<Op>, id: Id)
    requires id in s.scans.rows && s.scans.rows[id].state == Rejected && s.scans.rows[id].finalReport.None?
    ensures var t := Run(codec, s, ops);
            && id in t.scans.rows
            && (t.scans.rows[id].finalReport.None? ==> t.scans.rows[id].state == Rejected && NextReady(t) != Some(id))
    decreases |ops|
  {
    WriteOnce(codec, s, ops, id);
    hide Step, ReportsScan, SortBy, FirstReady, AllTerminal, StatesOf;
    if ops == [] {
    } else {
      var t := Step(codec, s, ops[0]).0;
      RejectedKeptExactly(codec, s, ops[0], id);
      if ReportsScan(s, ops[0], id) {
        ReportSticks(codec, s, ops[0], id);
        WriteOnce(codec, t, ops[1..], id);
      } else {
        if t.scans.rows[id].finalReport.None? {
          RejectedNeverOffered(codec, t, ops[1..], id);
        } else {
          WriteOnce(codec, t, ops[1..], id);
        }
      }
    }
  }
}
