/**
 * The audit log and the scans tell the same story: evidence, status and report are each logged once, when they are
 * stored.
 */
module Milestones {
  import opened Prelude
  import opened OrderedDict
  import opened Records
  import opened Inventory
  import opened ControlPlane
  import opened Callers
  import opened Transitions
  import opened Lifecycle
  import opened Readiness

  datatype Milestone = GotEvidence | GotStatus | GotReport

  function Marks(kind: EventKind): Option<Milestone> {
    match kind
    case EvidenceAccepted => Some(GotEvidence)
    case StatusAccepted => Some(GotStatus)
    case ReportFinalized => Some(GotReport)
    case NormalizationFailed => Some(GotReport)
    case _ => None
  }

  /** How often the log records the milestone for the scan. */
  function Logged(log: seq<Event>, m: Milestone, id: Id): nat {
    if log == [] then 0
    else
      var last := log[|log| - 1];
      Logged(log[..|log| - 1], m, id) + if Marks(last.kind) == Some(m) && last.resourceId == id then 1 else 0
  }

  /** 1 once the scan has it, 0 before. */
  function Stage(scans: map<Id, Scan>, m: Milestone, id: Id): nat {
    if id !in scans then 0
    else
      match m
      case GotEvidence => if scans[id].upload.Some? then 1 else 0
      case GotStatus => if scans[id].terminalStatus.Some? then 1 else 0
      case GotReport => if scans[id].finalReport.Some? then 1 else 0
  }

  /** The log grew by exactly the milestones the scans reached. */
  ghost predicate InStep(s: State, t: State) {
    forall m, id :: Logged(t.audit, m, id) + Stage(s.scans.rows, m, id) == Logged(s.audit, m, id)
        + Stage(t.scans.rows, m, id)
  }

  lemma LoggedAppend(log: seq<Event>, e: Event, m: Milestone, id: Id)
    ensures Logged(log + [e], m, id) == Logged(log, m, id) + if Marks(e.kind) == Some(m) && e.resourceId == id then 1
            else 0
  {
    assert (log + [e])[..|log + [e]| - 1] == log;
  }

  ghost predicate SameStages(a: map<Id, Scan>, b: map<Id, Scan>) {
    forall m, id :: Stage(a, m, id) == Stage(b, m, id)
  }

  /** An event that marks no milestone, and scans that reach none. */
  lemma Unmarked(s: State, t: State, e: Event)
    requires t.audit == s.audit + [e] && Marks(e.kind).None? && SameStages(s.scans.rows, t.scans.rows)
    ensures InStep(s, t)
  {
    hide Stage;
    forall m, id ensures Logged(t.audit, m, id) == Logged(s.audit, m, id) { LoggedAppend(s.audit, e, m, id); }
  }

  /** One marked event, and the one scan it names reaches the milestone. */
  lemma Marked(s: State, t: State, e: Event, reached: Milestone)
    requires t.audit == s.audit + [e] && Marks(e.kind) == Some(reached)
             && Stage(s.scans.rows, reached, e.resourceId) == 0
    requires forall m, id :: Stage(t.scans.rows, m, id) == if m == reached && id == e.resourceId then 1
             else Stage(s.scans.rows, m, id)
    ensures InStep(s, t)
  {
    hide Stage;
    forall m, id ensures Logged(t.audit, m, id) + Stage(s.scans.rows, m, id) == Logged(s.audit, m, id)
        + Stage(t.scans.rows, m, id) {
      LoggedAppend(s.audit, e, m, id);
    }
  }

  lemma InStepTransitive(s: State, t: State, u: State)
    requires InStep(s, t) && InStep(t, u)
    ensures InStep(s, u)
  {
    forall m, id ensures Logged(u.audit, m, id) + Stage(s.scans.rows, m, id) == Logged(s.audit, m, id)
        + Stage(u.scans.rows, m, id) {
      assert Logged(t.audit, m, id) + Stage(s.scans.rows, m, id) == Logged(s.audit, m, id) + Stage(t.scans.rows, m, id);
    }
  }

  // ---------------------------------------------------------------- the operations

  lemma StateOnly(s: State, id: Id, state: ScanState, now: Time)
    requires id in s.scans.rows
    ensures SameStages(s.scans.rows, s.scans.Put(id, s.scans.rows[id].(state := state, updatedAt := now)).rows)
  {
  }

  lemma ExpiryInStep(s: State, id: Id, principal: Principal, now: Time)
    requires id in s.scans.rows
    ensures InStep(s, MarkExpired(s, id, principal, now))
  {
    hide InStep, Stage;
    var t := MarkExpired(s, id, principal, now);
    StateOnly(s, id, Expired, now);
    Unmarked(s, t, t.audit[|s.audit|]);
  }

  lemma DispatchInStep(s: State, id: Id, principal: Principal, now: Time)
    requires id in s.scans.rows
    ensures InStep(s, MarkDispatched(s, id, principal, now))
  {
    hide InStep, Stage;
    var t := MarkDispatched(s, id, principal, now);
    StateOnly(s, id, Dispatched, now);
    Unmarked(s, t, t.audit[|s.audit|]);
  }

  lemma NothingInStep(s: State, t: State)
    requires t.audit == s.audit && t.scans == s.scans
    ensures InStep(s, t)
  {
  }

  lemma {:induction false} PollInStep(s: State, candidates: seq<Id>, principal: Principal, now: Time)
    requires forall id | id in candidates :: id in s.scans.rows
    ensures InStep(s, DispatchFrom(s, candidates, principal, now).0)
    decreases |candidates|
  {
    hide JobDispatchEligibility, InStep, Dispatchable, MarkDispatched;
    if candidates == [] {
      NothingInStep(s, s);
    } else {
      var id := candidates[0];
      if !Dispatchable(principal, s.scans.rows[id]) {
        PollInStep(s, candidates[1..], principal, now);
      } else {
        match JobDispatchEligibility(s.scans.rows[id], principal.endpointId, now)
        case Lapsed =>
          var u := MarkExpired(s, id, principal, now);
          ExpiryInStep(s, id, principal, now);
          PollInStep(u, candidates[1..], principal, now);
          InStepTransitive(s, u, DispatchFrom(u, candidates[1..], principal, now).0);
        case Eligible => DispatchInStep(s, id, principal, now);
        case _ => PollInStep(s, candidates[1..], principal, now);
      }
    }
  }

  lemma IngestStages(codec: Codec, s: State, op: Op)
    requires op.Ingest? && Perform(codec, s, op).0 != s
    ensures var t := Perform(codec, s, op).0;
            && Stage(s.scans.rows, GotEvidence, op.scanId) == 0
            && forall m, id :: Stage(t.scans.rows, m, id) == if m == GotEvidence && id == op.scanId then 1
               else Stage(s.scans.rows, m, id)
  {
    hide FreshIngest, BoundTo, PutTasks, TaskFits;
    IngestAccepts(codec, s, op.principal, op.scanId, op.upload, op.tasks, op.now);
    IngestScans(codec, s, op.principal, op.scanId, op.upload, op.tasks, op.now);
  }

  lemma IngestInStep(codec: Codec, s: State, op: Op)
    requires op.Ingest?
    ensures InStep(s, Perform(codec, s, op).0)
  {
    hide Reconstruct, NamesScan, ProvenanceMatches, TaskFits, PutTasks, Owns, Stored, InStep;
    var t := Perform(codec, s, op).0;
    if t == s {
      NothingInStep(s, s);
    } else {
      IngestStages(codec, s, op);
      Marked(s, t, t.audit[|s.audit|], GotEvidence);
    }
  }

  lemma StatusStages(s: State, id: Id, status: Document, now: Time)
    requires id in s.scans.rows && ValidStatus(s.scans.rows[id], status)
    ensures Stage(s.scans.rows, GotStatus, id) == 0
    ensures forall m, other ::
            Stage(s.scans.Put(id, s.scans.rows[id].(terminalStatus := Some(status), updatedAt := now)).rows, m, other)
              == if m == GotStatus && other == id then 1 else Stage(s.scans.rows, m, other)
  {
  }

  lemma StatusInStep(codec: Codec, s: State, op: Op)
    requires op.ReportStatus?
    ensures InStep(s, Perform(codec, s, op).0)
  {
    hide Owns, InStep, ValidStatus, Stage;
    var t := Perform(codec, s, op).0;
    if t == s {
      NothingInStep(s, s);
    } else {
      StatusStages(s, op.scanId, op.status, op.now);
      Marked(s, t, t.audit[|s.audit|], GotStatus);
    }
  }

  lemma RejectionInStep(codec: Codec, s: State, op: Op)
    requires op.ReportRejection?
    ensures InStep(s, Perform(codec, s, op).0)
  {
    hide Owns, InStep, Stage;
    var t := Perform(codec, s, op).0;
    if t == s {
      NothingInStep(s, s);
    } else {
      var target := RejectedScan(op.notice);
      if target.Some? && target.value in s.scans.rows { StateOnly(s, target.value, Rejected, op.now); }
      Unmarked(s, t, t.audit[|s.audit|]);
    }
  }

  lemma ReportInStep(s: State, scanId: Id, report: Report, kind: EventKind, now: Time)
    requires scanId in s.scans.rows && s.scans.rows[scanId].finalReport.None? && Marks(kind) == Some(GotReport)
    ensures InStep(s, Reported(s, scanId, report, kind, now))
  {
    hide InStep;
    var t := Reported(s, scanId, report, kind, now);
    Marked(s, t, t.audit[|s.audit|], GotReport);
  }

  lemma FinalizeInStep(codec: Codec, s: State, op: Op)
    requires op.Finalize? || op.FinalizeFailure?
    ensures InStep(s, Perform(codec, s, op).0)
  {
    hide InStep, StatesOf, AllTerminal, SanitizeError, Reported;
    NothingInStep(s, s);
    if Perform(codec, s, op).0 != s {
      if op.Finalize? {
        ReportInStep(s, op.scanId, FinalReport(op.report), ReportFinalized, op.now);
      } else {
        var report := NormalizationFailure(op.scanId, s.scans.rows[op.scanId].endpointId, SanitizeError(op.error),
            op.now);
        ReportInStep(s, op.scanId, report, NormalizationFailed, op.now);
      }
    }
  }

  lemma CreateInStep(codec: Codec, s: State, op: Op)
    requires op.CreateScan? && WellFormed(op)
    ensures InStep(s, Perform(codec, s, op).0)
  {
    hide InStep;
    var t := Perform(codec, s, op).0;
    if t == s {
      NothingInStep(s, s);
    } else {
      Unmarked(s, t, t.audit[|s.audit|]);
    }
  }

  lemma EndpointsInStep(codec: Codec, s: State, op: Op)
    requires op.CreateGrant? || op.Enroll? || op.Rotate?
    ensures InStep(s, Perform(codec, s, op).0)
  {
    hide CredentialNamed, GrantRefusal, Consume, InStep, Stage, Superseded;
    var t := Perform(codec, s, op).0;
    if t.audit == s.audit {
      NothingInStep(s, t);
    } else {
      Unmarked(s, t, t.audit[|s.audit|]);
    }
  }

  lemma TasksInStep(codec: Codec, s: State, op: Op)
    requires op.ClaimTask? || op.CompleteTask? || op.FailTask?
    ensures InStep(s, Perform(codec, s, op).0)
  {
    hide FirstClaimable, TaskOrder, SanitizeError, InStep;
    NothingInStep(s, Perform(codec, s, op).0);
  }

  lemma TouchInStep(s: State, principal: Principal, now: Time)
    ensures forall t | InStep(Touch(s, principal, now), t) :: InStep(s, t)
  {
    var u := Touch(s, principal, now);
    forall t | InStep(u, t) ensures InStep(s, t) {
      NothingInStep(s, u);
      InStepTransitive(s, u, t);
    }
  }

  lemma PerformInStep(codec: Codec, s: State, op: Op)
    requires WellFormed(op)
    ensures InStep(s, Perform(codec, s, op).0)
  {
    hide InStep, FreshIngest, FreshStatus, FreshRejection, FreshScan, FreshGrant, FreshEnrollment, FreshRotation;
    hide ClaimAnalysisTask, CompleteAnalysisTask, FailAnalysisTask, FinalizeScanReport, FinalizeScanReportFailure;
    hide DispatchFrom;
    match op
    case PollJob(principal, now) =>
      PollInStep(Touch(s, principal, now), OldestFirst(s.scans), principal, now);
      TouchInStep(s, principal, now);
    case CreateScan(_, _, _, _) => CreateInStep(codec, s, op);
    case Ingest(_, _, _, _, _, _, _) => IngestInStep(codec, s, op);
    case ReportStatus(_, _, _, _, _, _) => StatusInStep(codec, s, op);
    case ReportRejection(_, _, _, _, _) => RejectionInStep(codec, s, op);
    case Finalize(_, _, _) => FinalizeInStep(codec, s, op);
    case FinalizeFailure(_, _, _) => FinalizeInStep(codec, s, op);
    case ClaimTask(_, _, _, _) => TasksInStep(codec, s, op);
    case CompleteTask(_, _, _, _) => TasksInStep(codec, s, op);
    case FailTask(_, _, _, _, _, _) => TasksInStep(codec, s, op);
    case _ => EndpointsInStep(codec, s, op);
  }

  lemma StepInStep(codec: Codec, s: State, op: Op)
    requires WellFormed(op)
    ensures InStep(s, Step(codec, s, op).0)
  {
    hide Perform, Step, Stage;
    StepPerforms(codec, s, op);
    PerformInStep(codec, s, op);
    NothingInStep(s, s);
  }

  /**
   * Exactly once: over any run the log gains one entry for a scan's evidence, status or report when the scan gains it,
   * and no other; from the empty state, the number of entries is 1 if the scan has it and 0 if not.
   */
  lemma {:induction false} ExactlyOnce(codec: Codec, s: State, ops: seq<Op>)
    requires AllWellFormed(ops)
    ensures InStep(s, Run(codec, s, ops))
    decreases |ops|
  {
    hide Step, InStep;
    if ops == [] {
      NothingInStep(s, s);
    } else {
      var t := Step(codec, s, ops[0]).0;
      StepInStep(codec, s, ops[0]);
      ExactlyOnce(codec, t, ops[1..]);
      InStepTransitive(s, t, Run(codec, t, ops[1..]));
    }
  }

  lemma LoggedAtMostOnce(codec: Codec, ops: seq<Op>, m: Milestone, id: Id)
    requires AllWellFormed(ops)
    ensures var t := Run(codec, EMPTY_STATE, ops); Logged(t.audit, m, id) == Stage(t.scans.rows, m, id) <= 1
  {
    hide Run;
    ExactlyOnce(codec, EMPTY_STATE, ops);
  }

  // ---------------------------------------------------------------- reports without evidence

  /** Every scan with a report has evidence. */
  ghost predicate ReportsEvidenced(scans: map<Id, Scan>) {
    forall id | id in scans && scans[id].finalReport.Some? :: scans[id].upload.Some?
  }

  /** The one operation that can break it: recording a failure for a scan that has neither evidence nor a report. */
  ghost predicate FailsUnevidenced(s: State, op: Op) {
    op.FinalizeFailure? && op.scanId in s.scans.rows && s.scans.rows[op.scanId].upload.None?
        && s.scans.rows[op.scanId].finalReport.None?
  }

  lemma FinishedIsEvidenced(s: State, scanId: Id)
    requires TasksSound(s.scans.rows, s.tasks.rows) && OnePerKind(s.tasks.rows) && AllTerminal(StatesOf(s, scanId))
    ensures scanId in s.scans.rows && s.scans.rows[scanId].upload.Some?
  {
    hide OnePerKind, TaskSound, TaskStates;
    StatesExact(s.tasks.rows, s.tasks.order, scanId);
    assert Osv in StatesOf(s, scanId);
    var id :| id in s.tasks.order && s.tasks.rows[id].scanId == scanId && s.tasks.rows[id].kind == Osv;
  }

  ghost predicate SameReports(s: State, t: State) {
    forall id | id in s.scans.rows :: id in t.scans.rows && t.scans.rows[id].finalReport == s.scans.rows[id].finalReport
  }

  lemma PutKeepsReports(s: State, t: State, id: Id)
    requires id in s.scans.rows && id in t.scans.rows && t.scans == s.scans.Put(id, t.scans.rows[id])
    requires var a, b := s.scans.rows[id], t.scans.rows[id];
             ReceivesEvidence(a, b) || ReceivesStatus(a, b) || IsRejected(a, b)
    ensures SameReports(s, t)
  {
    hide ValidStatus;
  }

  lemma PollKeepsReports(s: State, principal: Principal, now: Time)
    ensures SameReports(s, ClaimNextJob(s, principal, now).0)
  {
    hide ClaimNextJob;
    PollChanges(s, principal, now);
    var t := ClaimNextJob(s, principal, now).0;
    forall id | id in s.scans.rows ensures t.scans.rows[id].finalReport == s.scans.rows[id].finalReport {
      assert PollMoves(principal, now, s.scans.rows[id], t.scans.rows[id]);
    }
  }

  lemma NoOtherReports(codec: Codec, s: State, op: Op)
    requires !op.Finalize? && !op.FinalizeFailure?
    ensures SameReports(s, Perform(codec, s, op).0)
  {
    hide FreshIngest, ClaimNextJob, FreshStatus, FreshRejection, ReceivesEvidence, ReceivesStatus, IsRejected;
    hide FreshGrant, FreshEnrollment, FreshRotation, ClaimAnalysisTask, CompleteAnalysisTask, FailAnalysisTask;
    var t := Perform(codec, s, op).0;
    if t.scans == s.scans { return; }
    match op
    case PollJob(principal, now) => PollKeepsReports(s, principal, now);
    case CreateScan(_, _, _, _) =>
    case Ingest(principal, scanId, upload, tasks, now, _, _) =>
      IngestScans(codec, s, principal, scanId, upload, tasks, now);
      PutKeepsReports(s, t, scanId);
    case ReportStatus(principal, scanId, status, now, _, _) => StatusScans(s, principal, scanId, status, now);
        PutKeepsReports(s, t, scanId);
    case ReportRejection(principal, notice, now, _, _) =>
      RejectionScans(s, principal, notice, now);
      PutKeepsReports(s, t, RejectedScan(notice).value);
    case _ => OtherScans(codec, s, op);
  }

  lemma FinalizeWrites(s: State, scanId: Id, report: Report, now: Time, id: Id)
    requires id in s.scans.rows && s.scans.rows[id].finalReport.None?
    requires var t := FinalizeScanReport(s, scanId, report, now).0;
             id in t.scans.rows && t.scans.rows[id].finalReport.Some?
    ensures id == scanId && AllTerminal(StatesOf(s, scanId))
  {
    hide AllTerminal, StatesOf;
  }

  lemma SoundTasks(s: State)
    requires Sound(s)
    ensures TasksSound(s.scans.rows, s.tasks.rows) && OnePerKind(s.tasks.rows)
  {
  }

  lemma FinalizeReports(s: State, scanId: Id, report: Report, now: Time, id: Id)
    requires Sound(s) && id in s.scans.rows && s.scans.rows[id].finalReport.None?
    requires var t := FinalizeScanReport(s, scanId, report, now).0;
             id in t.scans.rows && t.scans.rows[id].finalReport.Some?
    ensures s.scans.rows[id].upload.Some?
  {
    hide Sound;
    FinalizeWrites(s, scanId, report, now, id);
    hide FinalizeScanReport, AllTerminal, StatesOf;
    SoundTasks(s);
    FinishedIsEvidenced(s, scanId);
  }

  lemma OnlyReports(codec: Codec, s: State, op: Op, id: Id)
    requires Sound(s) && id in s.scans.rows && s.scans.rows[id].finalReport.None?
    requires var t := Perform(codec, s, op).0; id in t.scans.rows && t.scans.rows[id].finalReport.Some?
    ensures s.scans.rows[id].upload.Some? || (FailsUnevidenced(s, op) && op.scanId == id)
  {
    hide Sound, FinalizeScanReport, FinalizeScanReportFailure;
    if op.Finalize? {
      FinalizeReports(s, op.scanId, FinalReport(op.report), op.now, id);
    } else if op.FinalizeFailure? {
      FailureScans(s, op.scanId, op.error, op.now);
    } else {
      hide Perform;
      NoOtherReports(codec, s, op);
      assert false;
    }
  }

  /** A report written by one step is on an evidenced scan, unless it is such a failure. */
  lemma NewReport(codec: Codec, s: State, op: Op, id: Id)
    requires Sound(s) && id in s.scans.rows && s.scans.rows[id].finalReport.None?
    requires var t := Step(codec, s, op).0; id in t.scans.rows && t.scans.rows[id].finalReport.Some?
    ensures s.scans.rows[id].upload.Some? || (FailsUnevidenced(s, op) && op.scanId == id)
  {
    hide Perform, Step;
    StepPerforms(codec, s, op);
    PerformMovesScans(codec, s, op);
    OnlyReports(codec, s, op, id);
  }

  lemma FailureReports(codec: Codec, s: State, op: Op)
    requires FailsUnevidenced(s, op)
    ensures var t := Step(codec, s, op).0;
            op.scanId in t.scans.rows && t.scans.rows[op.scanId].finalReport.Some?
                && t.scans.rows[op.scanId].upload.None?
  {
    hide SanitizeError;
  }

  /** Exactly that operation puts a report on a scan without evidence. */
  lemma ReportsEvidencedExactly(codec: Codec, s: State, op: Op)
    requires Sound(s) && WellFormed(op) && ReportsEvidenced(s.scans.rows)
    ensures ReportsEvidenced(Step(codec, s, op).0.scans.rows) <==> !FailsUnevidenced(s, op)
  {
    hide Step, Sound, ScanMoves;
    StepMovesScans(codec, s, op);
    var t := Step(codec, s, op).0;
    if FailsUnevidenced(s, op) {
      FailureReports(codec, s, op);
    } else {
      forall id | id in t.scans.rows && t.scans.rows[id].finalReport.Some? ensures t.scans.rows[id].upload.Some? {
        if id in s.scans.rows {
          MovesKeep(s.scans.rows[id], t.scans.rows[id]);
          if s.scans.rows[id].finalReport.None? { NewReport(codec, s, op, id); }
        }
      }
    }
  }
}
