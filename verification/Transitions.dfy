/** What one step of the control plane can do to one scan or task, and what no step can. */
module Transitions {
  import opened Prelude
  import opened OrderedDict
  import opened Records
  import opened Inventory
  import opened ControlPlane

  // ---------------------------------------------------------------- scans

  ghost predicate WasDispatched(a: Scan, b: Scan) {
    (a.state == Queued || a.state == Dispatched) && b == a.(state := Dispatched, updatedAt := b.updatedAt)
  }

  ghost predicate Expires(a: Scan, b: Scan) {
    (a.state == Queued || a.state == Dispatched) && b == a.(state := Expired, updatedAt := b.updatedAt)
  }

  /** The evidence names the scan and its endpoint, and was gathered under the job's type, scope and policy. */
  ghost predicate BoundTo(record: Scan, upload: Upload) {
    && upload.result.Some? && upload.sync.Some? && record.job.authorization.Some?
    && NamesScan(upload.result.value, record) && NamesScan(upload.sync.value.identity, record)
    && ProvenanceMatches(upload.result.value, record.job, record.job.authorization.value)
  }

  ghost predicate ReceivesEvidence(a: Scan, b: Scan) {
    && a.state == Dispatched && a.upload.None?
    && b.upload.Some? && BoundTo(a, b.upload.value)
    && b == a.(state := Analyzing, upload := b.upload, updatedAt := b.updatedAt)
  }

  ghost predicate ReceivesStatus(a: Scan, b: Scan) {
    && b.terminalStatus.Some? && ValidStatus(a, b.terminalStatus.value)
    && b == a.(terminalStatus := b.terminalStatus, updatedAt := b.updatedAt)
  }

  ghost predicate IsRejected(a: Scan, b: Scan) {
    b == a.(state := Rejected, updatedAt := b.updatedAt)
  }

  ghost predicate ReceivesReport(a: Scan, b: Scan) {
    a.finalReport.None? && b.finalReport.Some? && b
        == a.(state := Complete, finalReport := b.finalReport, updatedAt := b.updatedAt)
  }

  /** Everything one step can do to a scan. */
  ghost predicate ScanMoves(a: Scan, b: Scan) {
    a == b || WasDispatched(a, b) || Expires(a, b) || ReceivesEvidence(a, b) || ReceivesStatus(a, b)
        || IsRejected(a, b) || ReceivesReport(a, b)
  }

  ghost predicate ScansMove(s: State, t: State) {
    forall id | id in s.scans.rows :: id in t.scans.rows && ScanMoves(s.scans.rows[id], t.scans.rows[id])
  }

  /** A poll dispatches or expires scans it may dispatch, and leaves everything else of every scan as it was. */
  ghost predicate PollMoves(principal: Principal, now: Time, a: Scan, b: Scan) {
    || a == b
    || (Dispatchable(principal, a)
       && (b == a.(state := Dispatched, updatedAt := now) || b == a.(state := Expired, updatedAt := now)))
  }

  /** What a poll does to the state: some scans move, events are logged, and nothing else changes. */
  ghost predicate PollEffect(principal: Principal, now: Time, s: State, t: State) {
    && t == s.(scans := t.scans, audit := t.audit)
    && t.scans.rows.Keys == s.scans.rows.Keys && t.scans.order == s.scans.order
    && forall id | id in s.scans.rows :: PollMoves(principal, now, s.scans.rows[id], t.scans.rows[id])
  }

  lemma AfterExpiry(principal: Principal, now: Time, s: State, id: Id, t: State)
    requires id in s.scans.rows && Dispatchable(principal, s.scans.rows[id])
    requires PollEffect(principal, now, MarkExpired(s, id, principal, now), t)
    ensures PollEffect(principal, now, s, t)
  {
    var u := MarkExpired(s, id, principal, now);
    hide Owns;
    assert t == s.(scans := t.scans, audit := t.audit);
    forall other | other in s.scans.rows ensures PollMoves(principal, now, s.scans.rows[other], t.scans.rows[other]) {
      assert PollMoves(principal, now, u.scans.rows[other], t.scans.rows[other]);
    }
  }

  lemma AfterDispatch(principal: Principal, now: Time, s: State, id: Id)
    requires id in s.scans.rows && Dispatchable(principal, s.scans.rows[id])
    ensures PollEffect(principal, now, s, MarkDispatched(s, id, principal, now))
  {
  }

  lemma NoPoll(principal: Principal, now: Time, s: State)
    ensures PollEffect(principal, now, s, s)
  {
  }

  lemma {:induction false} DispatchMoves(s: State, candidates: seq<Id>, principal: Principal, now: Time)
    requires forall id | id in candidates :: id in s.scans.rows
    ensures PollEffect(principal, now, s, DispatchFrom(s, candidates, principal, now).0)
    decreases |candidates|
  {
    hide JobDispatchEligibility, PollEffect, Dispatchable, MarkDispatched;
    if candidates == [] {
      NoPoll(principal, now, s);
    } else {
      var id := candidates[0];
      if !Dispatchable(principal, s.scans.rows[id]) {
        DispatchMoves(s, candidates[1..], principal, now);
      } else {
        match JobDispatchEligibility(s.scans.rows[id], principal.endpointId, now)
        case Lapsed =>
          var u := MarkExpired(s, id, principal, now);
          DispatchMoves(u, candidates[1..], principal, now);
          AfterExpiry(principal, now, s, id, DispatchFrom(u, candidates[1..], principal, now).0);
        case Eligible => AfterDispatch(principal, now, s, id);
        case _ => DispatchMoves(s, candidates[1..], principal, now);
      }
    }
  }

  /** A poll's effect on everything but the endpoint's last contact. */
  lemma PollChanges(s: State, principal: Principal, now: Time)
    ensures PollEffect(principal, now, Touch(s, principal, now), ClaimNextJob(s, principal, now).0)
  {
    DispatchMoves(Touch(s, principal, now), OldestFirst(s.scans), principal, now);
  }

  // ---------------------------------------------------------------- frames

  /** Every operation writes only these parts of the state. */
  ghost predicate Framed(s: State, t: State, op: Op) {
    match op
    case CreateGrant(_, _, _) => t == s.(grants := t.grants, audit := t.audit)
    case Enroll(_, _, _, _, _, _) =>
        t == s.(endpoints := t.endpoints, credentials := t.credentials, grants := t.grants, audit := t.audit)
    case Rotate(_, _, _, _, _, _, _) =>
        t == s.(endpoints := t.endpoints, credentials := t.credentials, audit := t.audit)
    case PollJob(_, _) => t == s.(endpoints := t.endpoints, scans := t.scans, audit := t.audit)
    case Ingest(_, _, _, _, _, _, _) =>
        t == s.(scans := t.scans, inventory := t.inventory, tasks := t.tasks, audit := t.audit)
    case ReportRejection(_, _, _, _, _) => t == s.(scans := t.scans, rejections := t.rejections, audit := t.audit)
    case ClaimTask(_, _, _, _) => t == s.(tasks := t.tasks)
    case CompleteTask(_, _, _, _) => t == s.(tasks := t.tasks)
    case FailTask(_, _, _, _, _, _) => t == s.(tasks := t.tasks)
    case _ => t == s.(scans := t.scans, audit := t.audit)
  }

  lemma PollFramed(s: State, principal: Principal, now: Time)
    ensures var t := ClaimNextJob(s, principal, now).0;
            t == s.(endpoints := t.endpoints, scans := t.scans, audit := t.audit)
  {
    hide ClaimNextJob;
    PollChanges(s, principal, now);
  }

  lemma IngestFramed(codec: Codec, s: State, principal: Principal, scanId: Id, upload: Upload, tasks: seq<Task>,
          now: Time)
    ensures var t := FreshIngest(codec, s, principal, scanId, upload, tasks, now).0;
            t == s.(scans := t.scans, inventory := t.inventory, tasks := t.tasks, audit := t.audit)
  {
    hide Reconstruct, ValidUpload, TaskFits, PutTasks, OwnedScan, Stored, Evidenced;
  }

  lemma IssuingFramed(codec: Codec, s: State, op: Op)
    requires op.CreateGrant? || op.Enroll? || op.Rotate?
    ensures Framed(s, Perform(codec, s, op).0, op)
  {
    hide CredentialNamed, GrantRefusal, Consume, Superseded;
  }

  lemma ScanFramed(codec: Codec, s: State, op: Op)
    requires op.CreateScan? || op.ReportStatus? || op.ReportRejection? || op.Finalize? || op.FinalizeFailure?
    ensures Framed(s, Perform(codec, s, op).0, op)
  {
    hide Owns, ValidStatus, RejectedScan, StatesOf, AllTerminal, SanitizeError;
  }

  lemma TaskFramed(codec: Codec, s: State, op: Op)
    requires op.ClaimTask? || op.CompleteTask? || op.FailTask?
    ensures Framed(s, Perform(codec, s, op).0, op)
  {
    hide SanitizeError, FirstClaimable, TaskOrder, ValidLease, Holds, Leased, Released;
  }

  lemma PerformFramed(codec: Codec, s: State, op: Op)
    ensures Framed(s, Perform(codec, s, op).0, op)
  {
    hide FreshIngest, ClaimNextJob;
    match op
    case PollJob(principal, now) => PollFramed(s, principal, now);
    case Ingest(principal, scanId, upload, tasks, now, _, _) =>
        IngestFramed(codec, s, principal, scanId, upload, tasks, now);
    case CreateGrant(_, _, _) => IssuingFramed(codec, s, op);
    case Enroll(_, _, _, _, _, _) => IssuingFramed(codec, s, op);
    case Rotate(_, _, _, _, _, _, _) => IssuingFramed(codec, s, op);
    case ClaimTask(_, _, _, _) => TaskFramed(codec, s, op);
    case CompleteTask(_, _, _, _) => TaskFramed(codec, s, op);
    case FailTask(_, _, _, _, _, _) => TaskFramed(codec, s, op);
    case _ => ScanFramed(codec, s, op);
  }

  lemma PollScans(s: State, principal: Principal, now: Time)
    ensures ScansMove(s, ClaimNextJob(s, principal, now).0)
    ensures ClaimNextJob(s, principal, now).0.scans.rows.Keys == s.scans.rows.Keys
    ensures ClaimNextJob(s, principal, now).0.tasks == s.tasks
  {
    hide ClaimNextJob;
    PollChanges(s, principal, now);
    var t := ClaimNextJob(s, principal, now).0;
    forall id | id in s.scans.rows ensures ScanMoves(s.scans.rows[id], t.scans.rows[id]) {
      assert PollMoves(principal, now, s.scans.rows[id], t.scans.rows[id]);
    }
  }

  lemma IngestScans(codec: Codec, s: State, principal: Principal, scanId: Id, upload: Upload, tasks: seq<Task>,
          now: Time)
    ensures var t := FreshIngest(codec, s, principal, scanId, upload, tasks, now).0;
            || t.scans == s.scans
            || (scanId in s.scans.rows && scanId in t.scans.rows
                && t.scans == s.scans.Put(scanId, t.scans.rows[scanId])
                   && ReceivesEvidence(s.scans.rows[scanId], t.scans.rows[scanId]))
  {
    hide Reconstruct, NamesScan, ProvenanceMatches, TaskFits, PutTasks, Owns, Stored;
  }

  lemma StatusScans(s: State, principal: Principal, scanId: Id, status: Document, now: Time)
    ensures var t := FreshStatus(s, principal, scanId, status, now).0;
            || t.scans == s.scans
            || (scanId in s.scans.rows && scanId in t.scans.rows
                && t.scans == s.scans.Put(scanId, t.scans.rows[scanId])
                   && ReceivesStatus(s.scans.rows[scanId], t.scans.rows[scanId]))
  {
    hide ValidStatus, Owns;
  }

  lemma RejectionScans(s: State, principal: Principal, notice: RejectionNotice, now: Time)
    ensures var t, target := FreshRejection(s, principal, notice, now).0, RejectedScan(notice);
            || t.scans == s.scans
            || (target.Some? && target.value in s.scans.rows && target.value in t.scans.rows
                && t.scans == s.scans.Put(target.value, t.scans.rows[target.value])
                && IsRejected(s.scans.rows[target.value], t.scans.rows[target.value]))
  {
    hide Owns;
  }

  lemma ReportScans(s: State, scanId: Id, report: Report, now: Time)
    ensures var t := FinalizeScanReport(s, scanId, report, now).0;
            || t.scans == s.scans
            || (scanId in s.scans.rows && scanId in t.scans.rows
                && t.scans == s.scans.Put(scanId, t.scans.rows[scanId])
                   && ReceivesReport(s.scans.rows[scanId], t.scans.rows[scanId]))
  {
    hide StatesOf, AllTerminal;
  }

  lemma FailureScans(s: State, scanId: Id, error: string, now: Time)
    ensures var t := FinalizeScanReportFailure(s, scanId, error, now).0;
            || t.scans == s.scans
            || (scanId in s.scans.rows && scanId in t.scans.rows
                && t.scans == s.scans.Put(scanId, t.scans.rows[scanId])
                   && ReceivesReport(s.scans.rows[scanId], t.scans.rows[scanId]))
  {
    hide SanitizeError;
  }

  lemma OneScanMoves(s: State, t: State, id: Id)
    requires id in s.scans.rows && id in t.scans.rows && t.scans == s.scans.Put(id, t.scans.rows[id])
    requires ScanMoves(s.scans.rows[id], t.scans.rows[id])
    ensures ScansMove(s, t) && t.scans.rows.Keys == s.scans.rows.Keys
  {
    hide WasDispatched, Expires, ReceivesEvidence, ReceivesStatus, IsRejected, ReceivesReport;
  }

  /** Authorizing a scan adds it; nothing else adds one. */
  ghost predicate AddsOnly(s: State, t: State, op: Op) {
    forall id | id in t.scans.rows && id !in s.scans.rows ::
        op.CreateScan? && id == op.record.scanId && t.scans.rows[id] == op.record
  }

  lemma SameScans(s: State, t: State, op: Op)
    requires t.scans == s.scans
    ensures ScansMove(s, t) && AddsOnly(s, t, op)
  {
  }

  lemma FreshScanMoves(s: State, op: Op)
    requires op.CreateScan?
    ensures ScansMove(s, FreshScan(s, op.tenantId, op.record).0)
            && AddsOnly(s, FreshScan(s, op.tenantId, op.record).0, op)
  {
    hide WasDispatched, Expires, ReceivesEvidence, ReceivesStatus, IsRejected, ReceivesReport;
  }

  lemma OtherScans(codec: Codec, s: State, op: Op)
    requires op.CreateGrant? || op.Enroll? || op.Rotate? || op.ClaimTask? || op.CompleteTask? || op.FailTask?
    ensures Perform(codec, s, op).0.scans == s.scans
  {
    hide Perform;
    PerformFramed(codec, s, op);
  }

  lemma PerformMovesScans(codec: Codec, s: State, op: Op)
    ensures ScansMove(s, Perform(codec, s, op).0) && AddsOnly(s, Perform(codec, s, op).0, op)
  {
    hide ScansMove, ReceivesEvidence, ReceivesStatus, IsRejected, ReceivesReport, WasDispatched, Expires;
    hide ClaimNextJob, FreshIngest, FreshStatus, FreshRejection, FreshScan, FinalizeScanReport;
    hide FinalizeScanReportFailure;
    hide FreshGrant, FreshEnrollment, FreshRotation, ClaimAnalysisTask, CompleteAnalysisTask, FailAnalysisTask;
    var t := Perform(codec, s, op).0;
    if t.scans == s.scans { SameScans(s, t, op); return; }
    match op
    case PollJob(principal, now) => PollScans(s, principal, now);
    case CreateScan(_, _, _, _) => FreshScanMoves(s, op);
    case Ingest(principal, scanId, upload, tasks, now, _, _) =>
      IngestScans(codec, s, principal, scanId, upload, tasks, now);
      OneScanMoves(s, t, scanId);
    case ReportStatus(principal, scanId, status, now, _, _) =>
      StatusScans(s, principal, scanId, status, now);
      OneScanMoves(s, t, scanId);
    case ReportRejection(principal, notice, now, _, _) =>
      RejectionScans(s, principal, notice, now);
      OneScanMoves(s, t, RejectedScan(notice).value);
    case Finalize(scanId, report, now) =>
      ReportScans(s, scanId, FinalReport(report), now);
      OneScanMoves(s, t, scanId);
    case FinalizeFailure(scanId, error, now) =>
      FailureScans(s, scanId, error, now);
      OneScanMoves(s, t, scanId);
    case _ => OtherScans(codec, s, op);
  }

  lemma IngestPerforms(codec: Codec, s: State, op: Op)
    requires op.Ingest?
    ensures Perform(codec, s, op) == FreshIngest(codec, s, op.principal, op.scanId, op.upload, op.tasks, op.now)
  {
    hide FreshIngest;
  }

  lemma PollPerforms(codec: Codec, s: State, op: Op)
    requires op.PollJob?
    ensures Perform(codec, s, op) == ClaimNextJob(s, op.principal, op.now)
  {
    hide ClaimNextJob;
  }

  /** The effect of a step on the records is that of the operation, or none. */
  lemma StepPerforms(codec: Codec, s: State, op: Op)
    ensures var t := Step(codec, s, op).0;
            t == s || t == Perform(codec, s, op).0.(answered := t.answered)
  {
    hide Perform;
  }

  /** Whatever the operation, every scan moves along the lifecycle, and only an authorization adds one. */
  lemma StepMovesScans(codec: Codec, s: State, op: Op)
    ensures ScansMove(s, Step(codec, s, op).0) && AddsOnly(s, Step(codec, s, op).0, op)
  {
    hide Perform, Step, ScanMoves;
    StepPerforms(codec, s, op);
    PerformMovesScans(codec, s, op);
    SameScans(s, s, op);
  }

  // ---------------------------------------------------------------- tasks

  ghost predicate IsClaimed(a: Task, b: Task) {
    && (a.state == Pending || a.state == Retry || a.state == Running) && b.leasedBy.Some? && b.leaseExpiresAt.Some?
    && b == a.(state := Running, attempts := a.attempts + 1, leasedBy := b.leasedBy,
       leaseExpiresAt := b.leaseExpiresAt, updatedAt := b.updatedAt)
  }

  ghost predicate Completes(a: Task, b: Task) {
    && a.state == Running && b.result.Some?
    && b == Released(a, b.updatedAt).(state := Succeeded, result := b.result)
  }

  ghost predicate Fails(a: Task, b: Task) {
    && a.state == Running && (b.state == Failed || b.state == Retry) && b.lastError.Some? && b.lastError.value != ""
    && b == Released(a, b.updatedAt).(state := b.state, availableAt := b.availableAt, lastError := b.lastError)
  }

  /** Everything one step can do to a task. */
  ghost predicate TaskMoves(a: Task, b: Task) {
    a == b || IsClaimed(a, b) || Completes(a, b) || Fails(a, b)
  }

  ghost predicate TasksMove(s: State, t: State) {
    && s.tasks.order <= t.tasks.order
    && forall id | id in s.tasks.rows :: id in t.tasks.rows && TaskMoves(s.tasks.rows[id], t.tasks.rows[id])
  }

  /** The step accepted evidence for a scan, and with it the scan's tasks. */
  ghost predicate Ingested(s: State, t: State, op: Op) {
    && op.Ingest? && OwnedScan(s, op.principal, op.scanId) && op.scanId in t.scans.rows
    && ReceivesEvidence(s.scans.rows[op.scanId], t.scans.rows[op.scanId])
    && (forall task | task in op.tasks :: TaskFits(s, task, op.principal, op.scanId))
    && t.tasks == PutTasks(s.tasks, op.tasks)
    && t.scans == s.scans.Put(op.scanId, t.scans.rows[op.scanId])
  }

  /** Only accepted evidence adds tasks. */
  ghost predicate TasksAdded(s: State, t: State, op: Op) {
    (t.tasks.rows.Keys == s.tasks.rows.Keys && t.tasks.order == s.tasks.order) || Ingested(s, t, op)
  }

  ghost predicate Names(added: seq<Task>, id: Id) {
    exists task :: task in added && task.taskId == id
  }

  lemma NamesIt(added: seq<Task>, task: Task)
    requires task in added
    ensures Names(added, task.taskId)
  {
  }

  /** What the row of one identifier is after adding tasks. */
  lemma {:induction false} PutTasksRow(tasks: Table<Task>, added: seq<Task>, id: Id)
    ensures var r := PutTasks(tasks, added);
            && tasks.order <= r.order
            && if Names(added, id) then id in r.rows && r.rows[id] in added && r.rows[id].taskId == id
               else (id in r.rows <==> id in tasks.rows) && (id in r.rows ==> r.rows[id] == tasks.rows[id])
    decreases |added|
  {
    if added == [] {
    } else {
      assert forall task :: task in added <==> task == added[0] || task in added[1..];
      assert Names(added, id) <==> added[0].taskId == id || Names(added[1..], id);
      PutTasksRow(tasks.Put(added[0].taskId, added[0]), added[1..], id);
    }
  }

  lemma PutTasksContents(tasks: Table<Task>, added: seq<Task>)
    ensures var r := PutTasks(tasks, added);
            && tasks.order <= r.order
            && (forall id | id in tasks.rows && !Names(added, id) :: id in r.rows && r.rows[id] == tasks.rows[id])
            && (forall id | id in r.rows && id !in tasks.rows :: r.rows[id] in added && r.rows[id].taskId == id)
            && (forall id | id in r.rows && !(id in tasks.rows && r.rows[id] == tasks.rows[id]) :: Names(added, id))
            && (forall task | task in added :: task.taskId in r.rows)
  {
    hide PutTasks, Names;
    var r := PutTasks(tasks, added);
    PutTasksRow(tasks, added, "");
    forall id | id in tasks.rows && !Names(added, id) ensures id in r.rows && r.rows[id] == tasks.rows[id] {
      PutTasksRow(tasks, added, id);
    }
    forall id | id in r.rows && id !in tasks.rows ensures r.rows[id] in added && r.rows[id].taskId == id {
      PutTasksRow(tasks, added, id);
    }
    forall id | id in r.rows && !(id in tasks.rows && r.rows[id] == tasks.rows[id]) ensures Names(added, id) {
      PutTasksRow(tasks, added, id);
    }
    forall task | task in added ensures task.taskId in r.rows {
      NamesIt(added, task);
      PutTasksRow(tasks, added, task.taskId);
    }
  }

  lemma OneTaskMoves(s: State, t: State, id: Id)
    requires id in s.tasks.rows && id in t.tasks.rows && t.tasks == s.tasks.Put(id, t.tasks.rows[id])
    requires TaskMoves(s.tasks.rows[id], t.tasks.rows[id])
    ensures TasksMove(s, t) && t.tasks.rows.Keys == s.tasks.rows.Keys && t.tasks.order == s.tasks.order
  {
    hide IsClaimed, Completes, Fails;
  }

  lemma SameTasks(s: State, t: State, op: Op)
    requires t.tasks == s.tasks
    ensures TasksMove(s, t) && TasksAdded(s, t, op)
  {
  }

  /** Adding tasks under new identifiers leaves the others alone. */
  lemma NewTasksMove(s: State, t: State, added: seq<Task>)
    requires t.tasks == PutTasks(s.tasks, added) && forall task | task in added :: task.taskId !in s.tasks.rows
    ensures TasksMove(s, t)
  {
    hide IsClaimed, Completes, Fails, PutTasks;
    PutTasksContents(s.tasks, added);
  }

  lemma IngestAccepts(codec: Codec, s: State, principal: Principal, scanId: Id, upload: Upload, tasks: seq<Task>,
          now: Time)
    ensures var (t, outcome) := FreshIngest(codec, s, principal, scanId, upload, tasks, now);
            if outcome.Ok? then
              && OwnedScan(s, principal, scanId) && s.scans.rows[scanId].upload.None?
              && (forall task | task in tasks :: TaskFits(s, task, principal, scanId))
              && t.tasks == PutTasks(s.tasks, tasks)
              && scanId in t.scans.rows && t.scans.rows[scanId].upload.Some?
              && t.scans == s.scans.Put(scanId, t.scans.rows[scanId])
            else t == s
  {
    hide Reconstruct, NamesScan, ProvenanceMatches, TaskFits, PutTasks, Owns, Stored;
  }

  lemma IngestTasks(codec: Codec, s: State, op: Op)
    requires op.Ingest?
    ensures var t := FreshIngest(codec, s, op.principal, op.scanId, op.upload, op.tasks, op.now).0;
            t.tasks == s.tasks || (Ingested(s, t, op) && TasksMove(s, t))
  {
    hide ReceivesEvidence, FreshIngest, PutTasks, TasksMove;
    var t := FreshIngest(codec, s, op.principal, op.scanId, op.upload, op.tasks, op.now).0;
    if t.tasks != s.tasks {
      IngestAccepts(codec, s, op.principal, op.scanId, op.upload, op.tasks, op.now);
      IngestScans(codec, s, op.principal, op.scanId, op.upload, op.tasks, op.now);
      NewTasksMove(s, t, op.tasks);
    }
  }

  lemma ClaimTasks(s: State, kind: Kind, workerId: Id, leaseSeconds: int, now: Time)
    ensures var t := ClaimAnalysisTask(s, kind, workerId, leaseSeconds, now).0;
            t.tasks == s.tasks ||
            exists id :: id in s.tasks.rows && Claimable(s.tasks.rows[id], kind, now)
                && ValidLease(workerId, leaseSeconds)
                         && t.tasks == s.tasks.Put(id, Leased(s.tasks.rows[id], workerId, leaseSeconds, now))
                         && ClaimAnalysisTask(s, kind, workerId, leaseSeconds, now).1 == Ok(TaskReply(t.tasks.rows[id]))
  {
    hide FirstClaimable, TaskOrder;
  }

  lemma LeasedIsClaimed(task: Task, kind: Kind, workerId: Id, leaseSeconds: int, now: Time)
    requires Claimable(task, kind, now)
    ensures IsClaimed(task, Leased(task, workerId, leaseSeconds, now))
  {
  }

  /** A stored error is short printable text, and the given one if that was. */
  lemma SanitizedErrors(error: string)
    ensures 1 <= |SanitizeError(error)| <= 512
    ensures forall i | 0 <= i < |SanitizeError(error)| :: SanitizeError(error)[i] as int >= 32
    ensures 1 <= |error| <= 512 && (forall i | 0 <= i < |error| :: error[i] as int >= 32)
            ==> SanitizeError(error) == error
  {
  }

  lemma ReleaseTasks(codec: Codec, s: State, op: Op)
    requires op.CompleteTask? || op.FailTask?
    ensures var t := Perform(codec, s, op).0;
            || t.tasks == s.tasks
            || (op.taskId in s.tasks.rows && op.taskId in t.tasks.rows && Holds(s.tasks.rows[op.taskId], op.workerId)
                && t.tasks == s.tasks.Put(op.taskId, t.tasks.rows[op.taskId])
                && (if op.CompleteTask? then Completes(s.tasks.rows[op.taskId], t.tasks.rows[op.taskId])
                    else Fails(s.tasks.rows[op.taskId], t.tasks.rows[op.taskId])))
  {
    if op.FailTask? { SanitizedErrors(op.error); }
    hide SanitizeError;
  }

  lemma OtherTasks(codec: Codec, s: State, op: Op)
    requires !op.Ingest? && !op.ClaimTask? && !op.CompleteTask? && !op.FailTask?
    ensures Perform(codec, s, op).0.tasks == s.tasks
  {
    hide Perform;
    PerformFramed(codec, s, op);
  }

  lemma PerformMovesTasks(codec: Codec, s: State, op: Op)
    ensures TasksMove(s, Perform(codec, s, op).0) && TasksAdded(s, Perform(codec, s, op).0, op)
  {
    hide TasksMove, Ingested, Completes, Fails, IsClaimed;
    hide FreshIngest, CompleteAnalysisTask, FailAnalysisTask, ClaimAnalysisTask;
    hide FreshGrant, FreshEnrollment, FreshRotation, ClaimNextJob, FreshStatus, FreshRejection, FreshScan;
    hide FinalizeScanReport, FinalizeScanReportFailure;
    var t := Perform(codec, s, op).0;
    if t.tasks == s.tasks { SameTasks(s, t, op); return; }
    match op
    case Ingest(_, _, _, _, _, _, _) => IngestTasks(codec, s, op);
    case ClaimTask(kind, workerId, leaseSeconds, now) =>
      ClaimTasks(s, kind, workerId, leaseSeconds, now);
      var id :| id in s.tasks.rows && Claimable(s.tasks.rows[id], kind, now)
                && t.tasks == s.tasks.Put(id, Leased(s.tasks.rows[id], workerId, leaseSeconds, now));
      LeasedIsClaimed(s.tasks.rows[id], kind, workerId, leaseSeconds, now);
      OneTaskMoves(s, t, id);
    case CompleteTask(_, _, _, _) => ReleaseTasks(codec, s, op); OneTaskMoves(s, t, op.taskId);
    case FailTask(_, _, _, _, _, _) => ReleaseTasks(codec, s, op); OneTaskMoves(s, t, op.taskId);
    case _ => OtherTasks(codec, s, op);
  }

  /** Whatever the operation, every task moves along its own lifecycle, and only accepted evidence adds tasks. */
  lemma StepMovesTasks(codec: Codec, s: State, op: Op)
    ensures TasksMove(s, Step(codec, s, op).0) && TasksAdded(s, Step(codec, s, op).0, op)
  {
    hide Perform, Step, TaskMoves, ReceivesEvidence, PutTasks, OwnedScan, TaskFits;
    StepPerforms(codec, s, op);
    PerformMovesTasks(codec, s, op);
    SameTasks(s, s, op);
  }
}
