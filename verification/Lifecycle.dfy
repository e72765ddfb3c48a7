/** What holds of every scan and every task after any run of the control plane. */
module Lifecycle {
  import opened Prelude
  import opened OrderedDict
  import opened Records
  import opened Inventory
  import opened ControlPlane
  import opened Callers
  import opened Transitions

  // ---------------------------------------------------------------- scans

  ghost predicate StatusMatches(status: Document, upload: Upload) {
    upload.result.Some? && forall name | name in STATUS_FIELDS :: Read(status, name) == Read(upload.result.value, name)
  }

  ghost predicate ScanSound(id: Id, r: Scan) {
    && r.scanId == id
    && (r.state == Queued || r.state == Dispatched || r.state == Expired ==> r.upload.None?)
    && (r.state == Analyzing ==> r.upload.Some? && r.finalReport.None?)
    && (r.state == Complete ==> r.finalReport.Some?)
    && (r.finalReport.Some? ==> r.state == Complete || r.state == Rejected)
    && (r.upload.Some? ==> BoundTo(r, r.upload.value))
    && (r.terminalStatus.Some? ==> r.upload.Some? && StatusMatches(r.terminalStatus.value, r.upload.value))
  }

  /** What a scan keeps forever: its identity and job, and whatever evidence, status or report it has. */
  ghost predicate Keeps(a: Scan, b: Scan) {
    && b.tenantId == a.tenantId && b.endpointId == a.endpointId && b.scanId == a.scanId
    && b.jobId == a.jobId && b.job == a.job && b.createdAt == a.createdAt
    && (a.upload.Some? ==> b.upload == a.upload)
    && (a.terminalStatus.Some? ==> b.terminalStatus == a.terminalStatus)
    && (a.finalReport.Some? ==> b.finalReport == a.finalReport)
  }

  lemma MovesKeepScan(id: Id, a: Scan, b: Scan)
    requires ScanMoves(a, b) && ScanSound(id, a)
    ensures ScanSound(id, b)
  {
    hide ProvenanceMatches, Read;
  }

  lemma MovesKeep(a: Scan, b: Scan)
    requires ScanMoves(a, b)
    ensures Keeps(a, b)
  {
  }

  /** Write-once: over any run, from any state, no evidence, status or report of a scan is ever replaced. */
  lemma {:induction false} WriteOnce(codec: Codec, s: State, ops: seq<Op>, id: Id)
    requires id in s.scans.rows
    ensures id in Run(codec, s, ops).scans.rows && Keeps(s.scans.rows[id], Run(codec, s, ops).scans.rows[id])
    decreases |ops|
  {
    hide Step, ScanMoves;
    if ops == [] {
    } else {
      var t := Step(codec, s, ops[0]).0;
      StepMovesScans(codec, s, ops[0]);
      MovesKeep(s.scans.rows[id], t.scans.rows[id]);
      WriteOnce(codec, t, ops[1..], id);
    }
  }

  // ---------------------------------------------------------------- tasks

  ghost predicate TaskSound(id: Id, t: Task) {
    && t.taskId == id
    && (t.state == Running <==> t.leasedBy.Some?)
    && (t.state == Running <==> t.leaseExpiresAt.Some?)
    && (t.state == Succeeded <==> t.result.Some?)
    && (t.state == Pending <==> t.attempts == 0) && t.attempts >= 0
    && (t.state == Retry || t.state == Failed ==> t.lastError.Some? && t.lastError.value != "")
  }

  lemma MovesKeepTask(id: Id, a: Task, b: Task)
    requires TaskMoves(a, b) && TaskSound(id, a)
    ensures TaskSound(id, b) && (Terminal(a) ==> b == a)
    ensures b.scanId == a.scanId && b.kind == a.kind && b.tenantId == a.tenantId && b.endpointId == a.endpointId
            && b.createdAt == a.createdAt
    ensures b.attempts >= a.attempts
  {
  }

  lemma TerminalStays(a: Task, b: Task)
    requires TaskMoves(a, b) && Terminal(a)
    ensures a == b
  {
  }

  /** A finished task never changes again. */
  lemma {:induction false} TerminalForever(codec: Codec, s: State, ops: seq<Op>, id: Id)
    requires id in s.tasks.rows && Terminal(s.tasks.rows[id])
    ensures id in Run(codec, s, ops).tasks.rows && Run(codec, s, ops).tasks.rows[id] == s.tasks.rows[id]
    decreases |ops|
  {
    hide Step, TaskMoves, TasksAdded;
    if ops == [] {
    } else {
      var t := Step(codec, s, ops[0]).0;
      StepMovesTasks(codec, s, ops[0]);
      TerminalStays(s.tasks.rows[id], t.tasks.rows[id]);
      TerminalForever(codec, t, ops[1..], id);
    }
  }

  // ---------------------------------------------------------------- the whole state

  /** The task belongs to a scan with evidence, of the same tenant and endpoint. */
  ghost predicate Belongs(scans: map<Id, Scan>, t: Task) {
    && t.scanId in scans && scans[t.scanId].upload.Some?
    && t.tenantId == scans[t.scanId].tenantId && t.endpointId == scans[t.scanId].endpointId
  }

  ghost predicate HasTask(tasks: map<Id, Task>, scanId: Id, kind: Kind) {
    exists id :: id in tasks && tasks[id].scanId == scanId && tasks[id].kind == kind
  }

  ghost predicate ScansSound(scans: map<Id, Scan>) {
    forall id | id in scans :: ScanSound(id, scans[id])
  }

  ghost predicate TasksSound(scans: map<Id, Scan>, tasks: map<Id, Task>) {
    forall id | id in tasks :: TaskSound(id, tasks[id]) && Belongs(scans, tasks[id])
  }

  ghost predicate OnePerKind(tasks: map<Id, Task>) {
    forall i, j | i in tasks && j in tasks && tasks[i].scanId == tasks[j].scanId && tasks[i].kind == tasks[j].kind ::
        i == j
  }

  ghost predicate BothKinds(scans: map<Id, Scan>, tasks: map<Id, Task>) {
    forall id | id in scans && scans[id].upload.Some? :: HasTask(tasks, id, Osv) && HasTask(tasks, id, DepScan)
  }

  ghost predicate Sound(s: State) {
    && ScansSound(s.scans.rows) && TasksSound(s.scans.rows, s.tasks.rows)
    && OnePerKind(s.tasks.rows) && BothKinds(s.scans.rows, s.tasks.rows)
  }

  lemma StepKeepsScans(codec: Codec, s: State, op: Op)
    requires ScansSound(s.scans.rows) && WellFormed(op)
    ensures ScansSound(Step(codec, s, op).0.scans.rows)
  {
    hide Step, ScanMoves;
    StepMovesScans(codec, s, op);
    var t := Step(codec, s, op).0;
    forall id | id in t.scans.rows ensures ScanSound(id, t.scans.rows[id]) {
      if id in s.scans.rows { MovesKeepScan(id, s.scans.rows[id], t.scans.rows[id]); }
    }
  }

  /** Scans that only move keep their tasks. */
  lemma BelongsStill(s: State, t: State, task: Task)
    requires ScansMove(s, t) && Belongs(s.scans.rows, task)
    ensures Belongs(t.scans.rows, task)
  {
    hide ScanMoves;
    MovesKeep(s.scans.rows[task.scanId], t.scans.rows[task.scanId]);
  }

  lemma IngestedTasks(s: State, t: State, op: Op)
    requires Ingested(s, t, op)
    ensures op.Ingest? && op.scanId in t.scans.rows && t.tasks == PutTasks(s.tasks, op.tasks)
    ensures forall task | task in op.tasks :: Belongs(t.scans.rows, task)
  {
    hide PutTasks;
  }

  lemma NewTaskSound(tasks: seq<Task>, task: Task)
    requires NewTasks(tasks) && task in tasks
    ensures TaskSound(task.taskId, task)
    ensures forall other | other in tasks && other.kind == task.kind :: other == task
  {
  }

  lemma IngestOp(s: State, t: State, op: Op)
    requires Ingested(s, t, op) && WellFormed(op)
    ensures op.Ingest? && NewTasks(op.tasks) && s.scans.rows.Keys == t.scans.rows.Keys
    ensures op.scanId in s.scans.rows && s.scans.rows[op.scanId].upload.None? && t.scans.rows[op.scanId].upload.Some?
    ensures forall id | id in s.scans.rows && id != op.scanId :: t.scans.rows[id] == s.scans.rows[id]
    ensures forall task | task in op.tasks :: task.scanId == op.scanId && task.taskId !in s.tasks.rows
  {
    hide PutTasks;
  }

  /** A task added with evidence is new and belongs to the scan that received it. */
  lemma AddedBelongs(s: State, t: State, op: Op, id: Id)
    requires Ingested(s, t, op) && WellFormed(op) && id in t.tasks.rows && id !in s.tasks.rows
    ensures op.Ingest? && t.tasks.rows[id] in op.tasks && t.tasks.rows[id].scanId == op.scanId
            && t.tasks.rows[id].taskId == id
    ensures TaskSound(id, t.tasks.rows[id]) && Belongs(t.scans.rows, t.tasks.rows[id])
  {
    hide PutTasks, Belongs, TaskSound, Ingested;
    IngestOp(s, t, op);
    IngestedTasks(s, t, op);
    PutTasksContents(s.tasks, op.tasks);
    var task := t.tasks.rows[id];
    NewTaskSound(op.tasks, task);
    assert Belongs(t.scans.rows, task);
  }

  lemma BelongsByName(scans: map<Id, Scan>, a: Task, b: Task)
    requires Belongs(scans, a) && b.scanId == a.scanId && b.tenantId == a.tenantId && b.endpointId == a.endpointId
    ensures Belongs(scans, b)
  {
  }

  lemma StepKeepsTasks(codec: Codec, s: State, op: Op)
    requires TasksSound(s.scans.rows, s.tasks.rows) && WellFormed(op)
    ensures TasksSound(Step(codec, s, op).0.scans.rows, Step(codec, s, op).0.tasks.rows)
  {
    hide Step, TaskMoves, ScansMove, Ingested, Belongs, TaskSound;
    StepMovesScans(codec, s, op);
    StepMovesTasks(codec, s, op);
    var t := Step(codec, s, op).0;
    forall id | id in t.tasks.rows ensures TaskSound(id, t.tasks.rows[id]) && Belongs(t.scans.rows, t.tasks.rows[id]) {
      if id in s.tasks.rows {
        MovesKeepTask(id, s.tasks.rows[id], t.tasks.rows[id]);
        BelongsStill(s, t, s.tasks.rows[id]);
        BelongsByName(t.scans.rows, s.tasks.rows[id], t.tasks.rows[id]);
      } else {
        IngestOp(s, t, op);
        AddedBelongs(s, t, op, id);
      }
    }
  }

  /** Tasks keep their scan and kind. */
  lemma SameScanAndKind(s: State, t: State, id: Id)
    requires TasksMove(s, t) && id in s.tasks.rows
    ensures id in t.tasks.rows && t.tasks.rows[id].scanId == s.tasks.rows[id].scanId
            && t.tasks.rows[id].kind == s.tasks.rows[id].kind
  {
  }

  lemma StepKeepsOnePerKind(codec: Codec, s: State, op: Op)
    requires TasksSound(s.scans.rows, s.tasks.rows) && OnePerKind(s.tasks.rows) && WellFormed(op)
    ensures OnePerKind(Step(codec, s, op).0.tasks.rows)
  {
    hide Step, Ingested, TaskSound, TasksMove;
    StepMovesTasks(codec, s, op);
    var t := Step(codec, s, op).0;
    forall i, j | i in t.tasks.rows && j in t.tasks.rows && t.tasks.rows[i].scanId == t.tasks.rows[j].scanId
                  && t.tasks.rows[i].kind == t.tasks.rows[j].kind
      ensures i == j
    {
      if i in s.tasks.rows { SameScanAndKind(s, t, i); }
      if j in s.tasks.rows { SameScanAndKind(s, t, j); }
      if i !in s.tasks.rows || j !in s.tasks.rows {
        IngestOp(s, t, op);
        if i !in s.tasks.rows { AddedBelongs(s, t, op, i); NewTaskSound(op.tasks, t.tasks.rows[i]); }
        if j !in s.tasks.rows { AddedBelongs(s, t, op, j); NewTaskSound(op.tasks, t.tasks.rows[j]); }
      }
    }
  }

  lemma HasTaskStill(s: State, t: State, scanId: Id, kind: Kind)
    requires TasksMove(s, t) && HasTask(s.tasks.rows, scanId, kind)
    ensures HasTask(t.tasks.rows, scanId, kind)
  {
    hide TasksMove;
    var id :| id in s.tasks.rows && s.tasks.rows[id].scanId == scanId && s.tasks.rows[id].kind == kind;
    SameScanAndKind(s, t, id);
  }

  lemma PutBoth(s: State, t: State, tasks: seq<Task>, id: Id)
    requires NewTasks(tasks) && t.tasks == PutTasks(s.tasks, tasks) && forall task | task in tasks ::
             task.scanId == id && task.taskId !in s.tasks.rows
    ensures HasTask(t.tasks.rows, id, Osv) && HasTask(t.tasks.rows, id, DepScan)
  {
    hide PutTasks;
    PutTasksContents(s.tasks, tasks);
    forall k: nat | k < 2 ensures HasTask(t.tasks.rows, id, tasks[k].kind) {
      var task := tasks[k];
      assert task in tasks && task.taskId in t.tasks.rows && t.tasks.rows[task.taskId] in tasks;
      assert t.tasks.rows[task.taskId].taskId == task.taskId;
    }
    assert tasks[0].kind == Osv && tasks[1].kind == DepScan;
  }

  ghost predicate SameUploads(s: State, t: State) {
    forall id | id in s.scans.rows :: id in t.scans.rows && t.scans.rows[id].upload == s.scans.rows[id].upload
  }

  lemma PutKeepsUploads(s: State, t: State, id: Id)
    requires id in s.scans.rows && id in t.scans.rows && t.scans == s.scans.Put(id, t.scans.rows[id])
    requires var a, b := s.scans.rows[id], t.scans.rows[id];
             ReceivesStatus(a, b) || IsRejected(a, b) || ReceivesReport(a, b)
    ensures SameUploads(s, t)
  {
    hide ValidStatus;
  }

  lemma PollKeepsUploads(s: State, principal: Principal, now: Time)
    ensures SameUploads(s, ClaimNextJob(s, principal, now).0)
  {
    hide ClaimNextJob;
    PollChanges(s, principal, now);
    var t := ClaimNextJob(s, principal, now).0;
    forall id | id in s.scans.rows ensures t.scans.rows[id].upload == s.scans.rows[id].upload {
      assert PollMoves(principal, now, s.scans.rows[id], t.scans.rows[id]);
    }
  }

  lemma NoOtherUploads(codec: Codec, s: State, op: Op)
    requires !op.Ingest?
    ensures SameUploads(s, Perform(codec, s, op).0)
  {
    hide ClaimNextJob, FreshStatus, FreshRejection, FinalizeScanReport, FinalizeScanReportFailure, ReceivesStatus;
    hide IsRejected, ReceivesReport;
    hide FreshGrant, FreshEnrollment, FreshRotation, ClaimAnalysisTask, CompleteAnalysisTask, FailAnalysisTask;
    var t := Perform(codec, s, op).0;
    if t.scans == s.scans { return; }
    match op
    case PollJob(principal, now) => PollKeepsUploads(s, principal, now);
    case CreateScan(_, _, _, _) =>
    case ReportStatus(principal, scanId, status, now, _, _) => StatusScans(s, principal, scanId, status, now);
        PutKeepsUploads(s, t, scanId);
    case ReportRejection(principal, notice, now, _, _) =>
      RejectionScans(s, principal, notice, now);
      PutKeepsUploads(s, t, RejectedScan(notice).value);
    case Finalize(scanId, report, now) => ReportScans(s, scanId, FinalReport(report), now);
        PutKeepsUploads(s, t, scanId);
    case FinalizeFailure(scanId, error, now) => FailureScans(s, scanId, error, now); PutKeepsUploads(s, t, scanId);
    case _ => OtherScans(codec, s, op);
  }

  lemma OnlyIngestUploads(codec: Codec, s: State, op: Op, id: Id)
    requires id in s.scans.rows && s.scans.rows[id].upload.None?
    requires var t := Perform(codec, s, op).0; id in t.scans.rows && t.scans.rows[id].upload.Some?
    ensures op.Ingest? && op.scanId == id && Perform(codec, s, op)
            == FreshIngest(codec, s, op.principal, op.scanId, op.upload, op.tasks, op.now)
    ensures Perform(codec, s, op).1.Ok?
  {
    hide FreshIngest;
    if op.Ingest? {
      IngestAccepts(codec, s, op.principal, op.scanId, op.upload, op.tasks, op.now);
    } else {
      hide Perform;
      NoOtherUploads(codec, s, op);
      assert false;
    }
  }

  /** A scan that gets its evidence in this step gets both tasks with it. */
  lemma EvidenceBringsTasks(codec: Codec, s: State, op: Op, id: Id)
    requires WellFormed(op) && id in s.scans.rows && s.scans.rows[id].upload.None?
    requires var t := Step(codec, s, op).0; id in t.scans.rows && t.scans.rows[id].upload.Some?
    ensures var t := Step(codec, s, op).0; HasTask(t.tasks.rows, id, Osv) && HasTask(t.tasks.rows, id, DepScan)
  {
    hide Perform, Step, PutTasks, FreshIngest;
    StepPerforms(codec, s, op);
    var t := Step(codec, s, op).0;
    OnlyIngestUploads(codec, s, op, id);
    IngestAccepts(codec, s, op.principal, op.scanId, op.upload, op.tasks, op.now);
    PutBoth(s, t, op.tasks, id);
  }

  lemma StepKeepsBothKinds(codec: Codec, s: State, op: Op)
    requires BothKinds(s.scans.rows, s.tasks.rows) && WellFormed(op)
    ensures BothKinds(Step(codec, s, op).0.scans.rows, Step(codec, s, op).0.tasks.rows)
  {
    hide Step, Ingested, TasksMove, ScanMoves, HasTask;
    StepMovesScans(codec, s, op);
    StepMovesTasks(codec, s, op);
    var t := Step(codec, s, op).0;
    forall id | id in t.scans.rows && t.scans.rows[id].upload.Some?
      ensures HasTask(t.tasks.rows, id, Osv) && HasTask(t.tasks.rows, id, DepScan)
    {
      if id in s.scans.rows && s.scans.rows[id].upload.Some? {
        HasTaskStill(s, t, id, Osv);
        HasTaskStill(s, t, id, DepScan);
      } else if id in s.scans.rows {
        EvidenceBringsTasks(codec, s, op, id);
      }
    }
  }

  /**
   * Evidence is accepted exactly when the endpoint owns the scan, it is dispatched and has no evidence yet, the
   * evidence is in time and bound to it, the inventory can be rebuilt, and the tasks are the scan's own.
   */
  lemma EvidenceAcceptedExactly(codec: Codec, s: State, principal: Principal, scanId: Id, upload: Upload,
          tasks: seq<Task>, now: Time)
    ensures FreshIngest(codec, s, principal, scanId, upload, tasks, now).1.Ok? <==>
              && OwnedScan(s, principal, scanId)
              && s.scans.rows[scanId].state == Dispatched && s.scans.rows[scanId].upload.None?
              && s.scans.rows[scanId].job.deadline.Some?
              && now <= s.scans.rows[scanId].job.deadline.value + 7 * 24 * 60 * 60 * SECOND
              && BoundTo(s.scans.rows[scanId], upload)
              && "status" in upload.result.value && upload.result.value["status"] in {"SUCCESS", "PARTIAL", "FAILED"}
              && Reconstruct(codec, upload.sync.value, Stored(s, principal)).Rebuilt?
              && forall task | task in tasks :: TaskFits(s, task, principal, scanId)
  {
    hide Reconstruct, NamesScan, ProvenanceMatches, TaskFits, PutTasks, Stored, Owns;
  }

  /** A status is accepted exactly when the endpoint owns an uploaded scan without one whose evidence it matches. */
  lemma StatusAcceptedExactly(s: State, principal: Principal, scanId: Id, status: Document, now: Time)
    ensures FreshStatus(s, principal, scanId, status, now).1.Ok? <==>
              && OwnedScan(s, principal, scanId) && s.scans.rows[scanId].terminalStatus.None?
              && s.scans.rows[scanId].upload.Some? && StatusMatches(status, s.scans.rows[scanId].upload.value)
  {
    hide Owns, Read;
  }

  /** Every step keeps the lifecycle invariant. */
  lemma StepKeepsSound(codec: Codec, s: State, op: Op)
    requires Sound(s) && WellFormed(op)
    ensures Sound(Step(codec, s, op).0)
  {
    hide Step, ScansSound, TasksSound, OnePerKind, BothKinds;
    StepKeepsScans(codec, s, op);
    StepKeepsTasks(codec, s, op);
    StepKeepsOnePerKind(codec, s, op);
    StepKeepsBothKinds(codec, s, op);
  }

  /** And so does every run. */
  lemma {:induction false} RunKeepsSound(codec: Codec, s: State, ops: seq<Op>)
    requires Sound(s) && AllWellFormed(ops)
    ensures Sound(Run(codec, s, ops))
    decreases |ops|
  {
    hide Step, Sound;
    if ops == [] {
    } else {
      StepKeepsSound(codec, s, ops[0]);
      RunKeepsSound(codec, Step(codec, s, ops[0]).0, ops[1..]);
    }
  }
}
