/**
 * What the HTTP layer guarantees about the records it hands to the repository. Besides what is stated here, every job
 * it writes has a `timeout_seconds` and an `authorization_reference` (cloud_service/app.py:753-790): for a job without
 * one, the repository's event for its dispatch or its authorization would raise a `KeyError` after the job was stored.
 */
module Callers {
  import opened Prelude
  import opened OrderedDict
  import opened Records
  import opened Inventory
  import opened ControlPlane

  ghost predicate NewScan(tenantId: Id, record: Scan) {
    record.tenantId == tenantId && record.state == Queued && record.upload.None? && record.terminalStatus.None?
        && record.finalReport.None?
  }

  ghost predicate NewTask(task: Task, kind: Kind) {
    && task.kind == kind && task.state == Pending && task.attempts == 0
    && task.leaseExpiresAt.None? && task.leasedBy.None? && task.lastError.None? && task.result.None?
  }

  /** One fresh task per analyzer. */
  ghost predicate NewTasks(tasks: seq<Task>) {
    |tasks| == 2 && NewTask(tasks[0], Osv) && NewTask(tasks[1], DepScan) && tasks[0].taskId != tasks[1].taskId
  }

  /** Authorized scans are new, and evidence comes with one new task per analyzer. */
  ghost predicate WellFormed(op: Op) {
    match op
    case CreateScan(tenantId, record, _, _) => NewScan(tenantId, record)
    case Ingest(_, _, _, tasks, _, _, _) => NewTasks(tasks)
    case _ => true
  }

  ghost predicate AllWellFormed(ops: seq<Op>) {
    forall op | op in ops :: WellFormed(op)
  }

  /** A token and a credential identifier that were never issued before. */
  ghost predicate NewCredential(s: State, credential: Credential) {
    && credential.tokenHash !in s.credentials.rows
    && (forall hash | hash in s.credentials.rows :: s.credentials.rows[hash].credentialId != credential.credentialId)
    && credential.supersededAt.None? && credential.validUntil.None?
  }

  /** The principal was authenticated by one of the credentials issued so far. */
  ghost predicate Authentic(s: State, principal: Principal) {
    exists hash :: hash in s.credentials.rows && PrincipalOf(s.credentials.rows[hash]) == principal
  }

  /** Enrollments issue generation 1, rotations come from an authenticated endpoint and use the configured overlap. */
  ghost predicate WellIssued(overlapSeconds: nat, s: State, op: Op) {
    match op
    case Enroll(tenantId, endpoint, credential, _, _, _) =>
      && NewCredential(s, credential) && endpoint.tenantId == tenantId && credential.tenantId == tenantId
      && credential.endpointId == endpoint.endpointId && endpoint.generation == credential.generation == 1
    case Rotate(principal, _, _, credential, overlap, _, _) =>
      && NewCredential(s, credential) && Authentic(s, principal) && overlap == overlapSeconds
      && credential.tenantId == principal.tenantId && credential.endpointId == principal.endpointId
    case _ => true
  }

  ghost predicate WellIssuedRun(codec: Codec, overlapSeconds: nat, s: State, ops: seq<Op>)
    decreases |ops|
  {
    ops != [] ==>
      && WellIssued(overlapSeconds, s, ops[0])
      && WellIssuedRun(codec, overlapSeconds, Step(codec, s, ops[0]).0, ops[1..])
  }
}
