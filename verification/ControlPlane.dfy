/**
 * The control plane as a transition system: every public operation of the in-memory repository is one atomic step.
 * `Perform` is what an operation does when it is new; `Step` puts the idempotency check in front of it.
 */
module ControlPlane {
  import opened Prelude
  import opened OrderedDict
  import opened Records
  import opened Inventory

  datatype Op =
    | CreateGrant(grant: Grant, key: string, digest: Digest)
    | Enroll(tenantId: Id, endpoint: Endpoint, credential: Credential, grantHash: Option<Digest>, key: string,
        digest: Digest)
    | Rotate(principal: Principal, expectedGeneration: int, expectedCredentialId: Id, credential: Credential,
        overlapSeconds: int, key: string, digest: Digest)
    | CreateScan(tenantId: Id, record: Scan, key: string, digest: Digest)
    | PollJob(principal: Principal, now: Time)
    | Ingest(principal: Principal, scanId: Id, upload: Upload, tasks: seq<Task>, now: Time, key: string, digest: Digest)
    | ReportStatus(principal: Principal, scanId: Id, status: Document, now: Time, key: string, digest: Digest)
    | ReportRejection(principal: Principal, notice: RejectionNotice, now: Time, key: string, digest: Digest)
    | ClaimTask(kind: Kind, workerId: Id, leaseSeconds: int, now: Time)
    | CompleteTask(taskId: Id, workerId: Id, result: string, now: Time)
    | FailTask(taskId: Id, workerId: Id, error: string, retryAt: Time, deadLetter: bool, now: Time)
    | Finalize(scanId: Id, report: string, now: Time)
    | FinalizeFailure(scanId: Id, error: string, now: Time)

  // ---------------------------------------------------------------- idempotency

  function KeyOf(op: Op): Option<(RequestKey, Digest)> {
    match op
    case CreateGrant(grant, key, digest) => Some(((grant.tenantId, CreatingGrant, key), digest))
    case Enroll(tenantId, _, _, _, key, digest) => Some(((tenantId, Enrolling, key), digest))
    case Rotate(principal, _, _, _, _, key, digest) =>
        Some(((principal.tenantId, Rotating(principal.endpointId), key), digest))
    case CreateScan(tenantId, _, key, digest) => Some(((tenantId, CreatingScan, key), digest))
    case Ingest(principal, scanId, _, _, _, key, digest) => Some(((principal.tenantId, Ingesting(scanId), key), digest))
    case ReportStatus(principal, scanId, _, _, key, digest) =>
        Some(((principal.tenantId, ReportingStatus(scanId), key), digest))
    case ReportRejection(principal, notice, _, key, digest) =>
      Some(((principal.tenantId, Rejecting(notice.documentDigest), key), digest))
    case _ => None
  }

  datatype Replay = Fresh | Conflict | Repeated(reply: Reply)

  /** `_replay`: has this key been answered, and for the same content? */
  function ReplayOf(s: State, key: RequestKey, digest: Digest): Replay {
    if key !in s.answered then Fresh
    else if s.answered[key].0 != digest then Conflict
    else Repeated(s.answered[key].1)
  }

  function Remember(s: State, key: RequestKey, digest: Digest, reply: Reply): State {
    s.(answered := s.answered[key := (digest, reply)])
  }

  function AtMostOnce(s: State, key: RequestKey, digest: Digest, performed: (State, Outcome)): (State, Outcome) {
    match ReplayOf(s, key, digest)
    case Conflict => (s, Refused(IdempotencyConflict))
    case Repeated(reply) => (s, Ok(reply))
    case Fresh => if performed.1.Ok? then (Remember(performed.0, key, digest, performed.1.reply), performed.1)
        else performed
  }

  function WithEvent(s: State, tenantId: Id, kind: EventKind, actorId: Id, resourceId: Id): State {
    s.(audit := Audited(s.audit, tenantId, kind, actorId, resourceId))
  }

  // ---------------------------------------------------------------- grants and credentials

  function PrincipalOf(c: Credential): Principal {
    Principal(c.tenantId, c.endpointId, c.credentialId, c.generation)
  }

  function AuthenticateDevice(s: State, tokenHash: Digest, now: Time): Option<Principal> {
    if tokenHash !in s.credentials.rows then None
    else
      var c := s.credentials.rows[tokenHash];
      if now >= c.expiresAt || (c.validUntil.Some? && now >= c.validUntil.value) then None
      else Some(PrincipalOf(c))
  }

  function AuthenticateGrant(s: State, tokenHash: Digest, now: Time): Option<Grant> {
    if tokenHash !in s.grants || now >= s.grants[tokenHash].expiresAt then None else Some(s.grants[tokenHash])
  }

  function FreshGrant(s: State, grant: Grant): (State, Outcome) {
    if grant.tokenHash in s.grants then (s, Refused(StateConflict))
    else
      (WithEvent(s.(grants := s.grants[grant.tokenHash := grant]), grant.tenantId, GrantCreated, grant.issuedBy,
          grant.grantId),
       Ok(GrantReply(grant)))
  }

  /** Why a grant cannot enrol this endpoint, if it cannot. */
  function GrantRefusal(s: State, tenantId: Id, endpoint: Endpoint, credential: Credential,
          grantHash: Digest): Option<Error> {
    if grantHash !in s.grants || s.grants[grantHash].tenantId != tenantId then Some(NotOwner)
    else
      var grant := s.grants[grantHash];
      if || credential.issuedAt >= grant.expiresAt
         || grant.consumedAt.Some?
         || (grant.osFamily.Some? && grant.osFamily.value != endpoint.osFamily)
      then Some(StateConflict)
      else None
  }

  function Consume(grants: map<Digest, Grant>, grantHash: Option<Digest>, at: Time, endpointId: Id): map<Digest, Grant>
    requires grantHash.Some? ==> grantHash.value in grants
  {
    match grantHash
    case None => grants
    case Some(hash) => grants[hash := grants[hash].(consumedAt := Some(at), endpointId := Some(endpointId))]
  }

  function FreshEnrollment(s: State, tenantId: Id, endpoint: Endpoint, credential: Credential,
          grantHash: Option<Digest>): (State, Outcome) {
    var refusal := if grantHash.Some? then GrantRefusal(s, tenantId, endpoint, credential, grantHash.value) else None;
    if refusal.Some? then (s, Refused(refusal.value))
    else if endpoint.endpointId in s.endpoints || credential.tokenHash in s.credentials.rows
        then (s, Refused(StateConflict))
    else
      var stored := s.(
        endpoints := s.endpoints[endpoint.endpointId := endpoint],
        credentials := s.credentials.Put(credential.tokenHash, credential),
        grants := Consume(s.grants, grantHash, credential.issuedAt, endpoint.endpointId));
      var actor := if grantHash.Some? then s.grants[grantHash.value].grantId else tenantId;
      (WithEvent(stored, tenantId, EndpointEnrolled, actor, endpoint.endpointId), Ok(CredentialReply(credential)))
  }

  /** The first stored credential with this identifier. */
  function CredentialNamed(rows: map<Digest, Credential>, order: seq<Digest>, credentialId: Id): (found: Option<Digest>)
    requires forall hash | hash in order :: hash in rows
    ensures found.Some? ==> found.value in rows && rows[found.value].credentialId == credentialId
  {
    if order == [] then None
    else if rows[order[0]].credentialId == credentialId then Some(order[0])
    else CredentialNamed(rows, order[1..], credentialId)
  }

  function Min(a: int, b: int): int {
    if a <= b then a else b
  }

  function Max(a: int, b: int): int {
    if a <= b then b else a
  }

  function Superseded(current: Credential, at: Time, overlapSeconds: int): Credential {
    current.(supersededAt := Some(at), validUntil := Some(Min(current.expiresAt, at + overlapSeconds * SECOND)))
  }

  function WithRotation(s: State, principal: Principal, currentHash: Digest, credential: Credential,
          overlapSeconds: int): State
    requires principal.endpointId in s.endpoints && currentHash in s.credentials.rows
  {
    var superseded := Superseded(s.credentials.rows[currentHash], credential.issuedAt, overlapSeconds);
    var endpoint := s.endpoints[principal.endpointId].(generation := credential.generation,
        lastSeenAt := credential.issuedAt);
    var rotated := s.(
      credentials := s.credentials.Put(currentHash, superseded).Put(credential.tokenHash, credential),
      endpoints := s.endpoints[principal.endpointId := endpoint]);
    WithEvent(rotated, principal.tenantId, CredentialRotated, principal.endpointId, principal.endpointId)
  }

  function FreshRotation(s: State, principal: Principal, expectedGeneration: int, expectedCredentialId: Id,
          credential: Credential,
                         overlapSeconds: int): (State, Outcome)
  {
    if principal.endpointId !in s.endpoints || s.endpoints[principal.endpointId].tenantId != principal.tenantId
        then (s, Refused(NotOwner))
    else
      var endpoint := s.endpoints[principal.endpointId];
      if || expectedGeneration != principal.generation || endpoint.generation != principal.generation
         || expectedCredentialId != principal.credentialId
         || credential.generation != principal.generation + 1
      then (s, Refused(StateConflict))
      else
        var currentHash := CredentialNamed(s.credentials.rows, s.credentials.order, principal.credentialId);
        if currentHash.None? || PrincipalOf(s.credentials.rows[currentHash.value]) != principal
            then (s, Refused(StateConflict))
        else
          (WithRotation(s, principal, currentHash.value, credential, overlapSeconds), Ok(CredentialReply(credential)))
  }

  // ---------------------------------------------------------------- scans: authorization and dispatch

  function FreshScan(s: State, tenantId: Id, record: Scan): (State, Outcome) {
    if record.endpointId !in s.endpoints || s.endpoints[record.endpointId].tenantId != tenantId
        then (s, Refused(NotFound))
    else if record.scanId in s.scans.rows then (s, Refused(StateConflict))
    else
      (WithEvent(s.(scans := s.scans.Put(record.scanId, record)), tenantId, ScanAuthorized, record.job.initiatedBy,
          record.scanId),
       Ok(ScanReply(record)))
  }

  datatype Eligibility = Eligible | Active | Waiting | Lapsed

  function LeaseEnd(record: Scan, timeoutSeconds: int): Time {
    record.updatedAt + (timeoutSeconds + JOB_DISPATCH_GRACE_SECONDS) * SECOND
  }

  /** `_job_dispatch_eligibility`: anything unreadable counts as expired. */
  function JobDispatchEligibility(record: Scan, endpointId: Id, now: Time): Eligibility {
    var job := record.job;
    if job.authorization.None? || job.deadline.None? then Lapsed
    else
      var authorization := job.authorization.value;
      if || !authorization.authorized || authorization.validFrom.None? || authorization.expiresAt.None?
         || authorization.allowedEndpoints.None? || endpointId !in authorization.allowedEndpoints.value
      then Lapsed
      else if now >= job.deadline.value || now >= authorization.expiresAt.value then Lapsed
      else if now < authorization.validFrom.value then Waiting
      else if job.notBefore.Unreadable? then Lapsed
      else if job.notBefore.At? && now < job.notBefore.time then Waiting
      else if record.state == Queued then Eligible
      else if record.state != Dispatched then Active
      else if job.timeoutSeconds.None? || !(10 <= job.timeoutSeconds.value <= 86_400) then Lapsed
      else if now >= LeaseEnd(record, job.timeoutSeconds.value) then Eligible
      else Active
  }

  predicate Owns(principal: Principal, record: Scan) {
    record.tenantId == principal.tenantId && record.endpointId == principal.endpointId
  }

  predicate Dispatchable(principal: Principal, record: Scan) {
    Owns(principal, record) && (record.state == Queued || record.state == Dispatched)
  }

  function Touch(s: State, principal: Principal, now: Time): State {
    if principal.endpointId in s.endpoints && s.endpoints[principal.endpointId].tenantId == principal.tenantId
    then s.(endpoints := s.endpoints[principal.endpointId := s.endpoints[principal.endpointId].(lastSeenAt := now)])
    else s
  }

  function CreationTimes(scans: Table<Scan>): map<Id, Time> {
    map id | id in scans.rows :: scans.rows[id].createdAt
  }

  function OldestFirst(scans: Table<Scan>): (order: seq<Id>)
    ensures forall id :: id in order <==> id in scans.rows
  {
    SortBy(scans.order, CreationTimes(scans))
  }

  function MarkExpired(s: State, id: Id, principal: Principal, now: Time): State
    requires id in s.scans.rows
  {
    WithEvent(s.(scans := s.scans.Put(id, s.scans.rows[id].(state := Expired, updatedAt := now))),
              principal.tenantId, ScanExpired, "dispatcher", id)
  }

  function MarkDispatched(s: State, id: Id, principal: Principal, now: Time): State
    requires id in s.scans.rows
  {
    var record := s.scans.rows[id];
    WithEvent(s.(scans := s.scans.Put(id, record.(state := Dispatched, updatedAt := now))),
              principal.tenantId, if record.state == Dispatched then ScanRedispatched
                  else ScanDispatched, principal.endpointId, id)
  }

  function DispatchFrom(s: State, candidates: seq<Id>, principal: Principal, now: Time): (State, Outcome)
    requires forall id | id in candidates :: id in s.scans.rows
    decreases |candidates|
  {
    if candidates == [] then (s, Ok(Nothing))
    else
      var id := candidates[0];
      if !Dispatchable(principal, s.scans.rows[id]) then DispatchFrom(s, candidates[1..], principal, now)
      else
        match JobDispatchEligibility(s.scans.rows[id], principal.endpointId, now)
        case Lapsed => DispatchFrom(MarkExpired(s, id, principal, now), candidates[1..], principal, now)
        case Eligible =>
          var dispatched := MarkDispatched(s, id, principal, now);
          (dispatched, Ok(ScanReply(dispatched.scans.rows[id])))
        case _ => DispatchFrom(s, candidates[1..], principal, now)
  }

  /** `claim_next_job` */
  function ClaimNextJob(s: State, principal: Principal, now: Time): (State, Outcome) {
    DispatchFrom(Touch(s, principal, now), OldestFirst(s.scans), principal, now)
  }

  // ---------------------------------------------------------------- scans: evidence and status

  const PROVENANCE: seq<string> := ["scan_type", "authorization_scope_id", "policy_id"]
  const STATUS_FIELDS: seq<string> := [
    "scan_id", "endpoint_id", "schema_version", "scanner_version", "authorization_scope_id", "policy_id",
        "policy_version", "status"]

  predicate NamesScan(d: Document, record: Scan) {
    Read(d, "scan_id") == Some(record.scanId) && Read(d, "endpoint_id") == Some(record.endpointId)
  }

  predicate ProvenanceMatches(result: Document, job: Job, authorization: Authorization) {
    && job.scanType.Some? && Read(result, "scan_type") == job.scanType
    && authorization.scopeId.Some? && Read(result, "authorization_scope_id") == authorization.scopeId
    && job.policyId.Some? && Read(result, "policy_id") == job.policyId
    && (job.policyVersion.Some? ==> Read(result, "policy_version") == job.policyVersion)
  }

  /** `validate_scan_upload` raises unless this holds. */
  predicate ValidUpload(record: Scan, upload: Upload, now: Time) {
    && record.state == Dispatched
    && upload.result.Some? && upload.sync.Some? && record.job.authorization.Some?
    && record.job.deadline.Some? && now <= record.job.deadline.value + SCAN_UPLOAD_GRACE_SECONDS * SECOND
    && NamesScan(upload.result.value, record) && NamesScan(upload.sync.value.identity, record)
    && ProvenanceMatches(upload.result.value, record.job, record.job.authorization.value)
    && Read(upload.result.value, "status") in {Some("SUCCESS"), Some("PARTIAL"), Some("FAILED")}
  }

  /** `validate_scan_status` raises unless this holds. */
  predicate ValidStatus(record: Scan, status: Document) {
    && record.upload.Some? && record.terminalStatus.None? && record.upload.value.result.Some?
    && forall name | name in STATUS_FIELDS :: Read(status, name) == Read(record.upload.value.result.value, name)
  }

  predicate TaskFits(s: State, task: Task, principal: Principal, scanId: Id) {
    && task.scanId == scanId && task.tenantId == principal.tenantId && task.endpointId == principal.endpointId
    && task.taskId !in s.tasks.rows
  }

  function PutTasks(tasks: Table<Task>, added: seq<Task>): Table<Task>
    decreases |added|
  {
    if added == [] then tasks else PutTasks(tasks.Put(added[0].taskId, added[0]), added[1..])
  }

  function Stored(s: State, principal: Principal): Option<InventoryState> {
    if (principal.tenantId, principal.endpointId) in s.inventory
    then Some(s.inventory[(principal.tenantId, principal.endpointId)]) else None
  }

  function Evidenced(record: Scan, upload: Upload, snapshot: Snapshot, now: Time): Scan
    requires upload.sync.Some?
  {
    record.(state := Analyzing, updatedAt := now,
            upload := Some(upload.(sync := Some(upload.sync.value.(reconstructed := Some(snapshot))))))
  }

  predicate OwnedScan(s: State, principal: Principal, scanId: Id) {
    scanId in s.scans.rows && Owns(principal, s.scans.rows[scanId])
  }

  function FreshIngest(codec: Codec, s: State, principal: Principal, scanId: Id, upload: Upload, tasks: seq<Task>,
          now: Time): (State, Outcome) {
    if !OwnedScan(s, principal, scanId) then (s, Refused(NotOwner))
    else
      var record := s.scans.rows[scanId];
      if record.upload.Some? || !ValidUpload(record, upload, now) then (s, Refused(StateConflict))
      else
        match Reconstruct(codec, upload.sync.value, Stored(s, principal))
        case Declined(error) => (s, Refused(error))
        case Rebuilt(snapshot, digest) =>
          if exists task | task in tasks :: !TaskFits(s, task, principal, scanId) then (s, Refused(StateConflict))
          else
            var accepted := Evidenced(record, upload, snapshot, now);
            var state := InventoryState(principal.tenantId, principal.endpointId, digest, snapshot, scanId, now);
            var stored := s.(
              scans := s.scans.Put(scanId, accepted),
              inventory := s.inventory[(principal.tenantId, principal.endpointId) := state],
              tasks := PutTasks(s.tasks, tasks));
            (WithEvent(stored, principal.tenantId, EvidenceAccepted, principal.endpointId, scanId),
                Ok(ScanReply(accepted)))
  }

  function FreshStatus(s: State, principal: Principal, scanId: Id, status: Document, now: Time): (State, Outcome) {
    if !OwnedScan(s, principal, scanId) then (s, Refused(NotOwner))
    else if !ValidStatus(s.scans.rows[scanId], status) then (s, Refused(StateConflict))
    else
      var updated := s.scans.rows[scanId].(terminalStatus := Some(status), updatedAt := now);
      (WithEvent(s.(scans := s.scans.Put(scanId, updated)), principal.tenantId, StatusAccepted, principal.endpointId,
          scanId),
       Ok(ScanReply(updated)))
  }

  /** The scan a rejection notice names; an empty identifier names none. */
  function RejectedScan(notice: RejectionNotice): Option<Id> {
    if notice.scanId == Some("") then None else notice.scanId
  }

  function FreshRejection(s: State, principal: Principal, notice: RejectionNotice, now: Time): (State, Outcome) {
    var target := RejectedScan(notice);
    if target.Some? && target.value in s.scans.rows && !Owns(principal, s.scans.rows[target.value])
        then (s, Refused(NotOwner))
    else
      var scans :=
        if target.Some? && target.value in s.scans.rows
        then s.scans.Put(target.value, s.scans.rows[target.value].(state := Rejected, updatedAt := now))
        else s.scans;
      var resource := if target.Some? then target.value else notice.documentDigest;
      (WithEvent(s.(scans := scans, rejections := s.rejections + [notice]), principal.tenantId, JobRejected,
          principal.endpointId, resource),
       Ok(Acknowledged))
  }

  // ---------------------------------------------------------------- analysis tasks

  predicate Claimable(task: Task, kind: Kind, now: Time) {
    && task.kind == kind
    && (task.state == Pending || task.state == Retry
       || (task.state == Running && task.leaseExpiresAt.Some? && task.leaseExpiresAt.value <= now))
    && task.availableAt <= now
  }

  function TaskTimes(tasks: Table<Task>): map<Id, Time> {
    map id | id in tasks.rows :: tasks.rows[id].createdAt
  }

  function TaskOrder(tasks: Table<Task>): (order: seq<Id>)
    ensures forall id :: id in order <==> id in tasks.rows
  {
    SortBy(tasks.order, TaskTimes(tasks))
  }

  function FirstClaimable(rows: map<Id, Task>, candidates: seq<Id>, kind: Kind, now: Time): (found: Option<Id>)
    requires forall id | id in candidates :: id in rows
    ensures found.Some? ==> found.value in candidates && Claimable(rows[found.value], kind, now)
    ensures found.None? ==> forall id | id in candidates :: !Claimable(rows[id], kind, now)
  {
    if candidates == [] then None
    else if Claimable(rows[candidates[0]], kind, now) then Some(candidates[0])
    else FirstClaimable(rows, candidates[1..], kind, now)
  }

  predicate ValidLease(workerId: Id, leaseSeconds: int) {
    1 <= |workerId| <= 128 && 10 <= leaseSeconds <= 3600
  }

  function Leased(task: Task, workerId: Id, leaseSeconds: int, now: Time): Task {
    task.(state := Running, attempts := task.attempts + 1, leasedBy := Some(workerId),
          leaseExpiresAt := Some(now + leaseSeconds * SECOND), updatedAt := now)
  }

  /** `claim_analysis_task` */
  function ClaimAnalysisTask(s: State, kind: Kind, workerId: Id, leaseSeconds: int, now: Time): (State, Outcome) {
    if !ValidLease(workerId, leaseSeconds) then (s, Refused(InvalidRequest))
    else
      match FirstClaimable(s.tasks.rows, TaskOrder(s.tasks), kind, now)
      case None => (s, Ok(Nothing))
      case Some(id) =>
        var claimed := Leased(s.tasks.rows[id], workerId, leaseSeconds, now);
        (s.(tasks := s.tasks.Put(id, claimed)), Ok(TaskReply(claimed)))
  }

  predicate Holds(task: Task, workerId: Id) {
    task.state == Running && task.leasedBy == Some(workerId)
  }

  function Released(task: Task, now: Time): Task {
    task.(leaseExpiresAt := None, leasedBy := None, updatedAt := now)
  }

  /** `complete_analysis_task` */
  function CompleteAnalysisTask(s: State, taskId: Id, workerId: Id, result: string, now: Time): (State, Outcome) {
    if taskId !in s.tasks.rows then (s, Refused(NotFound))
    else if !Holds(s.tasks.rows[taskId], workerId) then (s, Refused(StateConflict))
    else
      (s.(tasks := s.tasks.Put(taskId,
          Released(s.tasks.rows[taskId], now).(state := Succeeded, result := Some(result)))), Ok(Nothing))
  }

  function Printable(text: string): string {
    seq(|text|, i requires 0 <= i < |text| => if text[i] as int < 32 then ' ' else text[i])
  }

  /** `_sanitize_error` */
  function SanitizeError(text: string): string {
    var cleaned := Printable(text);
    var cut := if |cleaned| <= 512 then cleaned else cleaned[..512];
    if cut == "" then "worker failure" else cut
  }

  /** `fail_analysis_task` */
  function FailAnalysisTask(s: State, taskId: Id, workerId: Id, error: string, retryAt: Time, deadLetter: bool,
          now: Time): (State, Outcome) {
    if taskId !in s.tasks.rows then (s, Refused(NotFound))
    else if !Holds(s.tasks.rows[taskId], workerId) then (s, Refused(StateConflict))
    else
      var failed := Released(s.tasks.rows[taskId], now).(
        state := if deadLetter then Failed else Retry, availableAt := Max(now, retryAt), lastError :=
            Some(SanitizeError(error)));
      (s.(tasks := s.tasks.Put(taskId, failed)), Ok(Nothing))
  }

  // ---------------------------------------------------------------- reports

  predicate Terminal(task: Task) {
    task.state == Succeeded || task.state == Failed
  }

  /** The state of each kind of task of a scan; among several of a kind the last inserted counts. */
  function TaskStates(rows: map<Id, Task>, order: seq<Id>, scanId: Id): map<Kind, TaskState>
    requires forall id | id in order :: id in rows
  {
    if order == [] then map[]
    else
      var before, task := TaskStates(rows, order[..|order| - 1], scanId), rows[order[|order| - 1]];
      if task.scanId == scanId then before[task.kind := task.state] else before
  }

  predicate AllTerminal(states: map<Kind, TaskState>) {
    states.Keys == {Osv, DepScan} && forall kind | kind in states :: states[kind] == Succeeded || states[kind] == Failed
  }

  function StatesOf(s: State, scanId: Id): map<Kind, TaskState> {
    TaskStates(s.tasks.rows, s.tasks.order, scanId)
  }

  function DeadLetterError(task: Task): string {
    if task.lastError.None? || task.lastError.value == "" then "analysis task reached dead letter state"
        else task.lastError.value
  }

  /** What a task contributes to its scan's report, once it does. */
  function Contribution(task: Task): Option<ToolResult> {
    if task.state == Succeeded && task.result.Some? then Some(Analyzed(task.result.value))
    else if task.state == Failed then Some(DeadLetter(DeadLetterError(task), task.attempts))
    else None
  }

  /** `list_scan_analysis_results` over the tasks in `order` */
  function Results(rows: map<Id, Task>, order: seq<Id>, scanId: Id): map<Kind, ToolResult>
    requires forall id | id in order :: id in rows
  {
    if order == [] then map[]
    else
      var before, task := Results(rows, order[..|order| - 1], scanId), rows[order[|order| - 1]];
      if task.scanId == scanId && Contribution(task).Some? then before[task.kind := Contribution(task).value]
          else before
  }

  function ScanAnalysisResults(s: State, scanId: Id): map<Kind, ToolResult> {
    Results(s.tasks.rows, s.tasks.order, scanId)
  }

  /** `get_scan_analysis_input` */
  function AnalysisInput(s: State, scanId: Id): Option<Upload> {
    if scanId !in s.scans.rows then None else s.scans.rows[scanId].upload
  }

  predicate ReadyToFinalize(s: State, scanId: Id)
    requires scanId in s.scans.rows
  {
    && s.scans.rows[scanId].state == Analyzing && s.scans.rows[scanId].finalReport.None?
    && AllTerminal(StatesOf(s, scanId))
  }

  function UpdateTimes(scans: Table<Scan>): map<Id, Time> {
    map id | id in scans.rows :: scans.rows[id].updatedAt
  }

  function LeastRecentlyUpdated(scans: Table<Scan>): (order: seq<Id>)
    ensures forall id :: id in order <==> id in scans.rows
  {
    SortBy(scans.order, UpdateTimes(scans))
  }

  function FirstReady(s: State, candidates: seq<Id>): (found: Option<Id>)
    requires forall id | id in candidates :: id in s.scans.rows
    ensures found.Some? ==> found.value in candidates && ReadyToFinalize(s, found.value)
    ensures found.None? ==> forall id | id in candidates :: !ReadyToFinalize(s, id)
  {
    if candidates == [] then None
    else if ReadyToFinalize(s, candidates[0]) then Some(candidates[0])
    else FirstReady(s, candidates[1..])
  }

  /** `next_scan_ready_for_finalization` */
  function NextReady(s: State): Option<Id> {
    FirstReady(s, LeastRecentlyUpdated(s.scans))
  }

  function Reported(s: State, scanId: Id, report: Report, kind: EventKind, now: Time): State
    requires scanId in s.scans.rows
  {
    WithEvent(s.(scans :=
        s.scans.Put(scanId, s.scans.rows[scanId].(state := Complete, finalReport := Some(report), updatedAt := now))),
              s.scans.rows[scanId].tenantId, kind, "normalizer", scanId)
  }

  /** `finalize_scan_report` */
  function FinalizeScanReport(s: State, scanId: Id, report: Report, now: Time): (State, Outcome) {
    if scanId !in s.scans.rows then (s, Refused(NotFound))
    else if s.scans.rows[scanId].finalReport.Some? then
      (s, if s.scans.rows[scanId].finalReport.value == report then Ok(Nothing) else Refused(StateConflict))
    else if !AllTerminal(StatesOf(s, scanId)) then (s, Refused(StateConflict))
    else (Reported(s, scanId, report, ReportFinalized, now), Ok(Nothing))
  }

  /** `finalize_scan_report_failure` */
  function FinalizeScanReportFailure(s: State, scanId: Id, error: string, now: Time): (State, Outcome) {
    if scanId !in s.scans.rows then (s, Refused(NotFound))
    else if s.scans.rows[scanId].finalReport.Some? then (s, Ok(Nothing))
    else
      var report := NormalizationFailure(scanId, s.scans.rows[scanId].endpointId, SanitizeError(error), now);
      (Reported(s, scanId, report, NormalizationFailed, now), Ok(Nothing))
  }

  // ---------------------------------------------------------------- steps and runs

  predicate IsTaskOp(op: Op) {
    op.ClaimTask? || op.CompleteTask? || op.FailTask?
  }

  /** What an operation does when its key, if it has one, was never answered. */
  function Perform(codec: Codec, s: State, op: Op): (State, Outcome) {
    match op
    case CreateGrant(grant, _, _) => FreshGrant(s, grant)
    case Enroll(tenantId, endpoint, credential, grantHash, _, _) =>
        FreshEnrollment(s, tenantId, endpoint, credential, grantHash)
    case Rotate(principal, generation, credentialId, credential, overlapSeconds, _, _) =>
      FreshRotation(s, principal, generation, credentialId, credential, overlapSeconds)
    case CreateScan(tenantId, record, _, _) => FreshScan(s, tenantId, record)
    case PollJob(principal, now) => ClaimNextJob(s, principal, now)
    case Ingest(principal, scanId, upload, tasks, now, _, _) =>
        FreshIngest(codec, s, principal, scanId, upload, tasks, now)
    case ReportStatus(principal, scanId, status, now, _, _) => FreshStatus(s, principal, scanId, status, now)
    case ReportRejection(principal, notice, now, _, _) => FreshRejection(s, principal, notice, now)
    case ClaimTask(kind, workerId, leaseSeconds, now) => ClaimAnalysisTask(s, kind, workerId, leaseSeconds, now)
    case CompleteTask(taskId, workerId, result, now) => CompleteAnalysisTask(s, taskId, workerId, result, now)
    case FailTask(taskId, workerId, error, retryAt, deadLetter, now) =>
        FailAnalysisTask(s, taskId, workerId, error, retryAt, deadLetter, now)
    case Finalize(scanId, report, now) => FinalizeScanReport(s, scanId, FinalReport(report), now)
    case FinalizeFailure(scanId, error, now) => FinalizeScanReportFailure(s, scanId, error, now)
  }

  function Step(codec: Codec, s: State, op: Op): (State, Outcome) {
    match KeyOf(op)
    case None => Perform(codec, s, op)
    case Some((key, digest)) => AtMostOnce(s, key, digest, Perform(codec, s, op))
  }

  /** The state after a sequence of operations, in whatever order the lock let them in. */
  function Run(codec: Codec, s: State, ops: seq<Op>): State
    decreases |ops|
  {
    if ops == [] then s else Run(codec, Step(codec, s, ops[0]).0, ops[1..])
  }
}
