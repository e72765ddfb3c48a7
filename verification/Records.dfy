/** The records the control plane keeps, and the documents it receives. Times are in microseconds. */
module Records {
  import opened Prelude
  import opened OrderedDict

  type Id = string
  type Digest = string
  type Time = int

  const SECOND: int := 1_000_000
  const JOB_DISPATCH_GRACE_SECONDS: int := 60
  const SCAN_UPLOAD_GRACE_SECONDS: int := 7 * 24 * 60 * 60

  /** The scalar fields of a JSON object, as text. */
  type Document = map<string, string>

  function Read(d: Document, name: string): Option<string> {
    if name in d then Some(d[name]) else None
  }

  // ---------------------------------------------------------------- endpoints and credentials

  datatype Principal = Principal(tenantId: Id, endpointId: Id, credentialId: Id, generation: int)

  datatype Endpoint = Endpoint(tenantId: Id, endpointId: Id, osFamily: string, generation: int, enrolledAt: Time,
      lastSeenAt: Time)

  datatype Credential = Credential(
    tenantId: Id, endpointId: Id, credentialId: Id, tokenHash: Digest, generation: int,
    issuedAt: Time, expiresAt: Time, supersededAt: Option<Time>, validUntil: Option<Time>)

  datatype Grant = Grant(
    tenantId: Id, grantId: Id, tokenHash: Digest, issuedBy: Id, expiresAt: Time,
    osFamily: Option<string>, consumedAt: Option<Time>, endpointId: Option<Id>)

  // ---------------------------------------------------------------- inventory

  /** A section's content as canonical JSON. */
  type Content = string
  type Snapshot = map<string, Content>

  /** A field of an uploaded document: absent (for a digest, also null), of the wrong type, or usable. */
  datatype Field<T> = Missing | Malformed | Present(value: T)

  datatype InventorySync = InventorySync(
    identity: Document,
    reconstructed: Option<Snapshot>,
    mode: string,
    snapshotHash: Field<Digest>,
    previousHash: Field<Digest>,
    snapshot: Field<Snapshot>,
    sections: Field<map<string, Content>>,
    removedSections: Field<seq<string>>)

  datatype InventoryState = InventoryState(
    tenantId: Id, endpointId: Id, snapshotHash: Digest, snapshot: Snapshot, sourceScanId: Id, updatedAt: Time)

  // ---------------------------------------------------------------- scans

  datatype Authorization = Authorization(
    authorized: bool, validFrom: Option<Time>, expiresAt: Option<Time>, allowedEndpoints: Option<set<Id>>,
        scopeId: Option<string>)

  datatype NotBefore = Unrestricted | At(time: Time) | Unreadable

  /** A job document; a field that is absent or unreadable is `None`. */
  datatype Job = Job(
    authorization: Option<Authorization>, deadline: Option<Time>, notBefore: NotBefore, timeoutSeconds: Option<int>,
    scanType: Option<string>, policyId: Option<string>, policyVersion: Option<string>, initiatedBy: Id)

  datatype Upload = Upload(result: Option<Document>, sync: Option<InventorySync>, sbom: string)

  datatype Report = FinalReport(document: string) | NormalizationFailure(scanId: Id, endpointId: Id, error: string,
      at: Time)

  datatype ScanState = Queued | Dispatched | Expired | Analyzing | Complete | Rejected

  datatype Scan = Scan(
    tenantId: Id, endpointId: Id, scanId: Id, jobId: Id, state: ScanState, job: Job, createdAt: Time, updatedAt: Time,
    upload: Option<Upload>, terminalStatus: Option<Document>, finalReport: Option<Report>)

  datatype RejectionNotice = RejectionNotice(documentDigest: Digest, scanId: Option<Id>, reason: string)

  // ---------------------------------------------------------------- analysis tasks

  datatype Kind = Osv | DepScan

  datatype TaskState = Pending | Running | Succeeded | Retry | Failed

  datatype Task = Task(
    taskId: Id, tenantId: Id, endpointId: Id, scanId: Id, kind: Kind, state: TaskState, attempts: int,
    createdAt: Time, updatedAt: Time, availableAt: Time,
    leaseExpiresAt: Option<Time>, leasedBy: Option<Id>, lastError: Option<string>, result: Option<string>)

  /** What a finished task contributes to the report: its result, or a dead-letter summary. */
  datatype ToolResult = Analyzed(result: string) | DeadLetter(error: string, attempts: int)

  // ---------------------------------------------------------------- bookkeeping

  datatype EventKind =
    | GrantCreated | EndpointEnrolled | CredentialRotated
    | ScanAuthorized | ScanExpired | ScanDispatched | ScanRedispatched
    | EvidenceAccepted | StatusAccepted | JobRejected | ReportFinalized | NormalizationFailed

  datatype Event = Event(sequence: nat, tenantId: Id, kind: EventKind, actorId: Id, resourceId: Id)

  /** The operation part of an idempotency key. */
  datatype Operation =
    | CreatingGrant | Enrolling | Rotating(endpointId: Id)
    | CreatingScan | Ingesting(scanId: Id) | ReportingStatus(scanId: Id)
    | Rejecting(documentDigest: Digest)

  type RequestKey = (Id, Operation, string)

  /** `None` in the source is `Nothing` here; the stored answer to a rejection notice is `True`, here `Acknowledged`. */
  datatype Reply =
    | GrantReply(grant: Grant) | CredentialReply(credential: Credential) | ScanReply(scan: Scan) | TaskReply(task: Task)
    | Acknowledged | Nothing

  datatype Error =
    | NotFound | NotOwner | IdempotencyConflict | StateConflict | InventoryInvalid | ResyncRequired | InvalidRequest

  datatype Outcome = Ok(reply: Reply) | Refused(error: Error)

  datatype State = State(
    endpoints: map<Id, Endpoint>,
    credentials: Table<Credential>,
    grants: map<Digest, Grant>,
    scans: Table<Scan>,
    inventory: map<(Id, Id), InventoryState>,
    tasks: Table<Task>,
    audit: seq<Event>,
    rejections: seq<RejectionNotice>,
    answered: map<RequestKey, (Digest, Reply)>)

  const EMPTY_STATE: State :=
      State(map[], Dict(map[], []), map[], Dict(map[], []), map[], Dict(map[], []), [], [], map[])

  function Audited(log: seq<Event>, tenantId: Id, kind: EventKind, actorId: Id, resourceId: Id): seq<Event> {
    log + [Event(|log| + 1, tenantId, kind, actorId, resourceId)]
  }
}
