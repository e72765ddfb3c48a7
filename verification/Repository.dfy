/**
 * The in-memory repository: its dictionaries, and its methods, each of which takes exactly one step of the control
 * plane.
 */
module Repository {
  import opened Prelude
  import opened OrderedDict
  import opened Records
  import opened Inventory
  import opened ControlPlane
  import opened Dispatch

  lemma ValidUploadHasSync(record: Scan, upload: Upload, now: Time)
    requires ValidUpload(record, upload, now)
    ensures upload.sync.Some?
  {
  }

  /** One turn of the dispatch loop. */
  lemma DispatchTurn(s: State, candidates: seq<Id>, i: nat, principal: Principal, now: Time)
    requires i < |candidates| && forall id | id in candidates :: id in s.scans.rows
    ensures var id := candidates[i];
            var eligibility := JobDispatchEligibility(s.scans.rows[id], principal.endpointId, now);
            DispatchFrom(s, candidates[i..], principal, now) ==
              if Dispatchable(principal, s.scans.rows[id]) && eligibility == Eligible then
                (MarkDispatched(s, id, principal, now),
                    Ok(ScanReply(MarkDispatched(s, id, principal, now).scans.rows[id])))
              else if Dispatchable(principal, s.scans.rows[id]) && eligibility == Lapsed then
                DispatchFrom(MarkExpired(s, id, principal, now), candidates[i + 1..], principal, now)
              else DispatchFrom(s, candidates[i + 1..], principal, now)
  {
    hide JobDispatchEligibility, Dispatchable, MarkDispatched;
    assert candidates[i..][1..] == candidates[i + 1..];
  }

  lemma NothingLeft(s: State, principal: Principal, now: Time)
    ensures DispatchFrom(s, [], principal, now) == (s, Ok(Nothing))
  {
  }

  class InMemoryRepository {
    const codec: Codec
    var endpoints: map<Id, Endpoint>
    var credentials: Table<Credential>
    var enrollmentGrants: map<Digest, Grant>
    var scans: Table<Scan>
    var inventoryStates: map<(Id, Id), InventoryState>
    var tasks: Table<Task>
    var auditEvents: seq<Event>
    var rejections: seq<RejectionNotice>
    var idempotency: map<RequestKey, (Digest, Reply)>

    ghost function Contents(): State
      reads this
    {
      State(endpoints, credentials, enrollmentGrants, scans, inventoryStates, tasks, auditEvents, rejections,
          idempotency)
    }

    constructor (codec: Codec)
      ensures Contents() == EMPTY_STATE && this.codec == codec
    {
      this.codec := codec;
      endpoints, credentials, enrollmentGrants := map[], Dict(map[], []), map[];
      scans, inventoryStates, tasks := Dict(map[], []), map[], Dict(map[], []);
      auditEvents, rejections, idempotency := [], [], map[];
    }

    // ---------------------------------------------------------------- helpers

    method Replayed(key: RequestKey, digest: Digest) returns (r: Replay)
      ensures r == ReplayOf(Contents(), key, digest)
    {
      if key !in idempotency {
        return Fresh;
      }
      var (known, reply) := idempotency[key];
      if known != digest {
        return Conflict;
      }
      return Repeated(reply);
    }

    method RememberReply(key: RequestKey, digest: Digest, reply: Reply)
      modifies this`idempotency
      ensures Contents() == Remember(old(Contents()), key, digest, reply)
    {
      idempotency := idempotency[key := (digest, reply)];
    }

    method Audit(tenantId: Id, kind: EventKind, actorId: Id, resourceId: Id)
      modifies this`auditEvents
      ensures Contents() == WithEvent(old(Contents()), tenantId, kind, actorId, resourceId)
    {
      var sequence := |auditEvents| + 1;
      auditEvents := auditEvents + [Event(sequence, tenantId, kind, actorId, resourceId)];
    }

    // ---------------------------------------------------------------- authentication

    method AuthenticateDevice(tokenHash: Digest, now: Time) returns (r: Option<Principal>)
      ensures r == ControlPlane.AuthenticateDevice(Contents(), tokenHash, now)
    {
      if tokenHash !in credentials.rows {
        return None;
      }
      var credential := credentials.rows[tokenHash];
      if now >= credential.expiresAt {
        return None;
      }
      if credential.validUntil.Some? && now >= credential.validUntil.value {
        return None;
      }
      return Some(Principal(credential.tenantId, credential.endpointId, credential.credentialId,
             credential.generation));
    }

    method AuthenticateEnrollmentGrant(tokenHash: Digest, now: Time) returns (r: Option<Grant>)
      ensures r == AuthenticateGrant(Contents(), tokenHash, now)
      ensures r.Some? <==> tokenHash in enrollmentGrants && now < enrollmentGrants[tokenHash].expiresAt
      ensures r.Some? ==> r.value == enrollmentGrants[tokenHash]
    {
      if tokenHash !in enrollmentGrants || now >= enrollmentGrants[tokenHash].expiresAt {
        return None;
      }
      return Some(enrollmentGrants[tokenHash]);
    }

    // ---------------------------------------------------------------- grants, enrollment, rotation

    method CreateEnrollmentGrant(grant: Grant, key: string, digest: Digest) returns (r: Outcome)
      modifies this
      ensures (Contents(), r) == Step(codec, old(Contents()), CreateGrant(grant, key, digest))
    {
      var requestKey := (grant.tenantId, CreatingGrant, key);
      var replay := Replayed(requestKey, digest);
      if replay.Conflict? { return Refused(IdempotencyConflict); }
      if replay.Repeated? { return Ok(replay.reply); }
      if grant.tokenHash in enrollmentGrants {
        return Refused(StateConflict);
      }
      enrollmentGrants := enrollmentGrants[grant.tokenHash := grant];
      RememberReply(requestKey, digest, GrantReply(grant));
      Audit(grant.tenantId, GrantCreated, grant.issuedBy, grant.grantId);
      return Ok(GrantReply(grant));
    }

    method EnrollEndpoint(tenantId: Id, endpoint: Endpoint, credential: Credential, grantHash: Option<Digest>,
            key: string, digest: Digest)
      returns (r: Outcome)
      modifies this
      ensures (Contents(), r)
              == Step(codec, old(Contents()), Enroll(tenantId, endpoint, credential, grantHash, key, digest))
    {
      hide ControlPlane.ClaimAnalysisTask, ControlPlane.ClaimNextJob, ControlPlane.CompleteAnalysisTask;
      hide ControlPlane.FailAnalysisTask, ControlPlane.FinalizeScanReport, ControlPlane.FinalizeScanReportFailure;
      hide FreshGrant, FreshIngest, FreshRejection, FreshRotation, FreshScan, FreshStatus;
      hide Dict.Put;
      var requestKey := (tenantId, Enrolling, key);
      var replay := Replayed(requestKey, digest);
      if replay.Conflict? { return Refused(IdempotencyConflict); }
      if replay.Repeated? { return Ok(replay.reply); }
      var actor := tenantId;
      if grantHash.Some? {
        if grantHash.value !in enrollmentGrants || enrollmentGrants[grantHash.value].tenantId != tenantId {
          return Refused(NotOwner);
        }
        var grant := enrollmentGrants[grantHash.value];
        if credential.issuedAt >= grant.expiresAt {
          return Refused(StateConflict);
        }
        if grant.consumedAt.Some? {
          return Refused(StateConflict);
        }
        if grant.osFamily.Some? && grant.osFamily.value != endpoint.osFamily {
          return Refused(StateConflict);
        }
        actor := grant.grantId;
      }
      if endpoint.endpointId in endpoints || credential.tokenHash in credentials.rows {
        return Refused(StateConflict);
      }
      endpoints := endpoints[endpoint.endpointId := endpoint];
      credentials := credentials.Put(credential.tokenHash, credential);
      if grantHash.Some? {
        enrollmentGrants := enrollmentGrants[grantHash.value :=
          enrollmentGrants[grantHash.value].(consumedAt := Some(credential.issuedAt),
              endpointId := Some(endpoint.endpointId))];
      }
      RememberReply(requestKey, digest, CredentialReply(credential));
      Audit(tenantId, EndpointEnrolled, actor, endpoint.endpointId);
      return Ok(CredentialReply(credential));
    }

    method FindCredential(credentialId: Id) returns (found: Option<Digest>)
      ensures found == CredentialNamed(credentials.rows, credentials.order, credentialId)
    {
      var i := 0;
      while i < |credentials.order|
        invariant 0 <= i <= |credentials.order|
        invariant CredentialNamed(credentials.rows, credentials.order, credentialId)
                  == CredentialNamed(credentials.rows, credentials.order[i..], credentialId)
      {
        if credentials.rows[credentials.order[i]].credentialId == credentialId {
          return Some(credentials.order[i]);
        }
        assert credentials.order[i..][1..] == credentials.order[i + 1..];
        i := i + 1;
      }
      return None;
    }

    method StoreRotation(principal: Principal, currentHash: Digest, credential: Credential, overlapSeconds: int)
      requires principal.endpointId in endpoints && currentHash in credentials.rows
      modifies this
      ensures Contents() == WithRotation(old(Contents()), principal, currentHash, credential, overlapSeconds)
    {
      hide Dict.Put;
      var current := credentials.rows[currentHash];
      var overlapUntil := credential.issuedAt + overlapSeconds * SECOND;
      credentials := credentials.Put(currentHash,
        current.(supersededAt := Some(credential.issuedAt), validUntil := Some(Min(current.expiresAt, overlapUntil))));
      credentials := credentials.Put(credential.tokenHash, credential);
      endpoints := endpoints[principal.endpointId :=
        endpoints[principal.endpointId].(generation := credential.generation, lastSeenAt := credential.issuedAt)];
      Audit(principal.tenantId, CredentialRotated, principal.endpointId, principal.endpointId);
    }

    method PerformRotation(principal: Principal, expectedGeneration: int, expectedCredentialId: Id,
            credential: Credential, overlapSeconds: int)
      returns (r: Outcome)
      modifies this
      ensures (Contents(), r)
              == FreshRotation(old(Contents()), principal, expectedGeneration, expectedCredentialId, credential,
                  overlapSeconds)
    {
      hide CredentialNamed, WithRotation;
      if principal.endpointId !in endpoints || endpoints[principal.endpointId].tenantId != principal.tenantId {
        return Refused(NotOwner);
      }
      var endpoint := endpoints[principal.endpointId];
      if expectedGeneration != principal.generation || endpoint.generation != principal.generation {
        return Refused(StateConflict);
      }
      if expectedCredentialId != principal.credentialId {
        return Refused(StateConflict);
      }
      if credential.generation != principal.generation + 1 {
        return Refused(StateConflict);
      }
      var currentHash := FindCredential(principal.credentialId);
      if currentHash.None? {
        return Refused(StateConflict);
      }
      var current := credentials.rows[currentHash.value];
      if current.tenantId != principal.tenantId || current.endpointId != principal.endpointId
          || current.generation != principal.generation {
        return Refused(StateConflict);
      }
      StoreRotation(principal, currentHash.value, credential, overlapSeconds);
      return Ok(CredentialReply(credential));
    }

    method RotateCredential(principal: Principal, expectedGeneration: int, expectedCredentialId: Id,
            credential: Credential, overlapSeconds: int,
                            key: string, digest: Digest)
      returns (r: Outcome)
      modifies this
      ensures (Contents(), r) ==
              Step(codec, old(Contents()),
                  Rotate(principal, expectedGeneration, expectedCredentialId, credential, overlapSeconds, key, digest))
    {
      hide FreshRotation;
      var requestKey := (principal.tenantId, Rotating(principal.endpointId), key);
      var replay := Replayed(requestKey, digest);
      if replay.Conflict? { return Refused(IdempotencyConflict); }
      if replay.Repeated? { return Ok(replay.reply); }
      r := PerformRotation(principal, expectedGeneration, expectedCredentialId, credential, overlapSeconds);
      if r.Ok? {
        RememberReply(requestKey, digest, r.reply);
      }
    }

    // ---------------------------------------------------------------- scans

    method CreateScanJob(tenantId: Id, record: Scan, key: string, digest: Digest) returns (r: Outcome)
      modifies this
      ensures (Contents(), r) == Step(codec, old(Contents()), CreateScan(tenantId, record, key, digest))
    {
      var requestKey := (tenantId, CreatingScan, key);
      var replay := Replayed(requestKey, digest);
      if replay.Conflict? { return Refused(IdempotencyConflict); }
      if replay.Repeated? { return Ok(replay.reply); }
      if record.endpointId !in endpoints || endpoints[record.endpointId].tenantId != tenantId {
        return Refused(NotFound);
      }
      if record.scanId in scans.rows {
        return Refused(StateConflict);
      }
      scans := scans.Put(record.scanId, record);
      RememberReply(requestKey, digest, ScanReply(record));
      Audit(tenantId, ScanAuthorized, record.job.initiatedBy, record.scanId);
      return Ok(ScanReply(record));
    }

    method ExpireScan(id: Id, principal: Principal, now: Time)
      requires id in scans.rows
      modifies this
      ensures Contents() == MarkExpired(old(Contents()), id, principal, now)
    {
      scans := scans.Put(id, scans.rows[id].(state := Expired, updatedAt := now));
      Audit(principal.tenantId, ScanExpired, "dispatcher", id);
    }

    method DispatchScan(id: Id, principal: Principal, now: Time) returns (claimed: Scan)
      requires id in scans.rows
      modifies this
      ensures Contents() == MarkDispatched(old(Contents()), id, principal, now) && claimed == scans.rows[id]
    {
      var record := scans.rows[id];
      claimed := record.(state := Dispatched, updatedAt := now);
      scans := scans.Put(id, claimed);
      Audit(principal.tenantId, if record.state == Dispatched then ScanRedispatched
          else ScanDispatched, principal.endpointId, id);
    }

    /** The loop of `claim_next_job`: the records are read once, before the loop that updates them. */
    method DispatchFirst(candidates: seq<Id>, principal: Principal, now: Time) returns (r: Outcome)
      requires (forall id | id in candidates :: id in scans.rows) && Differ(candidates)
      modifies this
      ensures (Contents(), r) == DispatchFrom(old(Contents()), candidates, principal, now)
    {
      hide JobDispatchEligibility, Dispatchable, DispatchFrom;
      var records := scans.rows;
      var i := 0;
      assert candidates[i..] == candidates;
      while i < |candidates|
        invariant 0 <= i <= |candidates|
        invariant forall id | id in candidates :: id in records && id in scans.rows
        invariant forall j | i <= j < |candidates| :: scans.rows[candidates[j]] == records[candidates[j]]
        invariant DispatchFrom(old(Contents()), candidates, principal, now)
                  == DispatchFrom(Contents(), candidates[i..], principal, now)
      {
        var id := candidates[i];
        var record := records[id];
        DispatchTurn(Contents(), candidates, i, principal, now);
        if Dispatchable(principal, record) {
          var eligibility := JobDispatchEligibility(record, principal.endpointId, now);
          if eligibility == Lapsed {
            ExpireScan(id, principal, now);
          } else if eligibility == Eligible {
            var claimed := DispatchScan(id, principal, now);
            return Ok(ScanReply(claimed));
          }
        }
        i := i + 1;
      }
      NothingLeft(Contents(), principal, now);
      return Ok(Nothing);
    }

    /** `claim_next_job` */
    method ClaimNextJob(principal: Principal, now: Time) returns (r: Outcome)
      modifies this
      ensures (Contents(), r) == Step(codec, old(Contents()), PollJob(principal, now))
    {
      hide SortBy, DispatchFrom, SortedFor;
      if principal.endpointId in endpoints && endpoints[principal.endpointId].tenantId == principal.tenantId {
        endpoints := endpoints[principal.endpointId := endpoints[principal.endpointId].(lastSeenAt := now)];
      }
      var candidates := OldestFirst(scans);
      SortByIsSorted(scans.order, CreationTimes(scans));
      SortedDiffer(scans.order, CreationTimes(scans), candidates);
      r := DispatchFirst(candidates, principal, now);
    }

    method AddTasks(added: seq<Task>)
      modifies this`tasks
      ensures Contents() == old(Contents()).(tasks := PutTasks(old(tasks), added))
    {
      var i := 0;
      while i < |added|
        invariant 0 <= i <= |added|
        invariant PutTasks(old(tasks), added) == PutTasks(tasks, added[i..])
      {
        assert added[i..][1..] == added[i + 1..];
        tasks := tasks.Put(added[i].taskId, added[i]);
        i := i + 1;
      }
    }

    /** Every task is for this scan of this endpoint, and under a new identifier. */
    method TasksFit(added: seq<Task>, principal: Principal, scanId: Id) returns (fit: bool)
      ensures fit <==> !exists task | task in added :: !TaskFits(Contents(), task, principal, scanId)
    {
      var i := 0;
      while i < |added|
        invariant 0 <= i <= |added|
        invariant forall j | 0 <= j < i :: TaskFits(Contents(), added[j], principal, scanId)
      {
        var task := added[i];
        if task.scanId != scanId || task.tenantId != principal.tenantId || task.endpointId != principal.endpointId {
          assert !TaskFits(Contents(), task, principal, scanId);
          return false;
        }
        if task.taskId in tasks.rows {
          assert !TaskFits(Contents(), task, principal, scanId);
          return false;
        }
        i := i + 1;
      }
      return true;
    }

    method IngestScan(principal: Principal, scanId: Id, upload: Upload, added: seq<Task>, now: Time, key: string,
            digest: Digest)
      returns (r: Outcome)
      modifies this
      ensures (Contents(), r)
              == Step(codec, old(Contents()), Ingest(principal, scanId, upload, added, now, key, digest))
    {
      hide ControlPlane.ClaimAnalysisTask, ControlPlane.ClaimNextJob, ControlPlane.CompleteAnalysisTask;
      hide ControlPlane.FailAnalysisTask, ControlPlane.FinalizeScanReport, ControlPlane.FinalizeScanReportFailure;
      hide FreshEnrollment, FreshGrant, FreshRejection, FreshRotation, FreshScan, FreshStatus;
      hide Reconstruct, NamesScan, ProvenanceMatches, PutTasks, Owns, ValidUpload;
      var requestKey := (principal.tenantId, Ingesting(scanId), key);
      var replay := Replayed(requestKey, digest);
      if replay.Conflict? { return Refused(IdempotencyConflict); }
      if replay.Repeated? { return Ok(replay.reply); }
      if scanId !in scans.rows || !Owns(principal, scans.rows[scanId]) {
        return Refused(NotOwner);
      }
      var record := scans.rows[scanId];
      if record.upload.Some? {
        return Refused(StateConflict);
      }
      if !ValidUpload(record, upload, now) {
        return Refused(StateConflict);
      }
      ValidUploadHasSync(record, upload, now);
      var stateKey := (principal.tenantId, principal.endpointId);
      var current := if stateKey in inventoryStates then Some(inventoryStates[stateKey]) else None;
      var reconstruction := Reconstruct(codec, upload.sync.value, current);
      if reconstruction.Declined? {
        return Refused(reconstruction.error);
      }
      var acceptedUpload := upload.(sync := Some(upload.sync.value.(reconstructed := Some(reconstruction.snapshot))));
      var accepted := record.(state := Analyzing, upload := Some(acceptedUpload), updatedAt := now);
      var fit := TasksFit(added, principal, scanId);
      if !fit {
        return Refused(StateConflict);
      }
      scans := scans.Put(scanId, accepted);
      inventoryStates := inventoryStates[stateKey :=
        InventoryState(principal.tenantId, principal.endpointId, reconstruction.digest, reconstruction.snapshot,
            scanId, now)];
      AddTasks(added);
      RememberReply(requestKey, digest, ScanReply(accepted));
      Audit(principal.tenantId, EvidenceAccepted, principal.endpointId, scanId);
      return Ok(ScanReply(accepted));
    }

    method RecordScanStatus(principal: Principal, scanId: Id, status: Document, now: Time, key: string,
            digest: Digest) returns (r: Outcome)
      modifies this
      ensures (Contents(), r) == Step(codec, old(Contents()), ReportStatus(principal, scanId, status, now, key, digest))
    {
      hide ValidStatus, Owns;
      var requestKey := (principal.tenantId, ReportingStatus(scanId), key);
      var replay := Replayed(requestKey, digest);
      if replay.Conflict? { return Refused(IdempotencyConflict); }
      if replay.Repeated? { return Ok(replay.reply); }
      if scanId !in scans.rows || !Owns(principal, scans.rows[scanId]) {
        return Refused(NotOwner);
      }
      if !ValidStatus(scans.rows[scanId], status) {
        return Refused(StateConflict);
      }
      var updated := scans.rows[scanId].(terminalStatus := Some(status), updatedAt := now);
      scans := scans.Put(scanId, updated);
      RememberReply(requestKey, digest, ScanReply(updated));
      Audit(principal.tenantId, StatusAccepted, principal.endpointId, scanId);
      return Ok(ScanReply(updated));
    }

    method RecordRejection(principal: Principal, notice: RejectionNotice, now: Time, key: string,
            digest: Digest) returns (r: Outcome)
      modifies this
      ensures (Contents(), r) == Step(codec, old(Contents()), ReportRejection(principal, notice, now, key, digest))
    {
      var requestKey := (principal.tenantId, Rejecting(notice.documentDigest), key);
      var replay := Replayed(requestKey, digest);
      if replay.Conflict? { return Refused(IdempotencyConflict); }
      if replay.Repeated? { return Ok(replay.reply); }
      var resource := notice.documentDigest;
      if notice.scanId.Some? && notice.scanId.value != "" {
        resource := notice.scanId.value;
        if resource in scans.rows {
          var record := scans.rows[resource];
          if record.tenantId != principal.tenantId || record.endpointId != principal.endpointId {
            return Refused(NotOwner);
          }
          scans := scans.Put(resource, record.(state := Rejected, updatedAt := now));
        }
      }
      rejections := rejections + [notice];
      RememberReply(requestKey, digest, Acknowledged);
      Audit(principal.tenantId, JobRejected, principal.endpointId, resource);
      return Ok(Acknowledged);
    }

    // ---------------------------------------------------------------- analysis tasks

    /** The first task in order of creation that may be claimed. */
    method FindClaimable(kind: Kind, now: Time) returns (found: Option<Id>)
      ensures found == FirstClaimable(tasks.rows, TaskOrder(tasks), kind, now)
    {
      hide SortBy;
      var candidates := TaskOrder(tasks);
      var i := 0;
      while i < |candidates|
        invariant 0 <= i <= |candidates|
        invariant FirstClaimable(tasks.rows, candidates, kind, now)
                  == FirstClaimable(tasks.rows, candidates[i..], kind, now)
      {
        var task := tasks.rows[candidates[i]];
        var leaseExpired := task.leaseExpiresAt.Some? && task.leaseExpiresAt.value <= now;
        var eligible := task.state == Pending || task.state == Retry || (task.state == Running && leaseExpired);
        assert candidates[i..][1..] == candidates[i + 1..];
        if task.kind == kind && eligible && task.availableAt <= now {
          return Some(candidates[i]);
        }
        i := i + 1;
      }
      return None;
    }

    method ClaimAnalysisTask(kind: Kind, workerId: Id, leaseSeconds: int, now: Time) returns (r: Outcome)
      modifies this
      ensures (Contents(), r) == Step(codec, old(Contents()), ClaimTask(kind, workerId, leaseSeconds, now))
    {
      hide TaskOrder, FirstClaimable;
      if |workerId| == 0 || |workerId| > 128 || !(10 <= leaseSeconds <= 3600) {
        return Refused(InvalidRequest);
      }
      var found := FindClaimable(kind, now);
      if found.None? {
        return Ok(Nothing);
      }
      var task := tasks.rows[found.value];
      var claimed := task.(
        state := Running, attempts := task.attempts + 1, leasedBy := Some(workerId), leaseExpiresAt :=
            Some(now + leaseSeconds * SECOND),
        updatedAt := now);
      tasks := tasks.Put(found.value, claimed);
      return Ok(TaskReply(claimed));
    }

    method CompleteAnalysisTask(taskId: Id, workerId: Id, result: string, now: Time) returns (r: Outcome)
      modifies this
      ensures (Contents(), r) == Step(codec, old(Contents()), CompleteTask(taskId, workerId, result, now))
    {
      if taskId !in tasks.rows {
        return Refused(NotFound);
      }
      var task := tasks.rows[taskId];
      if task.state != Running || task.leasedBy != Some(workerId) {
        return Refused(StateConflict);
      }
      tasks := tasks.Put(taskId,
        task.(state := Succeeded, result := Some(result), leaseExpiresAt := None, leasedBy := None, updatedAt := now));
      return Ok(Nothing);
    }

    method FailAnalysisTask(taskId: Id, workerId: Id, error: string, retryAt: Time, deadLetter: bool,
            now: Time) returns (r: Outcome)
      modifies this
      ensures (Contents(), r)
              == Step(codec, old(Contents()), FailTask(taskId, workerId, error, retryAt, deadLetter, now))
    {
      if taskId !in tasks.rows {
        return Refused(NotFound);
      }
      var task := tasks.rows[taskId];
      if task.state != Running || task.leasedBy != Some(workerId) {
        return Refused(StateConflict);
      }
      tasks := tasks.Put(taskId,
        task.(state := if deadLetter then Failed else Retry, availableAt := Max(now, retryAt), leaseExpiresAt := None,
            leasedBy := None,
              lastError := Some(SanitizeError(error)), updatedAt := now));
      return Ok(Nothing);
    }

    // ---------------------------------------------------------------- reports

    /** `get_scan_analysis_input`: the evidence of a scan that has some. */
    method GetScanAnalysisInput(scanId: Id) returns (upload: Option<Upload>)
      ensures upload == AnalysisInput(Contents(), scanId)
    {
      if scanId !in scans.rows {
        return None;
      }
      return scans.rows[scanId].upload;
    }

    method ListScanAnalysisResults(scanId: Id) returns (results: map<Kind, ToolResult>)
      ensures results == ScanAnalysisResults(Contents(), scanId)
    {
      results := map[];
      var i := 0;
      while i < |tasks.order|
        invariant 0 <= i <= |tasks.order|
        invariant results == Results(tasks.rows, tasks.order[..i], scanId)
      {
        var task := tasks.rows[tasks.order[i]];
        if task.scanId == scanId {
          if task.state == Succeeded && task.result.Some? {
            results := results[task.kind := Analyzed(task.result.value)];
          } else if task.state == Failed {
            results := results[task.kind := DeadLetter(DeadLetterError(task), task.attempts)];
          }
        }
        assert tasks.order[..i + 1][..i] == tasks.order[..i];
        i := i + 1;
      }
      assert tasks.order[..i] == tasks.order;
    }

    method ListTaskStates(scanId: Id) returns (states: map<Kind, TaskState>)
      ensures states == StatesOf(Contents(), scanId)
    {
      states := map[];
      var i := 0;
      while i < |tasks.order|
        invariant 0 <= i <= |tasks.order|
        invariant states == TaskStates(tasks.rows, tasks.order[..i], scanId)
      {
        var task := tasks.rows[tasks.order[i]];
        if task.scanId == scanId {
          states := states[task.kind := task.state];
        }
        assert tasks.order[..i + 1][..i] == tasks.order[..i];
        i := i + 1;
      }
      assert tasks.order[..i] == tasks.order;
    }

    method NextScanReadyForFinalization() returns (ready: Option<Id>)
      ensures ready == NextReady(Contents())
    {
      hide SortBy, AllTerminal, StatesOf;
      var candidates := LeastRecentlyUpdated(scans);
      var i := 0;
      while i < |candidates|
        invariant 0 <= i <= |candidates|
        invariant FirstReady(Contents(), candidates) == FirstReady(Contents(), candidates[i..])
      {
        var record := scans.rows[candidates[i]];
        assert candidates[i..][1..] == candidates[i + 1..];
        if record.state == Analyzing && record.finalReport.None? {
          var states := ListTaskStates(candidates[i]);
          if AllTerminal(states) {
            return Some(candidates[i]);
          }
        }
        i := i + 1;
      }
      return None;
    }

    method FinalizeScanReport(scanId: Id, report: string, now: Time) returns (r: Outcome)
      modifies this
      ensures (Contents(), r) == Step(codec, old(Contents()), Finalize(scanId, report, now))
    {
      if scanId !in scans.rows {
        return Refused(NotFound);
      }
      var record := scans.rows[scanId];
      if record.finalReport.Some? {
        if record.finalReport.value == FinalReport(report) {
          return Ok(Nothing);
        }
        return Refused(StateConflict);
      }
      var states := ListTaskStates(scanId);
      if !AllTerminal(states) {
        return Refused(StateConflict);
      }
      scans := scans.Put(scanId,
          record.(state := Complete, finalReport := Some(FinalReport(report)), updatedAt := now));
      Audit(record.tenantId, ReportFinalized, "normalizer", scanId);
      return Ok(Nothing);
    }

    method FinalizeScanReportFailure(scanId: Id, error: string, now: Time) returns (r: Outcome)
      modifies this
      ensures (Contents(), r) == Step(codec, old(Contents()), FinalizeFailure(scanId, error, now))
    {
      if scanId !in scans.rows {
        return Refused(NotFound);
      }
      var record := scans.rows[scanId];
      if record.finalReport.Some? {
        return Ok(Nothing);
      }
      var report := NormalizationFailure(scanId, record.endpointId, SanitizeError(error), now);
      scans := scans.Put(scanId, record.(state := Complete, finalReport := Some(report), updatedAt := now));
      Audit(record.tenantId, NormalizationFailed, "normalizer", scanId);
      return Ok(Nothing);
    }

    // ---------------------------------------------------------------- everyone else

    /** Any operation, through the method that does it. */
    method Take(op: Op) returns (r: Outcome)
      modifies this
      ensures (Contents(), r) == Step(codec, old(Contents()), op)
    {
      hide Step;
      match op
      case CreateGrant(grant, key, digest) => r := CreateEnrollmentGrant(grant, key, digest);
      case Enroll(tenantId, endpoint, credential, grantHash, key, digest) =>
        r := EnrollEndpoint(tenantId, endpoint, credential, grantHash, key, digest);
      case Rotate(principal, generation, credentialId, credential, overlapSeconds, key, digest) =>
        r := RotateCredential(principal, generation, credentialId, credential, overlapSeconds, key, digest);
      case CreateScan(tenantId, record, key, digest) => r := CreateScanJob(tenantId, record, key, digest);
      case PollJob(principal, now) => r := ClaimNextJob(principal, now);
      case Ingest(principal, scanId, upload, added, now, key, digest) =>
        r := IngestScan(principal, scanId, upload, added, now, key, digest);
      case ReportStatus(principal, scanId, status, now, key, digest) =>
        r := RecordScanStatus(principal, scanId, status, now, key, digest);
      case ReportRejection(principal, notice, now, key, digest) =>
          r := RecordRejection(principal, notice, now, key, digest);
      case ClaimTask(kind, workerId, leaseSeconds, now) => r := ClaimAnalysisTask(kind, workerId, leaseSeconds, now);
      case CompleteTask(taskId, workerId, result, now) => r := CompleteAnalysisTask(taskId, workerId, result, now);
      case FailTask(taskId, workerId, error, retryAt, deadLetter, now) =>
        r := FailAnalysisTask(taskId, workerId, error, retryAt, deadLetter, now);
      case Finalize(scanId, report, now) => r := FinalizeScanReport(scanId, report, now);
      case FinalizeFailure(scanId, error, now) => r := FinalizeScanReportFailure(scanId, error, now);
    }

    /** What other callers do while one caller does not hold the lock. */
    method Meanwhile(ops: seq<Op>)
      modifies this
      ensures Contents() == Run(codec, old(Contents()), ops)
    {
      hide Step;
      var i := 0;
      assert ops[i..] == ops;
      while i < |ops|
        invariant 0 <= i <= |ops|
        invariant Run(codec, old(Contents()), ops) == Run(codec, Contents(), ops[i..])
      {
        assert ops[i..][1..] == ops[i + 1..];
        var _ := Take(ops[i]);
        i := i + 1;
      }
    }
  }
}
