/** What an authenticated endpoint can touch: its own scans, inventory and credentials, and nothing else. */
module Isolation {
  import opened Prelude
  import opened OrderedDict
  import opened Records
  import opened Inventory
  import opened ControlPlane
  import opened Callers
  import opened Transitions
  import opened Credentials

  /** The endpoint on whose behalf the operation is done, for those that endpoints do. */
  function Actor(op: Op): Option<Principal> {
    match op
    case Rotate(principal, _, _, _, _, _, _) => Some(principal)
    case PollJob(principal, _) => Some(principal)
    case Ingest(principal, _, _, _, _, _, _) => Some(principal)
    case ReportStatus(principal, _, _, _, _, _) => Some(principal)
    case ReportRejection(principal, _, _, _, _) => Some(principal)
    case _ => None
  }

  ghost predicate OwnScansOnly(principal: Principal, s: State, t: State) {
    && t.scans.rows.Keys == s.scans.rows.Keys
    && forall id | id in s.scans.rows && !Owns(principal, s.scans.rows[id]) :: t.scans.rows[id] == s.scans.rows[id]
  }

  ghost predicate OwnInventoryOnly(principal: Principal, s: State, t: State) {
    forall key | key != (principal.tenantId, principal.endpointId) ::
      (key in s.inventory <==> key in t.inventory) && (key in s.inventory ==> t.inventory[key] == s.inventory[key])
  }

  ghost predicate OwnCredentialsOnly(principal: Principal, s: State, t: State) {
    forall hash | hash in s.credentials.rows && s.credentials.rows[hash].endpointId != principal.endpointId ::
      hash in t.credentials.rows && t.credentials.rows[hash] == s.credentials.rows[hash]
  }

  ghost predicate OwnEndpointOnly(principal: Principal, s: State, t: State) {
    && t.endpoints.Keys == s.endpoints.Keys
    && forall e | e in s.endpoints && (e != principal.endpointId || s.endpoints[e].tenantId != principal.tenantId) ::
       t.endpoints[e] == s.endpoints[e]
  }

  ghost predicate OwnTasksOnly(principal: Principal, s: State, t: State) {
    && (forall id | id in s.tasks.rows :: id in t.tasks.rows && t.tasks.rows[id] == s.tasks.rows[id])
    && (forall id | id in t.tasks.rows && id !in s.tasks.rows ::
          t.tasks.rows[id].tenantId == principal.tenantId && t.tasks.rows[id].endpointId == principal.endpointId)
  }

  lemma PollOwns(s: State, principal: Principal, now: Time)
    ensures OwnScansOnly(principal, s, ClaimNextJob(s, principal, now).0)
    ensures OwnEndpointOnly(principal, s, ClaimNextJob(s, principal, now).0)
  {
    hide ClaimNextJob;
    PollChanges(s, principal, now);
    var t := ClaimNextJob(s, principal, now).0;
    forall id | id in s.scans.rows && !Owns(principal, s.scans.rows[id]) ensures t.scans.rows[id] == s.scans.rows[id] {
      assert PollMoves(principal, now, s.scans.rows[id], t.scans.rows[id]);
    }
  }

  lemma IngestOwns(codec: Codec, s: State, op: Op)
    requires op.Ingest?
    ensures OwnScansOnly(op.principal, s, FreshIngest(codec, s, op.principal, op.scanId, op.upload, op.tasks, op.now).0)
  {
    hide FreshIngest, PutTasks, Owns, TaskFits;
    IngestAccepts(codec, s, op.principal, op.scanId, op.upload, op.tasks, op.now);
  }

  lemma AddedTasksAreOwn(s: State, op: Op)
    requires op.Ingest? && forall task | task in op.tasks :: TaskFits(s, task, op.principal, op.scanId)
    ensures OwnTasksOnly(op.principal, s, s.(tasks := PutTasks(s.tasks, op.tasks)))
  {
    hide PutTasks;
    PutTasksContents(s.tasks, op.tasks);
    assert forall id | id in s.tasks.rows :: !Names(op.tasks, id);
  }

  lemma IngestOwnsTasks(codec: Codec, s: State, op: Op)
    requires op.Ingest?
    ensures OwnTasksOnly(op.principal, s, FreshIngest(codec, s, op.principal, op.scanId, op.upload, op.tasks, op.now).0)
  {
    hide FreshIngest, PutTasks, OwnedScan;
    IngestAccepts(codec, s, op.principal, op.scanId, op.upload, op.tasks, op.now);
    if FreshIngest(codec, s, op.principal, op.scanId, op.upload, op.tasks, op.now).1.Ok? {
      AddedTasksAreOwn(s, op);
    }
  }

  lemma IngestOwnsInventory(codec: Codec, s: State, op: Op)
    requires op.Ingest?
    ensures OwnInventoryOnly(op.principal, s,
            FreshIngest(codec, s, op.principal, op.scanId, op.upload, op.tasks, op.now).0)
  {
    hide Reconstruct, ValidUpload, TaskFits, PutTasks, OwnedScan, Stored, Evidenced;
  }

  lemma StatusOwns(s: State, principal: Principal, scanId: Id, status: Document, now: Time)
    ensures OwnScansOnly(principal, s, FreshStatus(s, principal, scanId, status, now).0)
  {
    hide ValidStatus, Owns;
  }

  lemma RejectionOwns(s: State, principal: Principal, notice: RejectionNotice, now: Time)
    ensures OwnScansOnly(principal, s, FreshRejection(s, principal, notice, now).0)
  {
    hide Owns;
  }

  lemma RotationOwns(s: State, op: Op)
    requires op.Rotate? && op.credential.tokenHash !in s.credentials.rows
    ensures var t := FreshRotation(s, op.principal, op.expectedGeneration, op.expectedCredentialId, op.credential,
            op.overlapSeconds).0;
            OwnCredentialsOnly(op.principal, s, t) && OwnEndpointOnly(op.principal, s, t)
  {
    hide FreshRotation;
    RotationEffect(s, op.principal, op.expectedGeneration, op.expectedCredentialId, op.credential, op.overlapSeconds);
  }

  /** Nothing of any other endpoint differs. */
  ghost predicate Isolated(p: Principal, s: State, t: State) {
    OwnScansOnly(p, s, t) && OwnInventoryOnly(p, s, t) && OwnCredentialsOnly(p, s, t) && OwnEndpointOnly(p, s, t)
        && OwnTasksOnly(p, s, t)
  }

  lemma IsolatedBySteps(p: Principal, s: State, t: State)
    requires t.scans == s.scans || OwnScansOnly(p, s, t)
    requires t.inventory == s.inventory || OwnInventoryOnly(p, s, t)
    requires t.credentials == s.credentials || OwnCredentialsOnly(p, s, t)
    requires t.endpoints == s.endpoints || OwnEndpointOnly(p, s, t)
    requires t.tasks == s.tasks || OwnTasksOnly(p, s, t)
    ensures Isolated(p, s, t) && forall answered :: Isolated(p, s, t.(answered := answered))
  {
  }

  lemma PerformIsIsolated(codec: Codec, s: State, op: Op)
    requires Actor(op).Some? && (op.Rotate? ==> op.credential.tokenHash !in s.credentials.rows)
    ensures var t := Perform(codec, s, op).0;
            Isolated(Actor(op).value, s, t) && forall answered :: Isolated(Actor(op).value, s, t.(answered := answered))
  {
    hide ClaimNextJob, FreshIngest, FreshStatus, FreshRejection, FreshRotation;
    hide OwnScansOnly, OwnEndpointOnly, OwnCredentialsOnly, OwnInventoryOnly, OwnTasksOnly, Isolated;
    PerformFramed(codec, s, op);
    match op {
      case Rotate(_, _, _, _, _, _, _) => RotationOwns(s, op);
      case PollJob(principal, now) => PollOwns(s, principal, now);
      case Ingest(_, _, _, _, _, _, _) => IngestOwns(codec, s, op); IngestOwnsTasks(codec, s, op);
          IngestOwnsInventory(codec, s, op);
      case ReportStatus(principal, scanId, status, now, _, _) => StatusOwns(s, principal, scanId, status, now);
      case ReportRejection(principal, notice, now, _, _) => RejectionOwns(s, principal, notice, now);
    }
    IsolatedBySteps(Actor(op).value, s, Perform(codec, s, op).0);
  }

  /**
   * Whatever an endpoint sends, with whatever identifiers in it, the scans, tasks, inventories, credentials and records
   * of every other endpoint stay exactly as they were.
   */
  lemma EndpointsAreIsolated(codec: Codec, s: State, op: Op)
    requires Actor(op).Some? && (op.Rotate? ==> op.credential.tokenHash !in s.credentials.rows)
    ensures Isolated(Actor(op).value, s, Step(codec, s, op).0)
  {
    hide Step, Perform, Isolated;
    StepPerforms(codec, s, op);
    PerformIsIsolated(codec, s, op);
    IsolatedBySteps(Actor(op).value, s, s);
  }
}
