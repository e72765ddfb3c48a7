/** Requests with an idempotency key: repeats and refusals leave no trace, and grants are used once. */
module Idempotency {
  import opened Prelude
  import opened OrderedDict
  import opened Records
  import opened Inventory
  import opened ControlPlane
  import opened Callers
  import opened Transitions

  // ---------------------------------------------------------------- what is remembered

  lemma PerformAnswersNothing(codec: Codec, s: State, op: Op)
    ensures Perform(codec, s, op).0.answered == s.answered
  {
    hide Perform;
    PerformFramed(codec, s, op);
  }

  /** A step remembers at most the answer to its own request, under a key that was free. */
  lemma Answered(codec: Codec, s: State, op: Op)
    ensures var (t, outcome) := Step(codec, s, op);
            || t.answered == s.answered
            || (KeyOf(op).Some? && outcome.Ok? && KeyOf(op).value.0 !in s.answered
                && t.answered == s.answered[KeyOf(op).value.0 := (KeyOf(op).value.1, outcome.reply)])
  {
    hide Perform;
    PerformAnswersNothing(codec, s, op);
  }

  /** Answers are never forgotten or replaced. */
  lemma {:induction false} RememberedForever(codec: Codec, s: State, ops: seq<Op>, key: RequestKey)
    requires key in s.answered
    ensures key in Run(codec, s, ops).answered && Run(codec, s, ops).answered[key] == s.answered[key]
    decreases |ops|
  {
    hide Step;
    if ops == [] {
    } else {
      Answered(codec, s, ops[0]);
      RememberedForever(codec, Step(codec, s, ops[0]).0, ops[1..], key);
    }
  }

  lemma AcceptedIsRemembered(codec: Codec, s: State, op: Op)
    requires KeyOf(op).Some? && Step(codec, s, op).1.Ok?
    ensures var (key, digest) := KeyOf(op).value;
            var (t, outcome) := Step(codec, s, op);
            key in t.answered && t.answered[key] == (digest, outcome.reply)
  {
    hide Perform;
  }

  /**
   * An accepted request answers every later request under its key: the same reply to a repeat, a conflict to anything
   * else.
   */
  lemma OriginalReply(codec: Codec, s: State, op: Op, ops: seq<Op>, again: Op)
    requires KeyOf(op).Some? && Step(codec, s, op).1.Ok?
    requires KeyOf(again).Some? && KeyOf(again).value.0 == KeyOf(op).value.0
    ensures var t := Run(codec, Step(codec, s, op).0, ops);
            Step(codec, t, again)
                == (t, if KeyOf(again).value.1 == KeyOf(op).value.1 then Step(codec, s, op).1
                    else Refused(IdempotencyConflict))
  {
    hide Perform, Run;
    AcceptedIsRemembered(codec, s, op);
    RememberedForever(codec, Step(codec, s, op).0, ops, KeyOf(op).value.0);
  }

  // ---------------------------------------------------------------- refusals

  lemma TaskRefused(codec: Codec, s: State, op: Op)
    requires (op.ClaimTask? || op.CompleteTask? || op.FailTask?) && Perform(codec, s, op).1.Refused?
    ensures Perform(codec, s, op).0 == s
  {
    hide SanitizeError, FirstClaimable, TaskOrder, ValidLease, Holds, Leased, Released;
  }

  lemma ScanRefused(codec: Codec, s: State, op: Op)
    requires (op.CreateScan? || op.ReportStatus? || op.ReportRejection? || op.Finalize? || op.FinalizeFailure?)
             && Perform(codec, s, op).1.Refused?
    ensures Perform(codec, s, op).0 == s
  {
    hide Owns, ValidStatus, RejectedScan, StatesOf, AllTerminal, SanitizeError;
  }

  lemma IssuingRefused(codec: Codec, s: State, op: Op)
    requires (op.CreateGrant? || op.Enroll? || op.Rotate?) && Perform(codec, s, op).1.Refused?
    ensures Perform(codec, s, op).0 == s
  {
    hide CredentialNamed, GrantRefusal, Consume, Superseded;
  }

  lemma {:induction false} PollNeverRefused(s: State, candidates: seq<Id>, principal: Principal, now: Time)
    requires forall id | id in candidates :: id in s.scans.rows
    ensures DispatchFrom(s, candidates, principal, now).1.Ok?
    decreases |candidates|
  {
    hide JobDispatchEligibility, Dispatchable;
    if candidates == [] {
    } else {
      var id := candidates[0];
      if Dispatchable(principal, s.scans.rows[id])
          && JobDispatchEligibility(s.scans.rows[id], principal.endpointId, now) == Lapsed {
        PollNeverRefused(MarkExpired(s, id, principal, now), candidates[1..], principal, now);
      } else {
        PollNeverRefused(s, candidates[1..], principal, now);
      }
    }
  }

  /** Whatever is refused, for whatever reason, leaves the whole state as it was. */
  lemma RefusedChangesNothing(codec: Codec, s: State, op: Op)
    requires Step(codec, s, op).1.Refused?
    ensures Step(codec, s, op).0 == s
  {
    hide FreshIngest, DispatchFrom, OldestFirst, FreshGrant, FreshEnrollment, FreshRotation, FreshScan, FreshStatus;
    hide FreshRejection;
    hide ClaimAnalysisTask, CompleteAnalysisTask, FailAnalysisTask, FinalizeScanReport, FinalizeScanReportFailure;
    if Perform(codec, s, op).1.Refused? {
      match op
      case PollJob(principal, now) => PollNeverRefused(Touch(s, principal, now), OldestFirst(s.scans), principal, now);
      case Ingest(principal, scanId, upload, tasks, now, _, _) =>
          IngestAccepts(codec, s, principal, scanId, upload, tasks, now);
      case CreateGrant(_, _, _) => IssuingRefused(codec, s, op);
      case Enroll(_, _, _, _, _, _) => IssuingRefused(codec, s, op);
      case Rotate(_, _, _, _, _, _, _) => IssuingRefused(codec, s, op);
      case ClaimTask(_, _, _, _) => TaskRefused(codec, s, op);
      case CompleteTask(_, _, _, _) => TaskRefused(codec, s, op);
      case FailTask(_, _, _, _, _, _) => TaskRefused(codec, s, op);
      case _ => ScanRefused(codec, s, op);
    }
  }

  // ---------------------------------------------------------------- runs without repeats

  predicate IsRepeat(s: State, op: Op) {
    KeyOf(op).Some? && ReplayOf(s, KeyOf(op).value.0, KeyOf(op).value.1).Repeated?
  }

  /** `kept` is `ops` without some of the requests that were repeats or were refused when they came. */
  ghost predicate Drops(codec: Codec, s: State, ops: seq<Op>, kept: seq<Op>)
    decreases |ops|
  {
    if ops == [] then kept == []
    else
      || (kept != [] && kept[0] == ops[0] && Drops(codec, Step(codec, s, ops[0]).0, ops[1..], kept[1..]))
      || ((IsRepeat(s, ops[0]) || Step(codec, s, ops[0]).1.Refused?) && Drops(codec, s, ops[1..], kept))
  }

  lemma RepeatChangesNothing(codec: Codec, s: State, op: Op)
    requires IsRepeat(s, op)
    ensures Step(codec, s, op).0 == s
  {
    hide Perform;
  }

  /**
   * Retransmission is transparent: dropping any of them changes neither the records, nor the audit log, nor the
   * answers.
   */
  lemma {:induction false} RepeatsLeaveNoTrace(codec: Codec, s: State, ops: seq<Op>, kept: seq<Op>)
    requires Drops(codec, s, ops, kept)
    ensures Run(codec, s, ops) == Run(codec, s, kept)
    decreases |ops|
  {
    hide Step, IsRepeat;
    if ops == [] {
    } else {
      var t := Step(codec, s, ops[0]).0;
      if kept != [] && kept[0] == ops[0] && Drops(codec, t, ops[1..], kept[1..]) {
        RepeatsLeaveNoTrace(codec, t, ops[1..], kept[1..]);
      } else {
        if Step(codec, s, ops[0]).1.Refused? {
          RefusedChangesNothing(codec, s, ops[0]);
        } else {
          RepeatChangesNothing(codec, s, ops[0]);
        }
        RepeatsLeaveNoTrace(codec, s, ops[1..], kept);
      }
    }
  }

  // ---------------------------------------------------------------- enrollment grants

  /** A new grant is unused, and an endpoint is enrolled in the tenant it is enrolled for. */
  ghost predicate WellGranted(op: Op) {
    match op
    case CreateGrant(grant, _, _) => grant.consumedAt.None? && grant.endpointId.None?
    case Enroll(tenantId, endpoint, _, _, _, _) => endpoint.tenantId == tenantId
    case _ => true
  }

  /** A grant is unused, or names the one endpoint it enrolled, of its own tenant and operating system. */
  ghost predicate GrantSound(endpoints: map<Id, Endpoint>, g: Grant) {
    && (g.consumedAt.Some? <==> g.endpointId.Some?)
    && (g.endpointId.Some? ==>
          && g.endpointId.value in endpoints && endpoints[g.endpointId.value].tenantId == g.tenantId
          && (g.osFamily.Some? ==> endpoints[g.endpointId.value].osFamily == g.osFamily.value))
  }

  ghost predicate GrantsSound(endpoints: map<Id, Endpoint>, grants: map<Digest, Grant>) {
    && (forall h | h in grants :: GrantSound(endpoints, grants[h]))
    && (forall a, b | a in grants && b in grants && grants[a].endpointId.Some?
       && grants[a].endpointId == grants[b].endpointId :: a == b)
  }

  /** Endpoints stay, with their tenant and operating system. */
  ghost predicate EndpointsStay(a: map<Id, Endpoint>, b: map<Id, Endpoint>) {
    forall e | e in a :: e in b && b[e].tenantId == a[e].tenantId && b[e].osFamily == a[e].osFamily
  }

  lemma SameEndpoints(endpoints: map<Id, Endpoint>)
    ensures EndpointsStay(endpoints, endpoints)
  {
  }

  lemma EnrollmentKeepsEndpoints(s: State, tenantId: Id, endpoint: Endpoint, credential: Credential,
          grantHash: Option<Digest>)
    ensures EndpointsStay(s.endpoints, FreshEnrollment(s, tenantId, endpoint, credential, grantHash).0.endpoints)
  {
    hide GrantRefusal, Consume;
  }

  lemma RotationKeepsEndpoints(s: State, principal: Principal, generation: int, credentialId: Id,
          credential: Credential, overlapSeconds: int)
    ensures EndpointsStay(s.endpoints,
            FreshRotation(s, principal, generation, credentialId, credential, overlapSeconds).0.endpoints)
  {
    hide CredentialNamed, Superseded;
  }

  lemma PollKeepsEndpoints(s: State, principal: Principal, now: Time)
    ensures EndpointsStay(s.endpoints, ClaimNextJob(s, principal, now).0.endpoints)
  {
    hide ClaimNextJob;
    PollChanges(s, principal, now);
  }

  lemma PerformKeepsEndpoints(codec: Codec, s: State, op: Op)
    ensures EndpointsStay(s.endpoints, Perform(codec, s, op).0.endpoints)
  {
    hide CredentialNamed, GrantRefusal, Consume, Superseded, ClaimNextJob, FreshIngest, EndpointsStay;
    PerformFramed(codec, s, op);
    match op
    case Enroll(tenantId, endpoint, credential, grantHash, _, _) =>
        EnrollmentKeepsEndpoints(s, tenantId, endpoint, credential, grantHash);
    case Rotate(principal, generation, credentialId, credential, overlap, _, _) =>
      RotationKeepsEndpoints(s, principal, generation, credentialId, credential, overlap);
    case PollJob(principal, now) => PollKeepsEndpoints(s, principal, now);
    case _ => hide Perform; SameEndpoints(s.endpoints);
  }

  lemma EnrollmentKeepsGrants(s: State, tenantId: Id, endpoint: Endpoint, credential: Credential,
          grantHash: Option<Digest>)
    requires GrantsSound(s.endpoints, s.grants) && endpoint.tenantId == tenantId
    ensures var t := FreshEnrollment(s, tenantId, endpoint, credential, grantHash).0; GrantsSound(t.endpoints, t.grants)
  {
    var (t, outcome) := FreshEnrollment(s, tenantId, endpoint, credential, grantHash);
    if outcome.Ok? {
      forall h | h in t.grants ensures GrantSound(t.endpoints, t.grants[h]) {
        assert h in s.grants && GrantSound(s.endpoints, s.grants[h]);
      }
    }
  }

  lemma SameGrants(a: map<Id, Endpoint>, b: map<Id, Endpoint>, grants: map<Digest, Grant>)
    requires GrantsSound(a, grants) && EndpointsStay(a, b)
    ensures GrantsSound(b, grants)
  {
  }

  lemma GrantKeepsGrants(s: State, grant: Grant)
    requires GrantsSound(s.endpoints, s.grants) && grant.consumedAt.None? && grant.endpointId.None?
    ensures var t := FreshGrant(s, grant).0; GrantsSound(t.endpoints, t.grants)
  {
  }

  lemma StepKeepsGrants(codec: Codec, s: State, op: Op)
    requires GrantsSound(s.endpoints, s.grants) && WellGranted(op)
    ensures var t := Step(codec, s, op).0; GrantsSound(t.endpoints, t.grants)
  {
    hide Step, GrantsSound, FreshEnrollment;
    StepPerforms(codec, s, op);
    if op.Enroll? {
      EnrollmentKeepsGrants(s, op.tenantId, op.endpoint, op.credential, op.grantHash);
    } else if op.CreateGrant? {
      GrantKeepsGrants(s, op.grant);
    } else {
      hide Perform;
      PerformFramed(codec, s, op);
      PerformKeepsEndpoints(codec, s, op);
      SameGrants(s.endpoints, Perform(codec, s, op).0.endpoints, s.grants);
    }
  }

  /** In every reachable state each grant enrolled at most one endpoint, and each endpoint used at most one grant. */
  lemma {:induction false} RunKeepsGrants(codec: Codec, s: State, ops: seq<Op>)
    requires GrantsSound(s.endpoints, s.grants) && forall op | op in ops :: WellGranted(op)
    ensures var t := Run(codec, s, ops); GrantsSound(t.endpoints, t.grants)
    decreases |ops|
  {
    hide Step, GrantsSound, WellGranted;
    if ops == [] {
    } else {
      StepKeepsGrants(codec, s, ops[0]);
      RunKeepsGrants(codec, Step(codec, s, ops[0]).0, ops[1..]);
    }
  }

  /** Only whether, when and for which endpoint a grant was used ever changes. */
  ghost predicate SameGrant(a: Grant, b: Grant) {
    b == a.(consumedAt := b.consumedAt, endpointId := b.endpointId)
  }

  /** A stored grant keeps everything but its use, and its use as well once there was one. */
  ghost predicate GrantStays(s: State, t: State, hash: Digest)
    requires hash in s.grants
  {
    && hash in t.grants && SameGrant(s.grants[hash], t.grants[hash])
    && (s.grants[hash].consumedAt.Some? ==> t.grants[hash] == s.grants[hash])
  }

  lemma EnrollmentKeepsGrant(s: State, tenantId: Id, endpoint: Endpoint, credential: Credential,
          grantHash: Option<Digest>, hash: Digest)
    requires hash in s.grants
    ensures GrantStays(s, FreshEnrollment(s, tenantId, endpoint, credential, grantHash).0, hash)
  {
  }

  lemma CreationKeepsGrant(s: State, grant: Grant, hash: Digest)
    requires hash in s.grants
    ensures GrantStays(s, FreshGrant(s, grant).0, hash)
  {
  }

  lemma StepKeepsGrant(codec: Codec, s: State, op: Op, hash: Digest)
    requires hash in s.grants
    ensures GrantStays(s, Step(codec, s, op).0, hash)
  {
    hide Step, FreshEnrollment, FreshGrant;
    StepPerforms(codec, s, op);
    if op.Enroll? {
      EnrollmentKeepsGrant(s, op.tenantId, op.endpoint, op.credential, op.grantHash, hash);
    } else if op.CreateGrant? {
      CreationKeepsGrant(s, op.grant, hash);
    } else {
      hide Perform;
      PerformFramed(codec, s, op);
    }
  }

  /** Over any run, a stored grant is found under its token exactly until it expires, used or not. */
  lemma {:induction false} GrantFoundUntilExpiry(codec: Codec, s: State, ops: seq<Op>, hash: Digest, now: Time)
    requires hash in s.grants
    ensures var found := AuthenticateGrant(Run(codec, s, ops), hash, now);
            && (found.Some? <==> now < s.grants[hash].expiresAt)
            && (found.Some? ==> SameGrant(s.grants[hash], found.value))
    decreases |ops|
  {
    if ops == [] {
    } else {
      hide Step;
      StepKeepsGrant(codec, s, ops[0], hash);
      GrantFoundUntilExpiry(codec, Step(codec, s, ops[0]).0, ops[1..], hash, now);
    }
  }

  /** A grant that was accepted is found from then on, until it expires; before, nothing was found under its token. */
  lemma CreatedGrantIsFound(codec: Codec, s: State, op: Op, ops: seq<Op>, now: Time)
    requires op.CreateGrant? && KeyOf(op).value.0 !in s.answered && Step(codec, s, op).1.Ok?
    ensures AuthenticateGrant(s, op.grant.tokenHash, now).None?
    ensures var found := AuthenticateGrant(Run(codec, Step(codec, s, op).0, ops), op.grant.tokenHash, now);
            && (found.Some? <==> now < op.grant.expiresAt)
            && (found.Some? ==> SameGrant(op.grant, found.value))
  {
    hide Run;
    GrantFoundUntilExpiry(codec, Step(codec, s, op).0, ops, op.grant.tokenHash, now);
  }

  /** A used grant stays as it is, and never enrolls another endpoint. */
  lemma {:induction false} UsedGrantIsSpent(codec: Codec, s: State, ops: seq<Op>, hash: Digest, again: Op)
    requires hash in s.grants && s.grants[hash].consumedAt.Some?
    requires again.Enroll? && again.grantHash == Some(hash)
    ensures var t := Run(codec, s, ops);
            && hash in t.grants && t.grants[hash] == s.grants[hash]
            && Perform(codec, t, again).1.Refused? && Step(codec, t, again).0 == t
    decreases |ops|
  {
    if ops == [] {
    } else {
      hide Step, Perform;
      StepKeepsGrant(codec, s, ops[0], hash);
      UsedGrantIsSpent(codec, Step(codec, s, ops[0]).0, ops[1..], hash, again);
    }
  }
}
