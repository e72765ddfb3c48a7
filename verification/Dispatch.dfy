/** Dispatching authorized scans to their endpoint: which one, when, and how far apart. */
module Dispatch {
  import opened Prelude
  import opened OrderedDict
  import opened Records
  import opened Inventory
  import opened ControlPlane
  import opened Callers
  import opened Transitions
  import opened Lifecycle

  // ---------------------------------------------------------------- when a scan may be dispatched

  /** The authorization names the endpoint, has begun, and neither it nor the job's deadline has passed. */
  ghost predicate InWindow(job: Job, endpointId: Id, now: Time) {
    && job.authorization.Some? && job.authorization.value.authorized
    && job.authorization.value.allowedEndpoints.Some? && endpointId in job.authorization.value.allowedEndpoints.value
    && job.authorization.value.validFrom.Some? && job.authorization.value.validFrom.value <= now
    && job.authorization.value.expiresAt.Some? && now < job.authorization.value.expiresAt.value
    && job.deadline.Some? && now < job.deadline.value
    && !job.notBefore.Unreadable? && (job.notBefore.At? ==> job.notBefore.time <= now)
  }

  /** The last dispatch of a dispatched scan was its timeout and the grace ago. */
  ghost predicate LeaseOver(record: Scan, now: Time) {
    && record.job.timeoutSeconds.Some? && 10 <= record.job.timeoutSeconds.value <= 86_400
    && record.updatedAt + (record.job.timeoutSeconds.value + JOB_DISPATCH_GRACE_SECONDS) * SECOND <= now
  }

  /** Exactly then a scan is eligible. */
  lemma EligibleExactly(record: Scan, endpointId: Id, now: Time)
    ensures JobDispatchEligibility(record, endpointId, now) == Eligible <==>
              InWindow(record.job, endpointId, now)
                  && (record.state == Queued || (record.state == Dispatched && LeaseOver(record, now)))
  {
  }

  /** The authorization and the job are readable, name the endpoint, and have not run out. */
  ghost predicate StillGood(job: Job, endpointId: Id, now: Time) {
    && job.authorization.Some? && job.authorization.value.authorized
    && job.authorization.value.allowedEndpoints.Some? && endpointId in job.authorization.value.allowedEndpoints.value
    && job.authorization.value.validFrom.Some? && job.authorization.value.expiresAt.Some?
       && now < job.authorization.value.expiresAt.value
    && job.deadline.Some? && now < job.deadline.value
  }

  /** A scan waits exactly when it is good but the authorization or the job has not begun. */
  lemma WaitingExactly(record: Scan, endpointId: Id, now: Time)
    ensures JobDispatchEligibility(record, endpointId, now) == Waiting <==>
              && StillGood(record.job, endpointId, now)
              && (now < record.job.authorization.value.validFrom.value
                 || (record.job.notBefore.At? && now < record.job.notBefore.time))
  {
  }

  /** What counts as expired once would never be eligible again: marking it loses nothing. */
  lemma ExpiredForGood(record: Scan, endpointId: Id, now: Time, later: Time)
    requires JobDispatchEligibility(record, endpointId, now) == Lapsed && now <= later
    ensures JobDispatchEligibility(record, endpointId, later) == Lapsed
  {
  }

  // ---------------------------------------------------------------- what a poll does

  ghost predicate Chosen(scans: map<Id, Scan>, principal: Principal, id: Id, now: Time)
    requires id in scans
  {
    Dispatchable(principal, scans[id]) && JobDispatchEligibility(scans[id], principal.endpointId, now) == Eligible
  }

  ghost predicate Outlived(scans: map<Id, Scan>, principal: Principal, id: Id, now: Time)
    requires id in scans
  {
    Dispatchable(principal, scans[id]) && JobDispatchEligibility(scans[id], principal.endpointId, now) == Lapsed
  }

  /** The first `k` candidates are not chosen; the outlived ones among them expire, and candidate `k` is dispatched. */
  ghost predicate PollResult(a: map<Id, Scan>, b: map<Id, Scan>, outcome: Outcome, candidates: seq<Id>, k: nat,
          principal: Principal, now: Time)
    requires k <= |candidates| && forall id | id in candidates :: id in a
  {
    && b.Keys == a.Keys
    && (forall i | 0 <= i < k :: !Chosen(a, principal, candidates[i], now))
    && (forall i | 0 <= i < k ::
          b[candidates[i]] == if Outlived(a, principal, candidates[i], now)
              then a[candidates[i]].(state := Expired, updatedAt := now) else a[candidates[i]])
    && (forall id | id in a && id !in candidates[..k] && (k < |candidates| ==> id != candidates[k]) :: b[id] == a[id])
    && (if k < |candidates| then
          Chosen(a, principal, candidates[k], now)
          && b[candidates[k]] == a[candidates[k]].(state := Dispatched, updatedAt := now)
             && outcome == Ok(ScanReply(b[candidates[k]]))
        else outcome == Ok(Nothing))
  }

  ghost predicate PollsTo(a: map<Id, Scan>, b: map<Id, Scan>, outcome: Outcome, candidates: seq<Id>,
          principal: Principal, now: Time)
    requires forall id | id in candidates :: id in a
  {
    exists k: nat :: k <= |candidates| && PollResult(a, b, outcome, candidates, k, principal, now)
  }

  lemma RestUntouched(candidates: seq<Id>, k: nat)
    requires candidates != [] && k <= |candidates| - 1
    ensures forall id | id !in candidates[..k + 1] :: id != candidates[0] && id !in candidates[1..][..k]
  {
    assert candidates[..k + 1] == [candidates[0]] + candidates[1..][..k];
  }

  lemma SameView(a: map<Id, Scan>, u: map<Id, Scan>, principal: Principal, id: Id, now: Time)
    requires id in a && id in u && a[id] == u[id]
    ensures Chosen(a, principal, id, now) == Chosen(u, principal, id, now)
    ensures Outlived(a, principal, id, now) == Outlived(u, principal, id, now)
  {
  }

  /** Looking at one candidate that is not chosen, and then at the rest. */
  lemma PollRest(a: map<Id, Scan>, u: map<Id, Scan>, b: map<Id, Scan>, outcome: Outcome, candidates: seq<Id>, k: nat,
          principal: Principal, now: Time)
    requires candidates != [] && Differ(candidates) && forall id | id in candidates :: id in a
    requires k <= |candidates| - 1 && forall id | id in candidates[1..] :: id in u
    requires !Chosen(a, principal, candidates[0], now)
    requires u == a[candidates[0] := if Outlived(a, principal, candidates[0], now)
             then a[candidates[0]].(state := Expired, updatedAt := now) else a[candidates[0]]]
    requires PollResult(u, b, outcome, candidates[1..], k, principal, now)
    ensures PollResult(a, b, outcome, candidates, k + 1, principal, now)
  {
    hide Chosen, Outlived;
    var rest := candidates[1..];
    assert forall i | 0 <= i < |rest| :: rest[i] == candidates[i + 1] && rest[i] != candidates[0];
    assert forall i | 0 <= i < |rest| :: u[rest[i]] == a[rest[i]];
    forall i | 0 <= i < |rest|
      ensures Chosen(a, principal, rest[i], now) == Chosen(u, principal, rest[i], now)
      ensures Outlived(a, principal, rest[i], now) == Outlived(u, principal, rest[i], now)
    {
      SameView(a, u, principal, rest[i], now);
    }
    assert candidates[0] !in rest[..k] && (k < |rest| ==> candidates[0] != rest[k]);
    forall i | 0 <= i < k + 1
      ensures !Chosen(a, principal, candidates[i], now)
      ensures b[candidates[i]] == if Outlived(a, principal, candidates[i], now)
              then a[candidates[i]].(state := Expired, updatedAt := now) else a[candidates[i]]
    {
      if i > 0 { assert !Chosen(u, principal, rest[i - 1], now); }
    }
    RestUntouched(candidates, k);
  }

  lemma NoCandidates(s: State, principal: Principal, now: Time)
    ensures PollResult(s.scans.rows, s.scans.rows, Ok(Nothing), [], 0, principal, now)
  {
  }

  lemma FirstChosen(s: State, candidates: seq<Id>, principal: Principal, now: Time)
    requires candidates != [] && (forall id | id in candidates :: id in s.scans.rows)
             && Chosen(s.scans.rows, principal, candidates[0], now)
    ensures var (t, outcome) := DispatchFrom(s, candidates, principal, now);
            PollResult(s.scans.rows, t.scans.rows, outcome, candidates, 0, principal, now)
  {
    hide Dispatchable, JobDispatchEligibility;
  }

  lemma {:induction false} DispatchExact(s: State, candidates: seq<Id>, principal: Principal, now: Time)
    requires (forall id | id in candidates :: id in s.scans.rows) && Differ(candidates)
    ensures var (t, outcome) := DispatchFrom(s, candidates, principal, now);
            PollsTo(s.scans.rows, t.scans.rows, outcome, candidates, principal, now)
    decreases |candidates|
  {
    hide Dispatchable, JobDispatchEligibility, PollResult;
    var (t, outcome) := DispatchFrom(s, candidates, principal, now);
    if candidates == [] {
      NoCandidates(s, principal, now);
    } else if Chosen(s.scans.rows, principal, candidates[0], now) {
      FirstChosen(s, candidates, principal, now);
    } else {
      var u := if Outlived(s.scans.rows, principal, candidates[0], now)
          then MarkExpired(s, candidates[0], principal, now) else s;
      DispatchExact(u, candidates[1..], principal, now);
      var k: nat :| k <= |candidates[1..]|
          && PollResult(u.scans.rows, t.scans.rows, outcome, candidates[1..], k, principal, now);
      assert u.scans.rows == s.scans.rows[candidates[0] := u.scans.rows[candidates[0]]];
      PollRest(s.scans.rows, u.scans.rows, t.scans.rows, outcome, candidates, k, principal, now);
    }
  }

  /**
   * A poll goes through the scans from the oldest on, expires the endpoint's outlived ones, dispatches the first one it
   * may dispatch, and stops there; every other scan stays as it was.
   */
  lemma PollExactly(s: State, principal: Principal, now: Time)
    ensures var (t, outcome) := ClaimNextJob(s, principal, now);
            PollsTo(s.scans.rows, t.scans.rows, outcome, OldestFirst(s.scans), principal, now)
    ensures SortedFor(s.scans.order, CreationTimes(s.scans), OldestFirst(s.scans))
  {
    hide PollsTo, DispatchFrom, SortedFor, Earlier;
    SortByIsSorted(s.scans.order, CreationTimes(s.scans));
    SortedDiffer(s.scans.order, CreationTimes(s.scans), OldestFirst(s.scans));
    DispatchExact(Touch(s, principal, now), OldestFirst(s.scans), principal, now);
  }

  lemma FirstOfChosen(a: map<Id, Scan>, b: map<Id, Scan>, outcome: Outcome, candidates: seq<Id>, k: nat,
          principal: Principal, now: Time, j: nat)
    requires k <= |candidates| && forall id | id in candidates :: id in a
    requires PollResult(a, b, outcome, candidates, k, principal, now)
    requires j < |candidates| && Chosen(a, principal, candidates[j], now)
    ensures k <= j && Chosen(a, principal, candidates[k], now)
    ensures outcome == Ok(ScanReply(a[candidates[k]].(state := Dispatched, updatedAt := now)))
  {
    hide Chosen, Outlived;
  }

  /** So whatever else the endpoint could have been given is younger than what it got. */
  lemma OldestIsDispatched(s: State, principal: Principal, now: Time, other: Id)
    requires other in s.scans.rows && Chosen(s.scans.rows, principal, other, now)
    ensures exists id :: && id in s.scans.rows && Chosen(s.scans.rows, principal, id, now)
                         && ClaimNextJob(s, principal, now).1
                            == Ok(ScanReply(s.scans.rows[id].(state := Dispatched, updatedAt := now)))
                         && (id == other || Earlier(s.scans.order, CreationTimes(s.scans), id, other))
  {
    hide ClaimNextJob, Chosen, Earlier, SortBy, PollResult;
    PollExactly(s, principal, now);
    var (t, outcome) := ClaimNextJob(s, principal, now);
    var order := OldestFirst(s.scans);
    var k: nat :| k <= |order| && PollResult(s.scans.rows, t.scans.rows, outcome, order, k, principal, now);
    assert other in order;
    var j: nat :| j < |order| && order[j] == other;
    FirstOfChosen(s.scans.rows, t.scans.rows, outcome, order, k, principal, now, j);
  }

  // ---------------------------------------------------------------- one scan through a poll

  /** A scan the poll dispatched was eligible. */
  lemma PolledScan(s: State, principal: Principal, now: Time, id: Id)
    requires id in s.scans.rows
    ensures var t := ClaimNextJob(s, principal, now).0;
            && id in t.scans.rows
            && (t.scans.rows[id] == s.scans.rows[id] || t.scans.rows[id].state == Expired
                || (t.scans.rows[id] == s.scans.rows[id].(state := Dispatched, updatedAt := now)
                    && JobDispatchEligibility(s.scans.rows[id], principal.endpointId, now) == Eligible))
  {
    hide ClaimNextJob, SortedFor, SortBy, JobDispatchEligibility, Dispatchable;
    PollExactly(s, principal, now);
    var (t, outcome) := ClaimNextJob(s, principal, now);
    var order := OldestFirst(s.scans);
    var k: nat :| k <= |order| && PollResult(s.scans.rows, t.scans.rows, outcome, order, k, principal, now);
    if k < |order| && id == order[k] {
    } else if id in order[..k] {
      var i: nat :| i < k && order[..k][i] == id;
      assert order[i] == id;
    }
  }

  ghost predicate NotByThis(s: State, t: State, id: Id) {
    id in s.scans.rows ==>
      id in t.scans.rows && (t.scans.rows[id].state == Dispatched
          ==> t.scans.rows[id] == s.scans.rows[id] || ReceivesStatus(s.scans.rows[id], t.scans.rows[id]))
  }

  lemma PutDispatchesNothing(s: State, t: State, x: Id, id: Id)
    requires x in s.scans.rows && x in t.scans.rows && t.scans == s.scans.Put(x, t.scans.rows[x])
    requires var a, b := s.scans.rows[x], t.scans.rows[x];
             ReceivesEvidence(a, b) || ReceivesStatus(a, b) || IsRejected(a, b) || ReceivesReport(a, b)
    ensures NotByThis(s, t, id)
  {
    hide ReceivesStatus;
  }

  lemma PerformDispatchesNothing(codec: Codec, s: State, op: Op, id: Id)
    requires !op.PollJob?
    ensures NotByThis(s, Perform(codec, s, op).0, id)
  {
    hide FreshIngest, FreshStatus, FreshRejection, FinalizeScanReport, FinalizeScanReportFailure;
    hide ReceivesEvidence, ReceivesStatus, IsRejected, ReceivesReport;
    hide FreshGrant, FreshEnrollment, FreshRotation, ClaimAnalysisTask, CompleteAnalysisTask, FailAnalysisTask;
    var t := Perform(codec, s, op).0;
    if t.scans == s.scans { return; }
    match op
    case CreateScan(_, _, _, _) =>
    case Ingest(principal, scanId, upload, tasks, now, _, _) =>
      IngestScans(codec, s, principal, scanId, upload, tasks, now);
      PutDispatchesNothing(s, t, scanId, id);
    case ReportStatus(principal, scanId, status, now, _, _) => StatusScans(s, principal, scanId, status, now);
        PutDispatchesNothing(s, t, scanId, id);
    case ReportRejection(principal, notice, now, _, _) =>
      RejectionScans(s, principal, notice, now);
      PutDispatchesNothing(s, t, RejectedScan(notice).value, id);
    case Finalize(scanId, report, now) => ReportScans(s, scanId, FinalReport(report), now);
        PutDispatchesNothing(s, t, scanId, id);
    case FinalizeFailure(scanId, error, now) => FailureScans(s, scanId, error, now);
        PutDispatchesNothing(s, t, scanId, id);
    case _ => OtherScans(codec, s, op);
  }

  /** Nothing but a poll dispatches. */
  lemma OnlyPollsDispatch(codec: Codec, s: State, op: Op, id: Id)
    requires !op.PollJob? && id in s.scans.rows
    ensures var t := Step(codec, s, op).0;
            id in t.scans.rows && (t.scans.rows[id].state == Dispatched
                ==> t.scans.rows[id] == s.scans.rows[id] || ReceivesStatus(s.scans.rows[id], t.scans.rows[id]))
  {
    hide Perform, Step, ReceivesStatus;
    StepPerforms(codec, s, op);
    PerformDispatchesNothing(codec, s, op, id);
  }

  // ---------------------------------------------------------------- dispatches over runs

  lemma StatusNotDispatched(id: Id, a: Scan, b: Scan)
    requires ScanSound(id, a)
    ensures ReceivesStatus(a, b) ==> b.state != Dispatched
  {
  }

  lemma PollIsStep(codec: Codec, s: State, op: Op)
    requires op.PollJob?
    ensures Step(codec, s, op) == ClaimNextJob(s, op.principal, op.now)
  {
    hide ClaimNextJob;
  }

  /** What one step does to a dispatched scan that it leaves dispatched. */
  lemma DispatchedStep(codec: Codec, s: State, op: Op, id: Id)
    requires id in s.scans.rows && ScanSound(id, s.scans.rows[id])
    ensures var t := Step(codec, s, op).0;
            && id in t.scans.rows && t.scans.rows[id].job == s.scans.rows[id].job
            && (t.scans.rows[id].state == Dispatched ==>
                  || t.scans.rows[id] == s.scans.rows[id]
                  || (op.PollJob? && t.scans.rows[id].updatedAt == op.now
                      && (s.scans.rows[id].state == Dispatched ==> LeaseOver(s.scans.rows[id], op.now))))
  {
    hide Step, ScanMoves, ClaimNextJob;
    StepMovesScans(codec, s, op);
    MovesKeep(s.scans.rows[id], Step(codec, s, op).0.scans.rows[id]);
    if op.PollJob? {
      PollIsStep(codec, s, op);
      PolledScan(s, op.principal, op.now, id);
      EligibleExactly(s.scans.rows[id], op.principal.endpointId, op.now);
    } else {
      OnlyPollsDispatch(codec, s, op, id);
      StatusNotDispatched(id, s.scans.rows[id], Step(codec, s, op).0.scans.rows[id]);
    }
  }

  /** Still held since `at`, or dispatched again after the lease was over. */
  ghost predicate HeldSince(record: Scan, job: Job, at: Time) {
    record.job == job
    && (record.state == Dispatched ==>
          record.updatedAt == at
              || (job.timeoutSeconds.Some? && record.updatedAt >= at
                 + (job.timeoutSeconds.value + JOB_DISPATCH_GRACE_SECONDS) * SECOND))
  }

  lemma NeverQueuedAgain(a: Scan, b: Scan)
    requires ScanMoves(a, b) && a.state != Queued
    ensures b.state != Queued
  {
  }

  /** A scan that is dispatched after a step was queued or dispatched before it. */
  lemma NotAgain(codec: Codec, s: State, op: Op, id: Id)
    requires id in s.scans.rows && Step(codec, s, op).0.scans.rows.Keys >= {id}
             && Step(codec, s, op).0.scans.rows[id].state == Dispatched
    ensures s.scans.rows[id].state == Queued || s.scans.rows[id].state == Dispatched
  {
    hide Step;
    StepMovesScans(codec, s, op);
  }

  lemma HeldStep(codec: Codec, s: State, op: Op, id: Id, job: Job, at: Time)
    requires id in s.scans.rows && ScanSound(id, s.scans.rows[id]) && s.scans.rows[id].state != Queued
             && HeldSince(s.scans.rows[id], job, at)
    ensures id in Step(codec, s, op).0.scans.rows && HeldSince(Step(codec, s, op).0.scans.rows[id], job, at)
  {
    hide Step, ScanSound, ScanMoves;
    DispatchedStep(codec, s, op, id);
    if Step(codec, s, op).0.scans.rows[id].state == Dispatched { NotAgain(codec, s, op, id); }
  }

  lemma {:induction false} HeldOverRun(codec: Codec, s: State, ops: seq<Op>, id: Id, job: Job, at: Time)
    requires ScansSound(s.scans.rows) && AllWellFormed(ops)
    requires id in s.scans.rows && s.scans.rows[id].state != Queued && HeldSince(s.scans.rows[id], job, at)
    ensures var t := Run(codec, s, ops);
            id in t.scans.rows && t.scans.rows[id].state != Queued && HeldSince(t.scans.rows[id], job, at)
    decreases |ops|
  {
    hide Step, ScanMoves, ScanSound;
    if ops == [] {
    } else {
      var t := Step(codec, s, ops[0]).0;
      StepKeepsScans(codec, s, ops[0]);
      StepMovesScans(codec, s, ops[0]);
      NeverQueuedAgain(s.scans.rows[id], t.scans.rows[id]);
      HeldStep(codec, s, ops[0], id, job, at);
      HeldOverRun(codec, t, ops[1..], id, job, at);
    }
  }

  lemma {:induction false} RunKeepsScans(codec: Codec, s: State, ops: seq<Op>)
    requires ScansSound(s.scans.rows) && AllWellFormed(ops)
    ensures ScansSound(Run(codec, s, ops).scans.rows)
    decreases |ops|
  {
    hide Step, ScansSound;
    if ops == [] {
    } else {
      StepKeepsScans(codec, s, ops[0]);
      RunKeepsScans(codec, Step(codec, s, ops[0]).0, ops[1..]);
    }
  }

  /** The scan a poll returns was eligible, and is now dispatched. */
  lemma PollReturns(codec: Codec, s: State, op: Op, record: Scan)
    requires ScansSound(s.scans.rows) && op.PollJob? && Step(codec, s, op).1 == Ok(ScanReply(record))
    ensures var t, id := Step(codec, s, op).0, record.scanId;
            && id in s.scans.rows && id in t.scans.rows && t.scans.rows[id] == record
            && record == s.scans.rows[id].(state := Dispatched, updatedAt := op.now)
            && InWindow(record.job, op.principal.endpointId, op.now) && Owns(op.principal, record)
            && (s.scans.rows[id].state == Queued
               || (s.scans.rows[id].state == Dispatched && LeaseOver(s.scans.rows[id], op.now)))
  {
    hide Step, ClaimNextJob, SortedFor, SortBy, JobDispatchEligibility, InWindow, LeaseOver;
    PollIsStep(codec, s, op);
    PollExactly(s, op.principal, op.now);
    var (t, outcome) := ClaimNextJob(s, op.principal, op.now);
    var order := OldestFirst(s.scans);
    var k: nat :| k <= |order| && PollResult(s.scans.rows, t.scans.rows, outcome, order, k, op.principal, op.now);
    assert ScanSound(order[k], s.scans.rows[order[k]]);
    EligibleExactly(s.scans.rows[order[k]], op.principal.endpointId, op.now);
  }

  /** Two dispatches of one scan are at least its timeout and the grace apart, whatever happens between them. */
  lemma DispatchesApart(codec: Codec, s: State, first: Op, ops: seq<Op>, second: Op, a: Scan, b: Scan)
    requires ScansSound(s.scans.rows) && AllWellFormed(ops) && first.PollJob? && second.PollJob?
    requires Step(codec, s, first).1 == Ok(ScanReply(a))
    requires Step(codec, Run(codec, Step(codec, s, first).0, ops), second).1 == Ok(ScanReply(b)) && b.scanId == a.scanId
    ensures a.job.timeoutSeconds.Some? && second.now >= first.now
            + (a.job.timeoutSeconds.value + JOB_DISPATCH_GRACE_SECONDS) * SECOND
  {
    hide Run, Step, ScanSound, InWindow;
    var t := Step(codec, s, first).0;
    StepKeepsScans(codec, s, first);
    PollReturns(codec, s, first, a);
    HeldOverRun(codec, t, ops, a.scanId, a.job, first.now);
    var u := Run(codec, t, ops);
    RunKeepsScans(codec, t, ops);
    PollReturns(codec, u, second, b);
  }
}
