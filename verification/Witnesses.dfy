/** Runs that do happen: what the code allows although one might not expect it. */
module Witnesses {
  import opened Prelude
  import opened OrderedDict
  import opened Records
  import opened Inventory
  import opened ControlPlane
  import opened Callers
  import opened Leases
  import opened BoundedWork
  import opened Credentials
  import opened Rotation
  import opened Recovery

  // ---------------------------------------------------------------- one endpoint with one scan

  const HOUR := 3_600 * SECOND
  const ENDPOINT := Endpoint("tenant", "endpoint", "linux", 1, 0, 0)
  const CREDENTIAL := Credential("tenant", "endpoint", "first", "token", 1, 0, HOUR, None, None)
  const PRINCIPAL := Principal("tenant", "endpoint", "first", 1)
  const AUTHORIZATION := Authorization(true, Some(0), Some(HOUR), Some({"endpoint"}), Some("scope"))
  const JOB := Job(Some(AUTHORIZATION), Some(HOUR), Unrestricted, Some(900), Some("FULL"), Some("policy"), None,
      "admin")
  const SCAN := Scan("tenant", "endpoint", "scan", "job", Queued, JOB, 0, 0, None, None, None)

  const ENROLLING := Enroll("tenant", ENDPOINT, CREDENTIAL, None, "a", "x")
  const CREATING := CreateScan("tenant", SCAN, "b", "y")
  const FAILING := FinalizeFailure("scan", "no evidence", 1)
  const REJECTING := ReportRejection(PRINCIPAL, RejectionNotice("notice", Some("scan"), "refused"), 1, "c", "z")

  /** The scan is there, without evidence or report, and nothing else was ever asked for. */
  ghost predicate Opened(s: State, scan: Scan) {
    && "endpoint" in s.endpoints && "scan" in s.scans.rows && s.scans.rows["scan"] == scan && s.scans.order == ["scan"]
    && s.scans.rows.Keys == {"scan"} && s.tasks == Dict(map[], []) && s.inventory == map[]
    && forall key: RequestKey | key in s.answered :: key.1 == Enrolling || key.1 == CreatingScan
  }

  lemma RunOne(codec: Codec, s: State, op: Op)
    ensures Run(codec, s, [op]) == Step(codec, s, op).0
  {
    hide Step;
    assert [op][1..] == [];
    assert Run(codec, Step(codec, s, op).0, []) == Step(codec, s, op).0;
  }

  lemma RunTwo(codec: Codec, s: State, a: Op, b: Op)
    ensures Run(codec, s, [a, b]) == Step(codec, Step(codec, s, a).0, b).0
  {
    hide Step;
    assert [a, b][1..] == [b];
    RunOne(codec, Step(codec, s, a).0, b);
  }

  lemma Enrolls(codec: Codec)
    ensures var (s, outcome) := Step(codec, EMPTY_STATE, ENROLLING);
            && outcome.Ok? && s.endpoints == map["endpoint" := ENDPOINT]
            && s.credentials == Dict(map["token" := CREDENTIAL], ["token"])
            && s == EMPTY_STATE.(endpoints := s.endpoints, credentials := s.credentials, audit := s.audit,
               answered := s.answered)
            && s.answered == map[("tenant", Enrolling, "a") := ("x", CredentialReply(CREDENTIAL))]
  {
  }

  lemma Creates(codec: Codec, s: State)
    requires s.endpoints == map["endpoint" := ENDPOINT] && s.scans == Dict(map[], [])
             && s.answered.Keys == {("tenant", Enrolling, "a")}
    ensures var t := Step(codec, s, CREATING).0;
            && t.scans == Dict(map["scan" := SCAN], ["scan"])
            && t == s.(scans := t.scans, audit := t.audit, answered := t.answered)
            && t.answered.Keys == {("tenant", Enrolling, "a"), ("tenant", CreatingScan, "b")}
  {
  }

  lemma Opens(codec: Codec)
    ensures Opened(Run(codec, EMPTY_STATE, [ENROLLING, CREATING]), SCAN)
  {
    hide Step;
    RunTwo(codec, EMPTY_STATE, ENROLLING, CREATING);
    Enrolls(codec);
    Creates(codec, Step(codec, EMPTY_STATE, ENROLLING).0);
  }

  lemma {:induction false} RunThen(codec: Codec, s: State, a: seq<Op>, b: seq<Op>)
    ensures Run(codec, s, a + b) == Run(codec, Run(codec, s, a), b)
    decreases |a|
  {
    hide Step;
    if a == [] {
      assert a + b == b;
    } else {
      assert (a + b)[1..] == a[1..] + b;
      RunThen(codec, Step(codec, s, a[0]).0, a[1..], b);
    }
  }

  // ---------------------------------------------------------------- final states that are left

  lemma Fails(codec: Codec, s: State, scan: Scan)
    requires Opened(s, scan) && scan.finalReport.None? && scan.upload.None?
    ensures var t := Step(codec, s, FAILING).0;
            && "scan" in t.scans.rows && t.scans.rows["scan"].state == Complete
               && t.scans.rows["scan"].finalReport.Some?
            && t.scans.rows["scan"]
               == scan.(state := Complete, finalReport := t.scans.rows["scan"].finalReport, updatedAt := 1)
            && KeyOf(REJECTING).value.0 !in t.answered
  {
    hide SanitizeError;
  }

  lemma Rejects(codec: Codec, s: State)
    requires "scan" in s.scans.rows && Owns(PRINCIPAL, s.scans.rows["scan"]) && KeyOf(REJECTING).value.0 !in s.answered
    ensures var t := Step(codec, s, REJECTING).0;
            "scan" in t.scans.rows && t.scans.rows["scan"] == s.scans.rows["scan"].(state := Rejected, updatedAt := 1)
  {
  }

  /** A failure is recorded for a scan that never had evidence, and a rejection then takes it out of COMPLETE. */
  lemma CompleteIsLeft(codec: Codec)
    ensures var s := Run(codec, EMPTY_STATE, [ENROLLING, CREATING, FAILING]);
            var t := Run(codec, EMPTY_STATE, [ENROLLING, CREATING, FAILING, REJECTING]);
            && AllWellFormed([ENROLLING, CREATING, FAILING, REJECTING])
            && "scan" in s.scans.rows && s.scans.rows["scan"].state == Complete
            && s.scans.rows["scan"].finalReport.Some? && s.scans.rows["scan"].upload.None?
            && "scan" in t.scans.rows && t.scans.rows["scan"].state == Rejected
            && t.scans.rows["scan"].finalReport == s.scans.rows["scan"].finalReport
  {
    hide Step, Run, Opened;
    Opens(codec);
    var o := Run(codec, EMPTY_STATE, [ENROLLING, CREATING]);
    RunThen(codec, EMPTY_STATE, [ENROLLING, CREATING], [FAILING]);
    RunThen(codec, EMPTY_STATE, [ENROLLING, CREATING], [FAILING, REJECTING]);
    assert [ENROLLING, CREATING] + [FAILING] == [ENROLLING, CREATING, FAILING];
    assert [ENROLLING, CREATING] + [FAILING, REJECTING] == [ENROLLING, CREATING, FAILING, REJECTING];
    RunOne(codec, o, FAILING);
    RunTwo(codec, o, FAILING, REJECTING);
    Fails(codec, o, SCAN);
    Rejects(codec, Step(codec, o, FAILING).0);
  }

  lemma FailsLater(codec: Codec, s: State)
    requires "scan" in s.scans.rows && s.scans.rows["scan"].finalReport.None?
    ensures var t := Step(codec, s, FAILING).0; "scan" in t.scans.rows && t.scans.rows["scan"].state == Complete
  {
    hide SanitizeError;
  }

  lemma OpenedRejects(codec: Codec, s: State)
    requires Opened(s, SCAN)
    ensures var t := Step(codec, s, REJECTING).0;
            "scan" in t.scans.rows && t.scans.rows["scan"] == SCAN.(state := Rejected, updatedAt := 1)
  {
    hide Step;
    Rejects(codec, s);
  }

  /** The other way round: a rejection, and then a recorded failure takes the scan out of REJECTED. */
  lemma RejectedIsLeft(codec: Codec)
    ensures var s := Run(codec, EMPTY_STATE, [ENROLLING, CREATING, REJECTING]);
            var t := Run(codec, EMPTY_STATE, [ENROLLING, CREATING, REJECTING, FAILING]);
            && AllWellFormed([ENROLLING, CREATING, REJECTING, FAILING])
            && "scan" in s.scans.rows && s.scans.rows["scan"].state == Rejected
            && "scan" in t.scans.rows && t.scans.rows["scan"].state == Complete
  {
    hide Step, Run, Opened;
    Opens(codec);
    var o := Run(codec, EMPTY_STATE, [ENROLLING, CREATING]);
    RunThen(codec, EMPTY_STATE, [ENROLLING, CREATING], [REJECTING]);
    RunThen(codec, EMPTY_STATE, [ENROLLING, CREATING], [REJECTING, FAILING]);
    assert [ENROLLING, CREATING] + [REJECTING] == [ENROLLING, CREATING, REJECTING];
    assert [ENROLLING, CREATING] + [REJECTING, FAILING] == [ENROLLING, CREATING, REJECTING, FAILING];
    RunOne(codec, o, REJECTING);
    RunTwo(codec, o, REJECTING, FAILING);
    OpenedRejects(codec, o);
    FailsLater(codec, Step(codec, o, REJECTING).0);
  }

  // ---------------------------------------------------------------- more attempts than max_attempts

  const POLLING := PollJob(PRINCIPAL, 0)
  const RESULT: Document := map[
    "scan_id" := "scan", "endpoint_id" := "endpoint", "scan_type" := "FULL", "authorization_scope_id" := "scope",
    "policy_id" := "policy", "status" := "SUCCESS"]
  const DISPATCHED := SCAN.(state := Dispatched)

  /** A full upload of an empty inventory. */
  function UploadFor(codec: Codec): Upload {
    Upload(
      Some(RESULT),
      Some(InventorySync(RESULT, None, "full", Present(HashOf(codec, map[])), Missing, Present(map[]), Missing,
          Missing)),
      "sbom")
  }

  function NewTaskOf(id: Id, kind: Kind): Task {
    Task(id, "tenant", "endpoint", "scan", kind, Pending, 0, 0, 0, 0, None, None, None, None)
  }

  function Ingests(codec: Codec): Op {
    Ingest(PRINCIPAL, "scan", UploadFor(codec), [NewTaskOf("osv", Osv), NewTaskOf("dep", DepScan)], 0, "d", "w")
  }

  lemma OnlyOneScan(scans: Table<Scan>)
    requires scans.order == ["scan"]
    ensures OldestFirst(scans) == ["scan"]
  {
    var order := OldestFirst(scans);
    assert multiset(order) == multiset(["scan"]);
    assert |order| == |multiset(order)| == 1;
    hide SortBy;
    assert order[0] in order;
  }

  lemma IsEligible()
    ensures Dispatchable(PRINCIPAL, SCAN) && JobDispatchEligibility(SCAN, "endpoint", 0) == Eligible
  {
  }

  lemma Dispatches(codec: Codec, s: State)
    requires Opened(s, SCAN)
    ensures Opened(Step(codec, s, POLLING).0, DISPATCHED)
  {
    hide SortBy, OldestFirst, JobDispatchEligibility, Dispatchable;
    OnlyOneScan(s.scans);
    IsEligible();
    var touched := Touch(s, PRINCIPAL, 0);
    assert DispatchFrom(touched, ["scan"], PRINCIPAL, 0).0 == MarkDispatched(touched, "scan", PRINCIPAL, 0);
  }

  lemma OpenedMeans(s: State, scan: Scan)
    requires Opened(s, scan)
    ensures "scan" in s.scans.rows && s.scans.rows["scan"] == scan && s.tasks == Dict(map[], [])
    ensures KeyOf(Ingest(PRINCIPAL, "scan", Upload(None, None, ""), [], 0, "d", "w")).value.0 !in s.answered
  {
  }

  lemma Rebuilds(codec: Codec, current: Option<InventoryState>, s: State)
    requires codec.withinLimits(map[]) && codec.size(map[]) <= MAX_BYTES
    ensures Reconstruct(codec, UploadFor(codec).sync.value, current).Rebuilt?
  {
    assert Normalize(codec, map[]) == map[];
  }

  lemma Accepts(codec: Codec, s: State)
    requires Opened(s, DISPATCHED) && codec.withinLimits(map[]) && codec.size(map[]) <= MAX_BYTES
    ensures var (t, outcome) := FreshIngest(codec, s, PRINCIPAL, "scan", UploadFor(codec), Ingests(codec).tasks, 0);
            outcome.Ok? && t.tasks == PutTasks(s.tasks, Ingests(codec).tasks)
  {
    hide Reconstruct, PutTasks, Opened;
    Rebuilds(codec, Stored(s, PRINCIPAL), s);
    OpenedMeans(s, DISPATCHED);
  }

  /** The analyzer task waits, and is the only one of its kind. */
  ghost predicate Waits(s: State, task: Task) {
    && s.tasks.rows.Keys == {"osv", "dep"} && s.tasks.rows["osv"] == task && s.tasks.rows["dep"].kind == DepScan
    && task.taskId == "osv" && task.kind == Osv && task.availableAt == 0
  }

  lemma Queues(codec: Codec, s: State)
    requires Opened(s, DISPATCHED) && codec.withinLimits(map[]) && codec.size(map[]) <= MAX_BYTES
    ensures Waits(Step(codec, s, Ingests(codec)).0, NewTaskOf("osv", Osv))
  {
    hide FreshIngest, Opened, UploadFor, PutTasks;
    Accepts(codec, s);
    OpenedMeans(s, DISPATCHED);
    PutTwo(s.tasks, Ingests(codec).tasks);
  }

  lemma OnlyOneOfKind(s: State, task: Task, now: Time)
    requires Waits(s, task) && Claimable(task, Osv, now)
    ensures FirstClaimable(s.tasks.rows, TaskOrder(s.tasks), Osv, now) == Some("osv")
  {
    hide FirstClaimable, SortBy;
    assert "osv" in TaskOrder(s.tasks);
  }

  lemma TakenWaits(s: State, t: State, task: Task, taken: Task)
    requires Waits(s, task) && t == s.(tasks := s.tasks.Put("osv", taken))
    requires taken.taskId == task.taskId && taken.kind == task.kind && taken.availableAt == task.availableAt
    ensures Waits(t, taken)
  {
    assert "osv" != "dep";
  }

  lemma IsClaimed(codec: Codec, s: State, workerId: Id, now: Time)
    requires ValidLease(workerId, 600) && FirstClaimable(s.tasks.rows, TaskOrder(s.tasks), Osv, now) == Some("osv")
    ensures "osv" in s.tasks.rows
    ensures Step(codec, s, ClaimTask(Osv, workerId, 600, now)).0
            == s.(tasks := s.tasks.Put("osv", Leased(s.tasks.rows["osv"], workerId, 600, now)))
  {
    hide FirstClaimable, SortBy, ValidLease;
  }

  /** A claim of the task, by whoever asks. */
  lemma Claims(codec: Codec, s: State, task: Task, workerId: Id, now: Time)
    requires Waits(s, task) && Claimable(task, Osv, now) && ValidLease(workerId, 600)
    ensures var t := Step(codec, s, ClaimTask(Osv, workerId, 600, now)).0;
            t == s.(tasks := s.tasks.Put("osv", Leased(task, workerId, 600, now)))
                && Waits(t, Leased(task, workerId, 600, now))
    ensures Reclaim(codec, s, ClaimTask(Osv, workerId, 600, now), "osv") == if task.state == Running then 1 else 0
  {
    OnlyOneOfKind(s, task, now);
    IsClaimed(codec, s, workerId, now);
    hide FirstClaimable, TaskOrder, Claimable, ValidLease, Step;
    var t := Step(codec, s, ClaimTask(Osv, workerId, 600, now)).0;
    TakenWaits(s, t, task, Leased(task, workerId, 600, now));
  }

  const RETRYING := FailTask("osv", "one", "unavailable", 0, false, 0)

  /** A claim and a retry, `n` times. */
  function Retries(n: nat): seq<Op> {
    if n == 0 then [] else [ClaimTask(Osv, "one", 600, 0), RETRYING] + Retries(n - 1)
  }

  /** The claim of a worker that then disappears, and the claim that follows the end of its lease. */
  const CRASHING := [ClaimTask(Osv, "one", 600, 0), ClaimTask(Osv, "two", 600, 600 * SECOND)]

  ghost predicate InQueue(s: State, attempts: nat) {
    "osv" in s.tasks.rows && Waits(s, s.tasks.rows["osv"]) && s.tasks.rows["osv"].attempts == attempts
    && (s.tasks.rows["osv"].state == Pending || s.tasks.rows["osv"].state == Retry)
  }

  lemma RetriesOnce(codec: Codec, s: State, attempts: nat, maxAttempts: nat)
    requires InQueue(s, attempts) && attempts + 1 < maxAttempts
    ensures var t := Step(codec, s, ClaimTask(Osv, "one", 600, 0)).0;
            && InTime(t, RETRYING, maxAttempts)
            && InQueue(Step(codec, t, RETRYING).0, attempts + 1)
            && Reclaim(codec, s, ClaimTask(Osv, "one", 600, 0), "osv") == 0
  {
    hide SanitizeError, FirstClaimable, TaskOrder, ClaimAnalysisTask;
    Claims(codec, s, s.tasks.rows["osv"], "one", 0);
  }

  /** Only claims reclaim, and only failures can be out of time. */
  lemma Others(codec: Codec, s: State, op: Op, maxAttempts: nat)
    ensures !op.FailTask? ==> InTime(s, op, maxAttempts)
    ensures !op.ClaimTask? ==> Reclaim(codec, s, op, "osv") == 0
  {
    hide Step;
  }

  lemma {:induction false} RetriesTimes(codec: Codec, s: State, attempts: nat, n: nat, maxAttempts: nat)
    requires InQueue(s, attempts) && attempts + n < maxAttempts
    ensures InQueue(Run(codec, s, Retries(n)), attempts + n)
    ensures InTimeRun(codec, s, Retries(n), maxAttempts) && ReclaimsOf(codec, s, Retries(n), "osv") == 0
    ensures AllWellFormed(Retries(n))
    decreases n
  {
    hide Step, InQueue, InTime, Reclaim;
    if n == 0 {
    } else {
      var claim := ClaimTask(Osv, "one", 600, 0);
      RetriesOnce(codec, s, attempts, maxAttempts);
      var t := Step(codec, Step(codec, s, claim).0, RETRYING).0;
      RetriesTimes(codec, t, attempts + 1, n - 1, maxAttempts);
      var ops := Retries(n);
      assert ops[0] == claim && ops[1..][0] == RETRYING && ops[1..][1..] == Retries(n - 1);
      Others(codec, s, claim, maxAttempts);
      Others(codec, Step(codec, s, claim).0, RETRYING, maxAttempts);
      assert Run(codec, s, ops) == Run(codec, Step(codec, s, claim).0, ops[1..]);
      assert ReclaimsOf(codec, s, ops, "osv") == ReclaimsOf(codec, Step(codec, s, claim).0, ops[1..], "osv");
    }
  }

  lemma Crashes(codec: Codec, s: State, attempts: nat, maxAttempts: nat)
    requires InQueue(s, attempts)
    ensures var t := Run(codec, s, CRASHING); "osv" in t.tasks.rows && t.tasks.rows["osv"].attempts == attempts + 2
    ensures InTimeRun(codec, s, CRASHING, maxAttempts) && ReclaimsOf(codec, s, CRASHING, "osv") == 1
  {
    hide Step, InTime, Reclaim;
    var task := s.tasks.rows["osv"];
    Claims(codec, s, task, "one", 0);
    var t := Step(codec, s, CRASHING[0]).0;
    Claims(codec, t, Leased(task, "one", 600, 0), "two", 600 * SECOND);
    RunTwo(codec, s, CRASHING[0], CRASHING[1]);
    Others(codec, s, CRASHING[0], maxAttempts);
    Others(codec, t, CRASHING[1], maxAttempts);
    assert CRASHING[1..] == [CRASHING[1]] && CRASHING[1..][1..] == [];
    assert ReclaimsOf(codec, t, CRASHING[1..], "osv") == 1;
    assert InTimeRun(codec, t, CRASHING[1..], maxAttempts);
  }

  lemma {:induction false} InTimeThen(codec: Codec, s: State, a: seq<Op>, b: seq<Op>, maxAttempts: nat)
    requires InTimeRun(codec, s, a, maxAttempts) && InTimeRun(codec, Run(codec, s, a), b, maxAttempts)
    ensures InTimeRun(codec, s, a + b, maxAttempts)
    ensures ReclaimsOf(codec, s, a + b, "osv") == ReclaimsOf(codec, s, a, "osv")
            + ReclaimsOf(codec, Run(codec, s, a), b, "osv")
    decreases |a|
  {
    hide Step, InTime, Reclaim;
    if a == [] {
      assert a + b == b;
    } else {
      assert (a + b)[1..] == a[1..] + b;
      InTimeThen(codec, Step(codec, s, a[0]).0, a[1..], b, maxAttempts);
    }
  }

  function Begins(codec: Codec): seq<Op> {
    [ENROLLING, CREATING, POLLING, Ingests(codec)]
  }

  lemma {:induction false} BeginsInTime(codec: Codec, s: State, ops: seq<Op>, maxAttempts: nat)
    requires forall op | op in ops :: !op.FailTask? && !op.ClaimTask?
    ensures InTimeRun(codec, s, ops, maxAttempts) && ReclaimsOf(codec, s, ops, "osv") == 0
    decreases |ops|
  {
    hide Step, InTime, Reclaim;
    if ops == [] {
    } else {
      Others(codec, s, ops[0], maxAttempts);
      BeginsInTime(codec, Step(codec, s, ops[0]).0, ops[1..], maxAttempts);
    }
  }

  lemma BeginsQueued(codec: Codec)
    requires codec.withinLimits(map[]) && codec.size(map[]) <= MAX_BYTES
    ensures InQueue(Run(codec, EMPTY_STATE, Begins(codec)), 0) && AllWellFormed(Begins(codec))
  {
    hide Step, Run, Opened, UploadFor;
    Opens(codec);
    var o := Run(codec, EMPTY_STATE, [ENROLLING, CREATING]);
    RunThen(codec, EMPTY_STATE, [ENROLLING, CREATING], [POLLING, Ingests(codec)]);
    assert [ENROLLING, CREATING] + [POLLING, Ingests(codec)] == Begins(codec);
    RunTwo(codec, o, POLLING, Ingests(codec));
    Dispatches(codec, o);
    Queues(codec, Step(codec, o, POLLING).0);
  }

  lemma BeginsApart(codec: Codec)
    ensures forall op | op in Begins(codec) :: !op.FailTask? && !op.ClaimTask?
  {
  }

  /**
   * For every `max_attempts`: a run in which every worker keeps to it, one worker crashes on the last attempt, and the
   * claim after its lease is attempt number `max_attempts + 1`.
   */
  lemma OneReclaimExceeds(codec: Codec, maxAttempts: nat)
    requires codec.withinLimits(map[]) && codec.size(map[]) <= MAX_BYTES && maxAttempts >= 1
    ensures var ops := Begins(codec) + (Retries(maxAttempts - 1) + CRASHING);
            var t := Run(codec, EMPTY_STATE, ops);
            && AllWellFormed(ops) && InTimeRun(codec, EMPTY_STATE, ops, maxAttempts)
            && ReclaimsOf(codec, EMPTY_STATE, ops, "osv") == 1
            && "osv" in t.tasks.rows && t.tasks.rows["osv"].attempts == maxAttempts + 1
  {
    hide Step, Run, InTimeRun, ReclaimsOf, InQueue, Begins, Retries;
    var a, b := Begins(codec), Retries(maxAttempts - 1);
    BeginsQueued(codec);
    BeginsApart(codec);
    BeginsInTime(codec, EMPTY_STATE, a, maxAttempts);
    var s := Run(codec, EMPTY_STATE, a);
    RetriesTimes(codec, s, 0, maxAttempts - 1, maxAttempts);
    Crashes(codec, Run(codec, s, b), maxAttempts - 1, maxAttempts);
    RunThen(codec, s, b, CRASHING);
    RunThen(codec, EMPTY_STATE, a, b + CRASHING);
    InTimeThen(codec, s, b, CRASHING, maxAttempts);
    InTimeThen(codec, EMPTY_STATE, a, b + CRASHING, maxAttempts);
  }

  // ---------------------------------------------------------------- a client that lags

  const SECOND_CREDENTIAL := Credential("tenant", "endpoint", "second", "other token", 2, 1, HOUR, None, None)
  const REQUEST := Request("key", "token", "endpoint", 1, "first")
  const LOST := [Asks("key", 1), Arrives(REQUEST, SECOND_CREDENTIAL, 1), GivesUp]

  lemma JoinedLevel(codec: Codec, overlapSeconds: nat, hash: BodyHash)
    ensures var x := Joined(codec, EMPTY_STATE, ENROLLING);
            Agreeing(overlapSeconds, hash, x) && !Lagging(x) && KeyOf(ENROLLING).value.0 in x.server.answered
  {
    hide Step, Chained, Agreeing, Traced;
    Enrolls(codec);
    NothingIssued(overlapSeconds);
    JoinedAgrees(codec, overlapSeconds, hash, EMPTY_STATE, ENROLLING);
  }

  lemma LostCanRun(codec: Codec, overlapSeconds: nat, hash: BodyHash, x: System)
    requires x.kept == KeptOf(CREDENTIAL) && x.pending.None? && Admitted(x.server, REQUEST, 1) == Some(PRINCIPAL)
    requires WellIssued(overlapSeconds, x.server, RotateOp(hash, PRINCIPAL, REQUEST, SECOND_CREDENTIAL, overlapSeconds))
    ensures CanRun(codec, overlapSeconds, hash, x, LOST)
  {
    hide Handle, Admitted, WellIssued;
    var y := Next(codec, hash, overlapSeconds, x, LOST[0]);
    var z := Next(codec, hash, overlapSeconds, y, LOST[1]);
    assert REQUEST == RequestOf(x.kept, "key");
    assert LOST[1..][0] == LOST[1] && LOST[1..][1..] == [GivesUp] && LOST[1..][1..][1..] == [];
    assert CanRun(codec, overlapSeconds, hash, z, [GivesUp]);
    assert CanRun(codec, overlapSeconds, hash, y, LOST[1..]);
  }

  lemma IsAdmitted(s: State)
    requires s.credentials == Dict(map["token" := CREDENTIAL], ["token"])
    ensures Admitted(s, REQUEST, 1) == Some(PRINCIPAL)
  {
  }

  lemma IsPossible(overlapSeconds: nat, hash: BodyHash, s: State)
    requires s.credentials == Dict(map["token" := CREDENTIAL], ["token"])
    ensures WellIssued(overlapSeconds, s, RotateOp(hash, PRINCIPAL, REQUEST, SECOND_CREDENTIAL, overlapSeconds))
  {
    assert "first" != "second" && "token" != "other token";
    assert PrincipalOf(s.credentials.rows["token"]) == PRINCIPAL;
  }

  /** An endpoint that loses the answer to its first rotation. */
  lemma LagIsReached(codec: Codec, overlapSeconds: nat, hash: BodyHash)
    ensures var x := Joined(codec, EMPTY_STATE, ENROLLING);
            CanRun(codec, overlapSeconds, hash, x, LOST) && Lagging(RunSystem(codec, overlapSeconds, hash, x, LOST))
  {
    hide Step, Handle, Agreeing, Traced, Lagging, WellIssued, Admitted;
    var x := Joined(codec, EMPTY_STATE, ENROLLING);
    Enrolls(codec);
    JoinedLevel(codec, overlapSeconds, hash);
    IsAdmitted(x.server);
    IsPossible(overlapSeconds, hash, x.server);
    LostCanRun(codec, overlapSeconds, hash, x);
    assert REQUEST == RequestOf(x.kept, "key");
    LostAnswerLags(codec, overlapSeconds, hash, x, "key", 1, SECOND_CREDENTIAL, 1);
  }
}
