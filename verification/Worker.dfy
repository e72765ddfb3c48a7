/** The analysis worker: one fair round over its kinds of task, what it does with the task it gets, and its backoff. */
module Worker {
  import opened Prelude
  import opened OrderedDict
  import opened Records
  import opened Inventory
  import opened ControlPlane
  import opened Repository

  // ---------------------------------------------------------------- settings and backoff

  datatype Settings = Settings(
    workerId: Id, kinds: seq<Kind>, leaseSeconds: int, maxAttempts: nat, baseBackoff: real, maxBackoff: real,
        jitter: real)

  ghost predicate Unique(kinds: seq<Kind>) {
    forall i, j | 0 <= i < j < |kinds| :: kinds[i] != kinds[j]
  }

  ghost predicate ValidSettings(c: Settings) {
    && 1 <= |c.workerId| <= 128 && c.kinds != [] && Unique(c.kinds)
    && 10 <= c.leaseSeconds <= 3600 && 1 <= c.maxAttempts <= 20
    && 0.1 <= c.baseBackoff <= 3600.0 && c.baseBackoff <= c.maxBackoff <= 86_400.0
    && 0.0 <= c.jitter <= 1.0
  }

  function Pow2(n: nat): (r: real)
    ensures r >= 1.0
  {
    if n == 0 then 1.0 else 2.0 * Pow2(n - 1)
  }

  function Exponent(attempts: int): nat {
    Max(0, Min(attempts - 1, 30))
  }

  function RealMin(a: real, b: real): real {
    if a <= b then a else b
  }

  function RealMax(a: real, b: real): real {
    if a <= b then b else a
  }

  function Times(a: real, b: real): real {
    a * b
  }

  /** The delay before jitter. */
  function Nominal(c: Settings, attempts: int): real {
    RealMin(c.maxBackoff, Times(c.baseBackoff, Pow2(Exponent(attempts))))
  }

  function Centered(draw: real): real {
    RealMin(1.0, RealMax(0.0, draw)) * 2.0 - 1.0
  }

  /** `_backoff` */
  function Backoff(c: Settings, attempts: int, draw: real): real {
    var base := Nominal(c, attempts);
    var spread := Times(base, c.jitter);
    RealMax(0.0, base + Times(Centered(draw), spread))
  }

  lemma {:induction false} Pow2Monotone(a: nat, b: nat)
    requires a <= b
    ensures Pow2(a) <= Pow2(b)
  {
    if a == b {
    } else {
      Pow2Monotone(a, b - 1);
    }
  }

  lemma TimesMonotone(k: real, a: real, b: real)
    requires k >= 0.0 && a <= b
    ensures Times(k, a) <= Times(k, b)
  {
  }

  lemma TimesLaws(a: real, b: real, c: real)
    ensures Times(a, b) == Times(b, a) && Times(a, 1.0) == a && Times(a, 0.0) == 0.0 && Times(a, -1.0) == -a
    ensures b + Times(a, Times(b, c)) == Times(b, 1.0 + Times(a, c))
  {
    calc {
      a * (b * c);
      (a * b) * c;
      (b * a) * c;
      b * (a * c);
    }
    assert b * (1.0 + a * c) == b + b * (a * c);
  }

  lemma NominalMonotone(c: Settings, a: int, b: int)
    requires ValidSettings(c) && a <= b
    ensures 0.0 < c.baseBackoff <= Nominal(c, a) <= Nominal(c, b) <= c.maxBackoff
  {
    hide Times, Pow2;
    Pow2Monotone(Exponent(a), Exponent(b));
    TimesMonotone(c.baseBackoff, Pow2(Exponent(a)), Pow2(Exponent(b)));
    TimesMonotone(c.baseBackoff, 1.0, Pow2(Exponent(a)));
    TimesLaws(c.baseBackoff, 0.0, 0.0);
  }

  /** The jitter: between `1 - jitter` and `1 + jitter`. */
  function Factor(c: Settings, draw: real): real {
    1.0 + Times(Centered(draw), c.jitter)
  }

  lemma FactorRange(c: Settings, draw: real)
    requires ValidSettings(c)
    ensures 0.0 <= 1.0 - c.jitter <= Factor(c, draw) <= 1.0 + c.jitter
  {
    hide Times;
    TimesMonotone(c.jitter, -1.0, Centered(draw));
    TimesMonotone(c.jitter, Centered(draw), 1.0);
    TimesLaws(c.jitter, 0.0, 0.0);
    TimesLaws(Centered(draw), c.jitter, 0.0);
  }

  /** The delay is the nominal one times the jitter; it is never cut off at zero. */
  lemma BackoffFactor(c: Settings, attempts: int, draw: real)
    requires ValidSettings(c)
    ensures Backoff(c, attempts, draw) == Times(Nominal(c, attempts), Factor(c, draw))
  {
    hide Times, Nominal, Centered;
    var base := Nominal(c, attempts);
    NominalMonotone(c, attempts, attempts);
    FactorRange(c, draw);
    TimesLaws(Centered(draw), base, c.jitter);
    TimesMonotone(base, 0.0, Factor(c, draw));
    TimesLaws(base, 0.0, 0.0);
  }

  lemma BackoffRange(c: Settings, attempts: int, draw: real)
    requires ValidSettings(c)
    ensures Times(Nominal(c, attempts), 1.0 - c.jitter) <= Backoff(c, attempts, draw)
            <= Times(Nominal(c, attempts), 1.0 + c.jitter)
    ensures 0.0 <= Backoff(c, attempts, draw) <= Times(c.maxBackoff, 1.0 + c.jitter)
  {
    hide Times, Nominal, Factor;
    BackoffFactor(c, attempts, draw);
    NominalMonotone(c, attempts, attempts);
    FactorRange(c, draw);
    var n := Nominal(c, attempts);
    TimesMonotone(n, 1.0 - c.jitter, Factor(c, draw));
    TimesMonotone(n, Factor(c, draw), 1.0 + c.jitter);
    TimesMonotone(1.0 + c.jitter, n, c.maxBackoff);
    TimesLaws(n, 1.0 + c.jitter, 0.0);
    TimesLaws(c.maxBackoff, 1.0 + c.jitter, 0.0);
  }

  lemma TimesIs(a: real, b: real)
    ensures Times(a, b) == a * b
  {
  }

  /** Bounds, for any draw. */
  lemma BackoffBounds(c: Settings, attempts: int, draw: real)
    requires ValidSettings(c)
    ensures Nominal(c, attempts) * (1.0 - c.jitter) <= Backoff(c, attempts, draw) <= Nominal(c, attempts)
            * (1.0 + c.jitter)
    ensures 0.0 <= Backoff(c, attempts, draw) <= c.maxBackoff * (1.0 + c.jitter)
  {
    hide *;
    BackoffRange(c, attempts, draw);
    TimesIs(Nominal(c, attempts), 1.0 - c.jitter);
    TimesIs(Nominal(c, attempts), 1.0 + c.jitter);
    TimesIs(c.maxBackoff, 1.0 + c.jitter);
  }

  /** For a fixed draw, more attempts never mean a shorter delay. */
  lemma BackoffMonotone(c: Settings, a: int, b: int, draw: real)
    requires ValidSettings(c) && a <= b
    ensures Backoff(c, a, draw) <= Backoff(c, b, draw)
  {
    hide Times, Nominal, Factor, Backoff;
    BackoffFactor(c, a, draw);
    BackoffFactor(c, b, draw);
    NominalMonotone(c, a, b);
    FactorRange(c, draw);
    TimesMonotone(Factor(c, draw), Nominal(c, a), Nominal(c, b));
    TimesLaws(Nominal(c, a), Factor(c, draw), 0.0);
    TimesLaws(Nominal(c, b), Factor(c, draw), 0.0);
  }

  /** Once the nominal delay has reached the maximum, it and the delay stay there. */
  lemma BackoffSaturates(c: Settings, a: int, b: int, draw: real)
    requires ValidSettings(c) && a <= b && Nominal(c, a) == c.maxBackoff
    ensures Nominal(c, b) == c.maxBackoff && Backoff(c, b, draw) == Backoff(c, a, draw)
  {
    NominalMonotone(c, a, b);
    hide Times, Nominal, Centered;
  }

  // ---------------------------------------------------------------- one round, as a trace of operations

  /** The analyzers and the report builder, and how their failures are classified. */
  datatype Analysis = Produced(status: string, result: string) | Raised(permanent: bool, message: string)

  datatype ReportBuild = Built(report: string) | Unbuildable(permanent: bool, message: string)

  /** `unreadable` is the message of the permanent error that reading the stored input raises, if it raises one. */
  datatype Engine = Engine(
    unreadable: Upload -> Option<string>,
    analyze: (Kind, Upload) -> Analysis,
    build: (Upload, map<Kind, ToolResult>) -> ReportBuild)

  datatype WorkerOutcome =
    | TaskDone(task: Task, final: TaskState, finalized: bool)
    | ReportDone(succeeded: bool, finalized: bool)
    | ReportPostponed
    | NothingToDo
    | WorkerError(error: Error)

  /**
   * The repository's lock is free between the calls of a round, and while a tool runs. `others(k)` is what everyone
   * else does before the round's call number `k`, `clock(k)` when that call is made; `own` is the worker's clock when
   * it schedules a retry.
   */
  datatype Schedule = Schedule(clock: nat -> Time, others: nat -> seq<Op>, own: Time)

  datatype Entry = Entry(op: Op, own: bool)

  /** What the repository holds, everything done to it since the round began, and the calls the round has made. */
  datatype Progress = Progress(state: State, trace: seq<Entry>, calls: nat)

  function By(ops: seq<Op>, own: bool): (trace: seq<Entry>)
    ensures |trace| == |ops| && forall i | 0 <= i < |ops| :: trace[i] == Entry(ops[i], own)
  {
    seq(|ops|, i requires 0 <= i < |ops| => Entry(ops[i], own))
  }

  /** Getting the lock for the next call. */
  function Wait(codec: Codec, w: Schedule, p: Progress): Progress {
    var others := w.others(p.calls);
    Progress(Run(codec, p.state, others), p.trace + By(others, false), p.calls + 1)
  }

  function Do(codec: Codec, p: Progress, op: Op): Progress {
    p.(state := Step(codec, p.state, op).0, trace := p.trace + By([op], true))
  }

  datatype Finalization = Finalized | Unfinished | Impossible(message: string) | Interrupted

  /** `finalize_ready_scan` with its input: what it does, and how it ends. */
  function FinalizeWith(codec: Codec, engine: Engine, w: Schedule, p: Progress, scanId: Id, upload: Upload): (Progress,
          Finalization) {
    var q := Wait(codec, w, p);
    var results := ScanAnalysisResults(q.state, scanId);
    if Osv !in results || DepScan !in results then (q, Unfinished)
    else
      match engine.build(upload, results)
      case Unbuildable(permanent, message) => (q, if permanent then Impossible(message) else Interrupted)
      case Built(report) =>
        var r, op := Wait(codec, w, q), Finalize(scanId, report, w.clock(q.calls));
        (Do(codec, r, op), if Step(codec, r.state, op).1.Ok? then Finalized else Interrupted)
  }

  /** `finalize_ready_scan` without its input, which it reads first. */
  function FinalizeReady(codec: Codec, engine: Engine, w: Schedule, p: Progress, scanId: Id): (Progress, Finalization) {
    var q := Wait(codec, w, p);
    match AnalysisInput(q.state, scanId)
    case None => (q, Interrupted)
    case Some(upload) =>
      var refusal := engine.unreadable(upload);
      if refusal.Some? then (q, Impossible(refusal.value)) else FinalizeWith(codec, engine, w, q, scanId, upload)
  }

  function RecordFailure(codec: Codec, w: Schedule, p: Progress, scanId: Id, message: string): Progress {
    Do(codec, Wait(codec, w, p), FinalizeFailure(scanId, message, w.clock(p.calls)))
  }

  const RETRYABLE: set<string> := {"FAILED", "TIMEOUT", "UNAVAILABLE"}

  /** The analysis of a task; a retryable status counts as a failure. */
  function Analyze(engine: Engine, input: Option<Upload>, task: Task): Analysis {
    match input
    case None => Raised(false, "durable scan analysis input is not available")
    case Some(upload) =>
      var refusal, analysis := engine.unreadable(upload), engine.analyze(task.kind, upload);
      if refusal.Some? then Raised(true, refusal.value)
      else if analysis.Produced? && analysis.status in RETRYABLE
          then Raised(false, "analysis returned retryable status " + analysis.status)
      else analysis
  }

  function Microseconds(seconds: real): int {
    (seconds * 1_000_000.0 + 0.5).Floor
  }

  predicate DeadLetters(c: Settings, task: Task, permanent: bool) {
    permanent || task.attempts >= c.maxAttempts
  }

  function FailureOf(c: Settings, w: Schedule, task: Task, permanent: bool, message: string, draw: real,
          now: Time): Op {
    var dead := DeadLetters(c, task, permanent);
    FailTask(task.taskId, c.workerId, message, w.own + if dead then 0
        else Microseconds(Backoff(c, task.attempts, draw)), dead, now)
  }

  /** `_fail_task` */
  function FailStep(codec: Codec, engine: Engine, c: Settings, w: Schedule, p: Progress, task: Task, permanent: bool,
                    message: string, draw: real): (Progress, WorkerOutcome)
  {
    var q, op := Wait(codec, w, p), FailureOf(c, w, task, permanent, message, draw, w.clock(p.calls));
    match Step(codec, q.state, op).1
    case Refused(error) => (Do(codec, q, op), WorkerError(error))
    case Ok(_) =>
      if op.deadLetter then (FinalizeReady(codec, engine, w, Do(codec, q, op), task.scanId).0,
          TaskDone(task, Failed, false))
      else (Do(codec, q, op), TaskDone(task, Retry, false))
  }

  const LOST_LEASE := "analysis task is not leased by this worker"

  /** After a completed task: a report that cannot be built is recorded as failed. */
  function Conclude(codec: Codec, engine: Engine, w: Schedule, p: Progress, task: Task, upload: Upload): (Progress,
          WorkerOutcome) {
    var (q, ended) := FinalizeWith(codec, engine, w, p, task.scanId, upload);
    if ended.Impossible? then (RecordFailure(codec, w, q, task.scanId, ended.message), TaskDone(task, Succeeded, true))
    else (q, TaskDone(task, Succeeded, ended.Finalized?))
  }

  /** `_process` */
  function Process(codec: Codec, engine: Engine, c: Settings, w: Schedule, p: Progress, task: Task, draw: real)
    : (Progress, WorkerOutcome)
  {
    var q := Wait(codec, w, p);
    var input := AnalysisInput(q.state, task.scanId);
    match Analyze(engine, input, task)
    case Raised(permanent, message) => FailStep(codec, engine, c, w, q, task, permanent, message, draw)
    case Produced(_, result) =>
      var r, op := Wait(codec, w, q), CompleteTask(task.taskId, c.workerId, result, w.clock(q.calls));
      if Step(codec, r.state, op).1.Refused?
          then FailStep(codec, engine, c, w, Do(codec, r, op), task, false, LOST_LEASE, draw)
      else Conclude(codec, engine, w, Do(codec, r, op), task, input.value)
  }

  /** The claims of a round, from the `offset`th kind after `index` on; with the task, where the next round starts. */
  function ClaimRound(codec: Codec, c: Settings, w: Schedule, p: Progress, index: nat, offset: nat): (Progress,
          Option<(Task, nat)>)
    requires c.kinds != []
    decreases |c.kinds| - offset
  {
    if offset >= |c.kinds| then (p, None)
    else
      var at, q := (index + offset) % |c.kinds|, Wait(codec, w, p);
      var op := ClaimTask(c.kinds[at], c.workerId, c.leaseSeconds, w.clock(p.calls));
      var outcome := Step(codec, q.state, op).1;
      if outcome.Ok? && outcome.reply.TaskReply?
          then (Do(codec, q, op), Some((outcome.reply.task, (at + 1) % |c.kinds|)))
      else ClaimRound(codec, c, w, Do(codec, q, op), index, offset + 1)
  }

  /** When no task could be claimed: `run_once` looks for a scan to finalize. */
  function Reconcile(codec: Codec, engine: Engine, w: Schedule, p: Progress): (Progress, WorkerOutcome) {
    var q := Wait(codec, w, p);
    match NextReady(q.state)
    case None => (q, NothingToDo)
    case Some(scanId) =>
      var (r, ended) := FinalizeReady(codec, engine, w, q, scanId);
      match ended
      case Finalized => (r, ReportDone(true, true))
      case Unfinished => (r, ReportDone(true, false))
      case Impossible(message) => (RecordFailure(codec, w, r, scanId, message), ReportDone(false, true))
      case Interrupted => (r, ReportPostponed)
  }

  datatype Round = Round(progress: Progress, index: nat, outcome: WorkerOutcome)

  /** `run_once` */
  function RunRound(codec: Codec, engine: Engine, c: Settings, w: Schedule, s: State, index: nat, draw: real): Round
    requires c.kinds != []
  {
    var (p, claimed) := ClaimRound(codec, c, w, Progress(s, [], 0), index, 0);
    match claimed
    case Some((task, next)) => var (q, outcome) := Process(codec, engine, c, w, p, task, draw); Round(q, next, outcome)
    case None => var (q, outcome) := Reconcile(codec, engine, w, p); Round(q, index, outcome)
  }

  // ---------------------------------------------------------------- the worker

  lemma KindsNotEmpty(c: Settings)
    requires ValidSettings(c)
    ensures |c.kinds| > 0
  {
  }

  class AnalysisWorker {
    const repository: InMemoryRepository
    const engine: Engine
    const settings: Settings
    var nextKindIndex: nat

    ghost predicate Valid()
      reads this
    {
      ValidSettings(settings) && nextKindIndex < |settings.kinds|
    }

    constructor (repository: InMemoryRepository, engine: Engine, settings: Settings)
      requires ValidSettings(settings)
      ensures Valid() && this.repository == repository && this.engine == engine && this.settings == settings
              && nextKindIndex == 0
    {
      this.repository, this.engine, this.settings := repository, engine, settings;
      nextKindIndex := 0;
    }

    /** Where the round stands: the repository holds what `p` says, after `calls` calls. */
    ghost predicate At(p: Progress, calls: nat)
      reads repository
    {
      repository.Contents() == p.state && calls == p.calls
    }

    method FinalizeWithInput(scanId: Id, upload: Upload, w: Schedule, calls: nat, ghost p: Progress)
      returns (ended: Finalization, made: nat)
      requires At(p, calls)
      modifies repository
      ensures var (q, e) := FinalizeWith(repository.codec, engine, w, p, scanId, upload); At(q, made) && ended == e
    {
      hide Step, ScanAnalysisResults;
      made := calls;
      repository.Meanwhile(w.others(made));
      made := made + 1;
      var results := repository.ListScanAnalysisResults(scanId);
      if Osv !in results || DepScan !in results {
        return Unfinished, made;
      }
      var build := engine.build(upload, results);
      if build.Unbuildable? {
        return if build.permanent then Impossible(build.message) else Interrupted, made;
      }
      repository.Meanwhile(w.others(made));
      var outcome := repository.FinalizeScanReport(scanId, build.report, w.clock(made));
      return if outcome.Ok? then Finalized else Interrupted, made + 1;
    }

    method FinalizeReadyScan(scanId: Id, w: Schedule, calls: nat, ghost p: Progress) returns (ended: Finalization,
            made: nat)
      requires At(p, calls)
      modifies repository
      ensures var (q, e) := FinalizeReady(repository.codec, engine, w, p, scanId); At(q, made) && ended == e
    {
      hide Step, FinalizeWith;
      repository.Meanwhile(w.others(calls));
      var input := repository.GetScanAnalysisInput(scanId);
      if input.None? {
        return Interrupted, calls + 1;
      }
      var refusal := engine.unreadable(input.value);
      if refusal.Some? {
        return Impossible(refusal.value), calls + 1;
      }
      ended, made := FinalizeWithInput(scanId, input.value, w, calls + 1, Wait(repository.codec, w, p));
    }

    method FailClaimed(task: Task, permanent: bool, message: string, w: Schedule, draw: real, calls: nat,
            ghost p: Progress)
      returns (r: WorkerOutcome, made: nat)
      requires At(p, calls)
      modifies repository
      ensures var (q, o) := FailStep(repository.codec, engine, settings, w, p, task, permanent, message, draw);
              At(q, made) && r == o
    {
      hide Step, FinalizeReady, Backoff, Microseconds;
      var dead := permanent || task.attempts >= settings.maxAttempts;
      var retryAt := w.own + if dead then 0 else Microseconds(Backoff(settings, task.attempts, draw));
      repository.Meanwhile(w.others(calls));
      ghost var q := Wait(repository.codec, w, p);
      made := calls + 1;
      ghost var op := FailTask(task.taskId, settings.workerId, message, retryAt, dead, w.clock(calls));
      var outcome := repository.FailAnalysisTask(task.taskId, settings.workerId, message, retryAt, dead,
          w.clock(calls));
      if outcome.Refused? {
        return WorkerError(outcome.error), made;
      }
      if dead {
        var _, after := FinalizeReadyScan(task.scanId, w, made, Do(repository.codec, q, op));
        return TaskDone(task, Failed, false), after;
      }
      return TaskDone(task, Retry, false), made;
    }

    method ConcludeCompleted(task: Task, upload: Upload, w: Schedule, calls: nat, ghost p: Progress)
      returns (r: WorkerOutcome, made: nat)
      requires At(p, calls)
      modifies repository
      ensures var (q, o) := Conclude(repository.codec, engine, w, p, task, upload); At(q, made) && r == o
    {
      hide Step, FinalizeWith;
      var ended, after := FinalizeWithInput(task.scanId, upload, w, calls, p);
      if ended.Impossible? {
        repository.Meanwhile(w.others(after));
        var _ := repository.FinalizeScanReportFailure(task.scanId, ended.message, w.clock(after));
        return TaskDone(task, Succeeded, true), after + 1;
      }
      return TaskDone(task, Succeeded, ended.Finalized?), after;
    }

    method AnalyzeInput(task: Task, input: Option<Upload>) returns (analysis: Analysis)
      ensures analysis == Analyze(engine, input, task) && (input.None? ==> analysis.Raised?)
    {
      analysis := Raised(false, "durable scan analysis input is not available");
      if input.Some? {
        var refusal := engine.unreadable(input.value);
        if refusal.Some? {
          return Raised(true, refusal.value);
        }
        analysis := engine.analyze(task.kind, input.value);
        if analysis.Produced?
            && (analysis.status == "FAILED" || analysis.status == "TIMEOUT" || analysis.status == "UNAVAILABLE") {
          analysis := Raised(false, "analysis returned retryable status " + analysis.status);
        }
      }
    }

    method ProcessClaimed(task: Task, w: Schedule, draw: real, calls: nat,
            ghost p: Progress) returns (r: WorkerOutcome, made: nat)
      requires At(p, calls)
      modifies repository
      ensures var (q, o) := Process(repository.codec, engine, settings, w, p, task, draw); At(q, made) && r == o
    {
      hide Step, Run, FailStep, Conclude, Analyze;
      repository.Meanwhile(w.others(calls));
      ghost var q := Wait(repository.codec, w, p);
      made := calls + 1;
      var input := repository.GetScanAnalysisInput(task.scanId);
      var analysis := AnalyzeInput(task, input);
      if analysis.Raised? {
        r, made := FailClaimed(task, analysis.permanent, analysis.message, w, draw, made, q);
        return;
      }
      repository.Meanwhile(w.others(made));
      ghost var op := CompleteTask(task.taskId, settings.workerId, analysis.result, w.clock(made));
      ghost var done := Do(repository.codec, Wait(repository.codec, w, q), op);
      var outcome := repository.CompleteAnalysisTask(task.taskId, settings.workerId, analysis.result, w.clock(made));
      made := made + 1;
      if outcome.Refused? {
        r, made := FailClaimed(task, false, LOST_LEASE, w, draw, made, done);
      } else {
        r, made := ConcludeCompleted(task, input.value, w, made, done);
      }
    }

    method ReconcileReady(w: Schedule, calls: nat, ghost p: Progress) returns (r: WorkerOutcome, made: nat)
      requires At(p, calls)
      modifies repository
      ensures var (q, o) := Reconcile(repository.codec, engine, w, p); At(q, made) && r == o
    {
      hide Step, FinalizeReady, NextReady;
      repository.Meanwhile(w.others(calls));
      var ready := repository.NextScanReadyForFinalization();
      if ready.None? {
        return NothingToDo, calls + 1;
      }
      var ended, after := FinalizeReadyScan(ready.value, w, calls + 1, Wait(repository.codec, w, p));
      match ended
      case Finalized => return ReportDone(true, true), after;
      case Unfinished => return ReportDone(true, false), after;
      case Interrupted => return ReportPostponed, after;
      case Impossible(message) =>
        repository.Meanwhile(w.others(after));
        var _ := repository.FinalizeScanReportFailure(ready.value, message, w.clock(after));
        return ReportDone(false, true), after + 1;
    }

    /**
     * `run_once`, with anything happening between its calls: the first kind from `nextKindIndex` on that has a task is
     * served, and the next round starts after it.
     */
    method RunOnce(w: Schedule, draw: real) returns (r: WorkerOutcome)
      requires Valid()
      modifies this`nextKindIndex, repository
      ensures Valid()
      ensures var round :=
              RunRound(repository.codec, engine, settings, w, old(repository.Contents()), old(nextKindIndex), draw);
              repository.Contents() == round.progress.state && nextKindIndex == round.index && r == round.outcome
    {
      hide Step, Process, Reconcile, ValidSettings;
      KindsNotEmpty(settings);
      var kindCount := |settings.kinds|;
      ghost var start := Progress(repository.Contents(), [], 0);
      ghost var p := start;
      var offset := 0;
      while offset < kindCount
        invariant 0 <= offset <= kindCount && nextKindIndex == old(nextKindIndex)
        invariant At(p, offset)
        invariant ClaimRound(repository.codec, settings, w, start, nextKindIndex, 0)
                  == ClaimRound(repository.codec, settings, w, p, nextKindIndex, offset)
      {
        var index := (nextKindIndex + offset) % kindCount;
        var kind := settings.kinds[index];
        repository.Meanwhile(w.others(offset));
        ghost var op := ClaimTask(kind, settings.workerId, settings.leaseSeconds, w.clock(offset));
        p := Do(repository.codec, Wait(repository.codec, w, p), op);
        var outcome := repository.ClaimAnalysisTask(kind, settings.workerId, settings.leaseSeconds, w.clock(offset));
        offset := offset + 1;
        if outcome.Ok? && outcome.reply.TaskReply? {
          nextKindIndex := (index + 1) % kindCount;
          var made;
          r, made := ProcessClaimed(outcome.reply.task, w, draw, offset, p);
          return;
        }
      }
      var made;
      r, made := ReconcileReady(w, offset, p);
    }
  }
}
