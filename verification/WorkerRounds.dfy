/**
 * What a worker's round amounts to while everyone else goes on: a run of the control plane that keeps the rules,
 * exactly when it fails, and a fair choice of kinds.
 */
module WorkerRounds {
  import opened Prelude
  import opened OrderedDict
  import opened Records
  import opened Inventory
  import opened ControlPlane
  import opened Callers
  import opened Transitions
  import opened Lifecycle
  import opened Leases
  import opened BoundedWork
  import opened Readiness
  import opened Milestones
  import opened Worker

  // ---------------------------------------------------------------- rounds are runs

  function Ops(trace: seq<Entry>): (ops: seq<Op>)
    ensures |ops| == |trace| && forall i | 0 <= i < |ops| :: ops[i] == trace[i].op
  {
    seq(|trace|, i requires 0 <= i < |trace| => trace[i].op)
  }

  /** A worker dead-letters a task whose attempts are used up, and records failures only for scans with evidence. */
  ghost predicate Proper(c: Settings, s: State, op: Op) {
    InTime(s, op, c.maxAttempts) && !FailsUnevidenced(s, op)
  }

  /** What the worker itself did was proper when it was done. */
  ghost predicate ProperRun(codec: Codec, c: Settings, s: State, trace: seq<Entry>)
    decreases |trace|
  {
    trace != [] ==>
      && (trace[0].own ==> Proper(c, s, trace[0].op)) && WellFormed(trace[0].op)
      && ProperRun(codec, c, Step(codec, s, trace[0].op).0, trace[1..])
  }

  /** What was done since `s` is exactly the run of the operations in the trace, and the worker's own were proper. */
  ghost predicate Follows(codec: Codec, c: Settings, s: State, p: Progress) {
    Run(codec, s, Ops(p.trace)) == p.state && ProperRun(codec, c, s, p.trace) && Sound(p.state)
  }

  ghost predicate StrangeOps(c: Settings, ops: seq<Op>) {
    forall op | op in ops :: WellFormed(op) && (IsTaskOp(op) ==> op.workerId != c.workerId)
  }

  /** The others are other workers, and their records come through the HTTP layer. */
  ghost predicate Strangers(c: Settings, w: Schedule) {
    forall k: nat :: StrangeOps(c, w.others(k))
  }

  lemma {:induction false} RunConcat(codec: Codec, c: Settings, s: State, a: seq<Entry>, b: seq<Entry>)
    requires ProperRun(codec, c, s, a) && ProperRun(codec, c, Run(codec, s, Ops(a)), b)
    ensures Run(codec, s, Ops(a + b)) == Run(codec, Run(codec, s, Ops(a)), Ops(b))
    ensures ProperRun(codec, c, s, a + b)
    decreases |a|
  {
    hide Step, Proper, WellFormed;
    if a == [] {
      assert a + b == b;
    } else {
      assert (a + b)[1..] == a[1..] + b;
      assert Ops(a)[1..] == Ops(a[1..]) && Ops(a + b)[1..] == Ops(a[1..] + b);
      RunConcat(codec, c, Step(codec, s, a[0].op).0, a[1..], b);
    }
  }

  lemma {:induction false} StrangersAreProper(codec: Codec, c: Settings, s: State, ops: seq<Op>)
    requires StrangeOps(c, ops)
    ensures ProperRun(codec, c, s, By(ops, false))
    decreases |ops|
  {
    hide Step, Proper, WellFormed;
    if ops == [] {
    } else {
      assert ops[0] in ops;
      assert By(ops, false)[1..] == By(ops[1..], false);
      StrangersAreProper(codec, c, Step(codec, s, ops[0]).0, ops[1..]);
    }
  }

  lemma OpsBy(ops: seq<Op>, own: bool)
    ensures Ops(By(ops, own)) == ops
  {
  }

  lemma StrangersWellFormed(c: Settings, ops: seq<Op>)
    requires StrangeOps(c, ops)
    ensures AllWellFormed(ops)
  {
  }

  lemma WaitFollows(codec: Codec, c: Settings, w: Schedule, s: State, p: Progress)
    requires Follows(codec, c, s, p) && Strangers(c, w)
    ensures Follows(codec, c, s, Wait(codec, w, p))
  {
    hide Run, ProperRun, Sound, StrangeOps;
    var others := w.others(p.calls);
    assert StrangeOps(c, others);
    StrangersAreProper(codec, c, p.state, others);
    OpsBy(others, false);
    RunConcat(codec, c, s, p.trace, By(others, false));
    StrangersWellFormed(c, others);
    RunKeepsSound(codec, p.state, others);
  }

  lemma OneStep(codec: Codec, c: Settings, s: State, op: Op)
    requires Proper(c, s, op) && WellFormed(op)
    ensures Run(codec, s, Ops(By([op], true))) == Step(codec, s, op).0 && ProperRun(codec, c, s, By([op], true))
  {
    hide Step, Proper, WellFormed;
    OpsBy([op], true);
    assert [op][1..] == [] && By([op], true)[1..] == [];
  }

  lemma DoFollows(codec: Codec, c: Settings, s: State, p: Progress, op: Op)
    requires Follows(codec, c, s, p) && Proper(c, p.state, op) && WellFormed(op)
    ensures Follows(codec, c, s, Do(codec, p, op))
  {
    hide Step, Proper, WellFormed, Sound;
    OneStep(codec, c, p.state, op);
    hide Run, ProperRun;
    RunConcat(codec, c, s, p.trace, By([op], true));
    StepKeepsSound(codec, p.state, op);
  }

  // ---------------------------------------------------------------- what others cannot take away

  ghost predicate HasEvidence(s: State, scanId: Id) {
    scanId in s.scans.rows && s.scans.rows[scanId].upload.Some?
  }

  ghost predicate HasEnded(s: State, id: Id, final: TaskState) {
    id in s.tasks.rows && s.tasks.rows[id].state == final && (final == Succeeded || final == Failed)
  }

  /** Evidence and finished tasks stay, whatever anyone does. */
  ghost predicate Keeping(s: State, t: State) {
    && (forall id | HasEvidence(s, id) :: HasEvidence(t, id))
    && (forall id, final | HasEnded(s, id, final) :: HasEnded(t, id, final))
  }

  lemma EvidenceKept(a: Scan, b: Scan)
    requires Keeps(a, b) && a.upload.Some?
    ensures b.upload.Some?
  {
  }

  lemma RunKeeps(codec: Codec, s: State, ops: seq<Op>)
    ensures Keeping(s, Run(codec, s, ops))
  {
    hide Run, Keeps;
    forall id | HasEvidence(s, id) ensures HasEvidence(Run(codec, s, ops), id) {
      WriteOnce(codec, s, ops, id);
      EvidenceKept(s.scans.rows[id], Run(codec, s, ops).scans.rows[id]);
    }
    forall id, final | HasEnded(s, id, final) ensures HasEnded(Run(codec, s, ops), id, final) {
      TerminalForever(codec, s, ops, id);
    }
  }

  lemma StepKeeps(codec: Codec, s: State, op: Op)
    ensures Keeping(s, Step(codec, s, op).0)
  {
    hide Step, Keeping;
    RunKeeps(codec, s, [op]);
    assert [op][1..] == [];
  }

  lemma KeepingTransitive(s: State, t: State, u: State)
    requires Keeping(s, t) && Keeping(t, u)
    ensures Keeping(s, u)
  {
    hide HasEvidence, HasEnded;
  }

  /** The round follows the rules from `s` on, and has lost nothing since `p`. */
  ghost predicate Onward(codec: Codec, c: Settings, s: State, p: Progress, q: Progress) {
    Follows(codec, c, s, q) && Keeping(p.state, q.state)
  }

  lemma WaitOnward(codec: Codec, c: Settings, w: Schedule, s: State, o: Progress, p: Progress)
    requires Onward(codec, c, s, o, p) && Strangers(c, w)
    ensures Onward(codec, c, s, o, Wait(codec, w, p)) && Keeping(p.state, Wait(codec, w, p).state)
  {
    hide Run, Follows, Keeping, Strangers;
    WaitFollows(codec, c, w, s, p);
    RunKeeps(codec, p.state, w.others(p.calls));
    KeepingTransitive(o.state, p.state, Wait(codec, w, p).state);
  }

  lemma DoOnward(codec: Codec, c: Settings, s: State, o: Progress, p: Progress, op: Op)
    requires Onward(codec, c, s, o, p) && Proper(c, p.state, op) && WellFormed(op)
    ensures Onward(codec, c, s, o, Do(codec, p, op)) && Keeping(p.state, Do(codec, p, op).state)
  {
    hide Step, Follows, Keeping, Proper, WellFormed;
    DoFollows(codec, c, s, p, op);
    StepKeeps(codec, p.state, op);
    KeepingTransitive(o.state, p.state, Do(codec, p, op).state);
  }

  // ---------------------------------------------------------------- finalizing

  lemma FinalizeWithOnward(codec: Codec, engine: Engine, c: Settings, w: Schedule, s: State, o: Progress, p: Progress,
          scanId: Id, upload: Upload)
    requires Onward(codec, c, s, o, p) && Strangers(c, w)
    ensures Onward(codec, c, s, o, FinalizeWith(codec, engine, w, p, scanId, upload).0)
    ensures Keeping(p.state, FinalizeWith(codec, engine, w, p, scanId, upload).0.state)
  {
    hide Onward, Step, ScanAnalysisResults, Strangers, Keeping, Wait, Do;
    var q := Wait(codec, w, p);
    WaitOnward(codec, c, w, s, o, p);
    var (x, ended) := FinalizeWith(codec, engine, w, p, scanId, upload);
    if x != q {
      var r := Wait(codec, w, q);
      var report := engine.build(upload, ScanAnalysisResults(q.state, scanId)).report;
      WaitOnward(codec, c, w, s, o, q);
      DoOnward(codec, c, s, o, r, Finalize(scanId, report, w.clock(q.calls)));
      KeepingTransitive(p.state, q.state, r.state);
      KeepingTransitive(p.state, r.state, x.state);
    }
  }

  lemma FinalizeReadyOnward(codec: Codec, engine: Engine, c: Settings, w: Schedule, s: State, o: Progress, p: Progress,
          scanId: Id)
    requires Onward(codec, c, s, o, p) && Strangers(c, w)
    ensures var (q, ended) := FinalizeReady(codec, engine, w, p, scanId);
            Onward(codec, c, s, o, q) && (ended.Impossible? ==> HasEvidence(q.state, scanId))
  {
    hide Onward, Strangers, Wait, FinalizeWith;
    var q := Wait(codec, w, p);
    WaitOnward(codec, c, w, s, o, p);
    if AnalysisInput(q.state, scanId).Some? {
      FinalizeWithOnward(codec, engine, c, w, s, o, q, scanId, AnalysisInput(q.state, scanId).value);
    }
  }

  lemma FailureOnward(codec: Codec, c: Settings, w: Schedule, s: State, o: Progress, p: Progress, scanId: Id,
          message: string)
    requires Onward(codec, c, s, o, p) && Strangers(c, w) && HasEvidence(p.state, scanId)
    ensures Onward(codec, c, s, o, RecordFailure(codec, w, p, scanId, message))
  {
    hide Onward, Strangers, Wait, Do;
    WaitOnward(codec, c, w, s, o, p);
    DoOnward(codec, c, s, o, Wait(codec, w, p), FinalizeFailure(scanId, message, w.clock(p.calls)));
  }

  // ---------------------------------------------------------------- the claimed task among the others

  ghost predicate TakenSince(c: Settings, s: State, task: Task)
    requires task.taskId in s.tasks.rows
  {
    s.tasks.rows[task.taskId].attempts > task.attempts && s.tasks.rows[task.taskId].leasedBy != Some(c.workerId)
  }

  /** The worker still holds the task it was given, or someone has claimed it since. */
  ghost predicate HeldOrTaken(c: Settings, s: State, task: Task) {
    && task.taskId in s.tasks.rows
    && (s.tasks.rows[task.taskId] == task || TakenSince(c, s, task))
  }

  /** The repository no longer holds the task as it was given to the worker. */
  ghost predicate Lost(s: State, task: Task) {
    task.taskId !in s.tasks.rows || s.tasks.rows[task.taskId] != task
  }

  lemma StrangerStep(codec: Codec, c: Settings, s: State, task: Task, op: Op)
    requires HeldOrTaken(c, s, task) && Holds(task, c.workerId) && (IsTaskOp(op) ==> op.workerId != c.workerId)
    ensures HeldOrTaken(c, Step(codec, s, op).0, task)
    ensures Lost(s, task) ==> Lost(Step(codec, s, op).0, task)
  {
    hide Step, Claimable, ValidLease;
    StepTasks(codec, s, op, task.taskId);
  }

  lemma {:induction false} StrangersRun(codec: Codec, c: Settings, s: State, task: Task, ops: seq<Op>)
    requires HeldOrTaken(c, s, task) && Holds(task, c.workerId) && StrangeOps(c, ops)
    ensures HeldOrTaken(c, Run(codec, s, ops), task)
    ensures Lost(s, task) ==> Lost(Run(codec, s, ops), task)
    decreases |ops|
  {
    hide Step, TakenSince, WellFormed;
    if ops == [] {
    } else {
      assert ops[0] in ops;
      StrangerStep(codec, c, s, task, ops[0]);
      StrangersRun(codec, c, Step(codec, s, ops[0]).0, task, ops[1..]);
    }
  }

  lemma WaitHeld(codec: Codec, c: Settings, w: Schedule, p: Progress, task: Task)
    requires HeldOrTaken(c, p.state, task) && Holds(task, c.workerId) && Strangers(c, w)
    ensures HeldOrTaken(c, Wait(codec, w, p).state, task)
    ensures Lost(p.state, task) ==> Lost(Wait(codec, w, p).state, task)
  {
    hide Run, TakenSince, StrangeOps;
    assert StrangeOps(c, w.others(p.calls));
    StrangersRun(codec, c, p.state, task, w.others(p.calls));
  }

  /** A release succeeds exactly when nobody has claimed the task since, and a refused one changes nothing. */
  lemma ReleaseExactly(codec: Codec, c: Settings, s: State, task: Task, op: Op)
    requires HeldOrTaken(c, s, task) && Holds(task, c.workerId)
    requires (op.CompleteTask? || op.FailTask?) && op.taskId == task.taskId && op.workerId == c.workerId
    ensures var (t, outcome) := Step(codec, s, op);
            && (outcome.Ok? <==> !Lost(s, task))
            && (if outcome.Ok? then
                  && task.taskId in t.tasks.rows
                  && t.tasks.rows[task.taskId].state
                     == (if op.CompleteTask? then Succeeded else if op.deadLetter then Failed else Retry)
                else t == s)
  {
    hide SanitizeError;
  }

  /** The task ended as reported, and stays so if it is finished; a task to retry has an attempt left. */
  ghost predicate Settled(c: Settings, s: State, task: Task, outcome: WorkerOutcome) {
    && outcome.TaskDone? && outcome.task == task
    && (HasEnded(s, task.taskId, outcome.final) || (outcome.final == Retry && task.attempts < c.maxAttempts))
  }

  lemma DoIsStep(codec: Codec, p: Progress, op: Op)
    ensures Do(codec, p, op).state == Step(codec, p.state, op).0
  {
    hide Step;
  }

  lemma FailureIsProper(c: Settings, s: State, task: Task, op: Op)
    requires HeldOrTaken(c, s, task) && op.FailTask? && op.taskId == task.taskId && op.workerId == c.workerId
    requires op.deadLetter || task.attempts < c.maxAttempts
    ensures Proper(c, s, op) && WellFormed(op)
  {
  }

  lemma OnwardFromHere(codec: Codec, c: Settings, s: State, o: Progress, p: Progress)
    requires Onward(codec, c, s, o, p)
    ensures Onward(codec, c, s, p, p)
  {
    hide Follows;
  }

  lemma BackToOrigin(codec: Codec, c: Settings, s: State, o: Progress, p: Progress, q: Progress)
    requires Onward(codec, c, s, o, p) && Onward(codec, c, s, p, q)
    ensures Onward(codec, c, s, o, q)
  {
    hide Follows, Keeping;
    KeepingTransitive(o.state, p.state, q.state);
  }

  lemma StillEnded(codec: Codec, c: Settings, s: State, p: Progress, q: Progress, id: Id, final: TaskState)
    requires Onward(codec, c, s, p, q) && HasEnded(p.state, id, final)
    ensures HasEnded(q.state, id, final)
  {
    hide Follows, HasEvidence;
  }

  /** The state in which the worker tries to fail its task decides whether it gets an error. */
  lemma FailStepOnward(codec: Codec, engine: Engine, c: Settings, w: Schedule, s: State, o: Progress, p: Progress,
          task: Task, permanent: bool, message: string, draw: real)
    requires Onward(codec, c, s, o, p) && Strangers(c, w) && HeldOrTaken(c, p.state, task) && Holds(task, c.workerId)
    ensures var (q, outcome) := FailStep(codec, engine, c, w, p, task, permanent, message, draw);
            && Onward(codec, c, s, o, q)
            && (outcome.WorkerError? <==> Lost(Wait(codec, w, p).state, task))
            && (!outcome.WorkerError? ==> Settled(c, q.state, task, outcome))
  {
    hide Onward, Strangers, Step, Wait, Do, Holds, FinalizeReady, Backoff, Microseconds, HasEvidence;
    var q, op := Wait(codec, w, p), FailureOf(c, w, task, permanent, message, draw, w.clock(p.calls));
    WaitOnward(codec, c, w, s, o, p);
    WaitHeld(codec, c, w, p, task);
    ReleaseExactly(codec, c, q.state, task, op);
    DoIsStep(codec, q, op);
    FailureIsProper(c, q.state, task, op);
    DoOnward(codec, c, s, o, q, op);
    if Step(codec, q.state, op).1.Ok? && op.deadLetter {
      OnwardFromHere(codec, c, s, o, Do(codec, q, op));
      FinalizeReadyOnward(codec, engine, c, w, s, Do(codec, q, op), Do(codec, q, op), task.scanId);
      BackToOrigin(codec, c, s, o, Do(codec, q, op), FinalizeReady(codec, engine, w, Do(codec, q, op), task.scanId).0);
      StillEnded(codec, c, s, Do(codec, q, op), FinalizeReady(codec, engine, w, Do(codec, q, op), task.scanId).0,
          task.taskId, Failed);
    }
  }

  // ---------------------------------------------------------------- the round

  lemma ConcludeOnward(codec: Codec, engine: Engine, c: Settings, w: Schedule, s: State, o: Progress, p: Progress,
          task: Task, upload: Upload)
    requires Onward(codec, c, s, o, p) && Strangers(c, w)
    requires HasEvidence(p.state, task.scanId) && HasEnded(p.state, task.taskId, Succeeded)
    ensures var (q, outcome) := Conclude(codec, engine, w, p, task, upload);
            Onward(codec, c, s, o, q) && Settled(c, q.state, task, outcome) && !outcome.WorkerError?
  {
    hide Onward, Strangers, Wait, Do, FinalizeWith, RecordFailure, HasEvidence, HasEnded;
    var (q, ended) := FinalizeWith(codec, engine, w, p, task.scanId, upload);
    FinalizeWithOnward(codec, engine, c, w, s, o, p, task.scanId, upload);
    OnwardFromHere(codec, c, s, o, q);
    if ended.Impossible? {
      FailureOnward(codec, c, w, s, o, q, task.scanId, ended.message);
      FailureOnward(codec, c, w, s, q, q, task.scanId, ended.message);
      StillEnded(codec, c, s, q, RecordFailure(codec, w, q, task.scanId, ended.message), task.taskId, Succeeded);
    }
  }

  lemma CompletionIsProper(c: Settings, s: State, op: Op)
    requires op.CompleteTask? || op.ClaimTask?
    ensures Proper(c, s, op) && WellFormed(op)
  {
  }

  lemma InputIsEvidence(s: State, scanId: Id)
    ensures AnalysisInput(s, scanId).Some? <==> HasEvidence(s, scanId)
  {
  }

  /** The state in which the worker first tries to release its task: after reading its input and running the tool. */
  ghost function AtRelease(codec: Codec, w: Schedule, p: Progress): State {
    Wait(codec, w, Wait(codec, w, p)).state
  }

  lemma NoInputNoResult(engine: Engine, input: Option<Upload>, task: Task)
    requires Analyze(engine, input, task).Produced?
    ensures input.Some?
  {
  }

  lemma EvidenceThere(s: State, t: State, u: State, scanId: Id)
    requires AnalysisInput(s, scanId).Some? && Keeping(s, t) && Keeping(t, u)
    ensures HasEvidence(u, scanId)
  {
    InputIsEvidence(s, scanId);
    hide HasEnded;
  }

  /** The second half of `_process`: complete the task, or fail it when the completion is refused. */
  lemma CompleteOnward(codec: Codec, engine: Engine, c: Settings, w: Schedule, s: State, o: Progress, q: Progress,
          task: Task, upload: Upload, result: string, draw: real)
    requires Onward(codec, c, s, o, q) && Strangers(c, w) && HeldOrTaken(c, q.state, task) && Holds(task, c.workerId)
    requires AnalysisInput(q.state, task.scanId) == Some(upload)
    ensures var r, op := Wait(codec, w, q), CompleteTask(task.taskId, c.workerId, result, w.clock(q.calls));
            var (x, outcome) :=
              if Step(codec, r.state, op).1.Refused?
                  then FailStep(codec, engine, c, w, Do(codec, r, op), task, false, LOST_LEASE, draw)
              else Conclude(codec, engine, w, Do(codec, r, op), task, upload);
            && Onward(codec, c, s, o, x)
            && (outcome.WorkerError? <==> Lost(r.state, task))
            && (!outcome.WorkerError? ==> Settled(c, x.state, task, outcome))
  {
    hide Onward, Strangers, Step, Wait, Do, Holds, FailStep, Conclude, Proper, WellFormed;
    var r, op := Wait(codec, w, q), CompleteTask(task.taskId, c.workerId, result, w.clock(q.calls));
    OnwardFromHere(codec, c, s, o, q);
    WaitOnward(codec, c, w, s, o, q);
    WaitHeld(codec, c, w, q, task);
    ReleaseExactly(codec, c, r.state, task, op);
    DoIsStep(codec, r, op);
    CompletionIsProper(c, r.state, op);
    DoOnward(codec, c, s, o, r, op);
    var d := Do(codec, r, op);
    if Step(codec, r.state, op).1.Refused? {
      FailStepOnward(codec, engine, c, w, s, o, d, task, false, LOST_LEASE, draw);
      WaitHeld(codec, c, w, d, task);
    } else {
      EvidenceThere(q.state, r.state, d.state, task.scanId);
      ConcludeOnward(codec, engine, c, w, s, o, d, task, upload);
    }
  }

  lemma ProcessOnward(codec: Codec, engine: Engine, c: Settings, w: Schedule, s: State, o: Progress, p: Progress,
          task: Task, draw: real)
    requires Onward(codec, c, s, o, p) && Strangers(c, w) && HeldOrTaken(c, p.state, task) && Holds(task, c.workerId)
    ensures var (q, outcome) := Process(codec, engine, c, w, p, task, draw);
            && Onward(codec, c, s, o, q)
            && (outcome.WorkerError? <==> Lost(AtRelease(codec, w, p), task))
            && (!outcome.WorkerError? ==> Settled(c, q.state, task, outcome))
  {
    hide Onward, Strangers, Step, Wait, Do, Holds, FailStep, Conclude, Analyze, HasEvidence, HasEnded, TakenSince;
    var q := Wait(codec, w, p);
    var input := AnalysisInput(q.state, task.scanId);
    WaitOnward(codec, c, w, s, o, p);
    WaitHeld(codec, c, w, p, task);
    match Analyze(engine, input, task)
    case Raised(permanent, message) => FailStepOnward(codec, engine, c, w, s, o, q, task, permanent, message, draw);
    case Produced(_, result) =>
      NoInputNoResult(engine, input, task);
      CompleteOnward(codec, engine, c, w, s, o, q, task, input.value, result, draw);
  }

  lemma ClaimGives(codec: Codec, c: Settings, s: State, o: Progress, p: Progress, op: Op)
    requires Onward(codec, c, s, o, p) && op.ClaimTask? && op.workerId == c.workerId
    requires Step(codec, p.state, op).1.Ok? && Step(codec, p.state, op).1.reply.TaskReply?
    ensures var task := Step(codec, p.state, op).1.reply.task;
            HeldOrTaken(c, Do(codec, p, op).state, task) && Holds(task, c.workerId)
  {
    hide Step, Claimable, ValidLease, Sound, Run, ProperRun;
    ClaimNames(codec, p.state, op, Step(codec, p.state, op).1.reply.task.taskId);
  }

  lemma {:induction false} ClaimRoundOnward(codec: Codec, c: Settings, w: Schedule, s: State, o: Progress, p: Progress,
          index: nat, offset: nat)
    requires c.kinds != [] && Strangers(c, w) && Onward(codec, c, s, o, p)
    ensures var (q, claimed) := ClaimRound(codec, c, w, p, index, offset);
            && Onward(codec, c, s, o, q)
            && (claimed.Some? ==> HeldOrTaken(c, q.state, claimed.value.0) && Holds(claimed.value.0, c.workerId))
    decreases |c.kinds| - offset
  {
    hide Onward, Strangers, Step, Wait, Do, Proper, WellFormed;
    if offset >= |c.kinds| {
    } else {
      var q := Wait(codec, w, p);
      var op := ClaimTask(c.kinds[(index + offset) % |c.kinds|], c.workerId, c.leaseSeconds, w.clock(p.calls));
      WaitOnward(codec, c, w, s, o, p);
      CompletionIsProper(c, q.state, op);
      DoOnward(codec, c, s, o, q, op);
      var outcome := Step(codec, q.state, op).1;
      if outcome.Ok? && outcome.reply.TaskReply? {
        ClaimGives(codec, c, s, o, q, op);
      } else {
        ClaimRoundOnward(codec, c, w, s, o, Do(codec, q, op), index, offset + 1);
      }
    }
  }

  lemma OnwardIsSound(codec: Codec, c: Settings, s: State, o: Progress, p: Progress)
    requires Onward(codec, c, s, o, p)
    ensures Sound(p.state)
  {
    hide Run, ProperRun, Sound, Keeping;
  }

  lemma ReadyAfter(codec: Codec, c: Settings, s: State, ops: seq<Op>, scanId: Id)
    requires Sound(s) && scanId in s.scans.rows && s.scans.rows[scanId].upload.Some?
             && AllFinished(s.tasks.rows, scanId)
    requires StrangeOps(c, ops)
    ensures var t := Run(codec, s, ops);
            Sound(t) && scanId in t.scans.rows && t.scans.rows[scanId].upload.Some? && AllFinished(t.tasks.rows, scanId)
  {
    hide Sound, AllFinished, Run, ScanAnalysisResults, StatesOf;
    StrangersWellFormed(c, ops);
    ResultsFixed(codec, s, ops, scanId);
    RunKeepsSound(codec, s, ops);
    WriteOnce(codec, s, ops, scanId);
  }

  /**
   * For a scan reported as ready, the "not all results" exit is never taken, whatever others do before the results are
   * read.
   */
  lemma NeverUnfinished(codec: Codec, engine: Engine, c: Settings, w: Schedule, p: Progress, scanId: Id)
    requires Sound(p.state) && Strangers(c, w) && NextReady(p.state) == Some(scanId)
    ensures !FinalizeReady(codec, engine, w, p, scanId).1.Unfinished?
  {
    hide Sound, NextReady, ScanAnalysisResults, AllFinished, Step, Run, StrangeOps, StatesOf;
    var q := Wait(codec, w, p);
    var r := Wait(codec, w, q);
    NextReadyIsFinished(p.state);
    ReadyAfter(codec, c, p.state, w.others(p.calls), scanId);
    ReadyAfter(codec, c, q.state, w.others(q.calls), scanId);
    FinishedHasResults(r.state, scanId);
  }

  lemma ReconcileOnward(codec: Codec, engine: Engine, c: Settings, w: Schedule, s: State, o: Progress, p: Progress)
    requires Onward(codec, c, s, o, p) && Strangers(c, w)
    ensures var (q, outcome) := Reconcile(codec, engine, w, p);
            Onward(codec, c, s, o, q) && !outcome.WorkerError? && !outcome.TaskDone?
                && outcome != ReportDone(true, false)
  {
    hide Onward, Strangers, Wait, Do, FinalizeReady, RecordFailure, NextReady, HasEvidence;
    var q := Wait(codec, w, p);
    WaitOnward(codec, c, w, s, o, p);
    if NextReady(q.state).Some? {
      var scanId := NextReady(q.state).value;
      var (r, ended) := FinalizeReady(codec, engine, w, q, scanId);
      FinalizeReadyOnward(codec, engine, c, w, s, o, q, scanId);
      if ended.Impossible? { FailureOnward(codec, c, w, s, o, r, scanId, ended.message); }
      OnwardIsSound(codec, c, s, o, q);
      NeverUnfinished(codec, engine, c, w, q, scanId);
    }
  }

  lemma StartOnward(codec: Codec, c: Settings, s: State)
    requires Sound(s)
    ensures Onward(codec, c, s, Progress(s, [], 0), Progress(s, [], 0))
  {
    hide Sound;
    assert Ops([]) == [];
  }

  /**
   * Whatever others do during a round: everything the worker does is proper, so no recorded failure of its is for a
   * scan without evidence; it ends in an error exactly when it got a task and someone claimed that task before the
   * worker tried to release it; and a task it releases ends as reported: done, dead, or waiting for an attempt it still
   * has.
   */
  lemma RoundIsProperRun(codec: Codec, engine: Engine, c: Settings, w: Schedule, s: State, index: nat, draw: real)
    requires c.kinds != [] && Sound(s) && Strangers(c, w)
    ensures var round := RunRound(codec, engine, c, w, s, index, draw);
            var (p, claimed) := ClaimRound(codec, c, w, Progress(s, [], 0), index, 0);
            && Run(codec, s, Ops(round.progress.trace)) == round.progress.state
            && ProperRun(codec, c, s, round.progress.trace)
            && (round.outcome.WorkerError? <==> claimed.Some? && Lost(AtRelease(codec, w, p), claimed.value.0))
            && (claimed.Some? && !round.outcome.WorkerError?
               ==> Settled(c, round.progress.state, claimed.value.0, round.outcome))
  {
    hide Process, ClaimRound, Reconcile, Sound, Strangers, Wait, Settled;
    var o := Progress(s, [], 0);
    StartOnward(codec, c, s);
    ClaimRoundOnward(codec, c, w, s, o, o, index, 0);
    var (p, claimed) := ClaimRound(codec, c, w, o, index, 0);
    match claimed
    case Some((task, next)) => ProcessOnward(codec, engine, c, w, s, o, p, task, draw);
    case None => ReconcileOnward(codec, engine, c, w, s, o, p);
  }

  /** A task that was lost was claimed by another worker: its attempts have grown. */
  lemma LostIsReclaimed(codec: Codec, c: Settings, w: Schedule, p: Progress, task: Task)
    requires HeldOrTaken(c, p.state, task) && Holds(task, c.workerId) && Strangers(c, w)
    ensures Lost(AtRelease(codec, w, p), task) <==>
              (task.taskId in AtRelease(codec, w, p).tasks.rows
                  && AtRelease(codec, w, p).tasks.rows[task.taskId].attempts > task.attempts)
  {
    hide Wait, Strangers;
    WaitHeld(codec, c, w, p, task);
    WaitHeld(codec, c, w, Wait(codec, w, p), task);
  }

  // ---------------------------------------------------------------- fairness

  /** How many kinds are tried before the one at `at`, starting from `index`. */
  function Distance(index: nat, at: nat, n: nat): nat
    requires index < n && at < n
  {
    if index <= at then at - index else at + n - index
  }

  lemma ModOnce(x: nat, n: nat)
    requires 0 < n && x < 2 * n
    ensures x % n == if x < n then x else x - n
  {
    if x >= n {
      assert x == n + (x - n);
      assert (x - n) % n == x - n;
    }
  }

  lemma ClaimOfKind(s: State, op: Op)
    requires op.ClaimTask?
    ensures FirstClaimable(s.tasks.rows, TaskOrder(s.tasks), op.kind, op.now).Some? ==>
              s.tasks.rows[FirstClaimable(s.tasks.rows, TaskOrder(s.tasks), op.kind, op.now).value].kind == op.kind
  {
  }

  /** The state is not changed by claims that find nothing. */
  lemma ClaimNothing(codec: Codec, s: State, op: Op)
    requires op.ClaimTask? && ValidLease(op.workerId, op.leaseSeconds)
    ensures var (t, outcome) := Step(codec, s, op);
            && outcome.Ok?
            && (!outcome.reply.TaskReply? ==> t == s && forall id | id in s.tasks.rows ::
               !Claimable(s.tasks.rows[id], op.kind, op.now))
            && (outcome.reply.TaskReply? ==> outcome.reply.task.kind == op.kind)
  {
    hide Claimable, ValidLease, FirstClaimable;
    var order := TaskOrder(s.tasks);
    ClaimOfKind(s, op);
  }

  /** What the round finds at the `n`th claim from here, if the claims before it find nothing. */
  ghost function Look(codec: Codec, w: Schedule, s: State, calls: nat, n: nat): State
    decreases n
  {
    var t := Run(codec, s, w.others(calls));
    if n == 0 then t else Look(codec, w, t, calls + 1, n - 1)
  }

  /** There is a task of the kind to claim at that moment. */
  ghost predicate Waiting(codec: Codec, w: Schedule, s: State, calls: nat, n: nat, kind: Kind) {
    var t := Look(codec, w, s, calls, n);
    exists id :: id in t.tasks.rows && Claimable(t.tasks.rows[id], kind, w.clock(calls + n))
  }

  /** A claim that finds nothing of another kind leaves the wait one claim shorter. */
  lemma WaitingAfterClaim(codec: Codec, w: Schedule, p: Progress, op: Op, n: nat, kind: Kind)
    requires Waiting(codec, w, p.state, p.calls, n, kind)
    requires op.ClaimTask? && ValidLease(op.workerId, op.leaseSeconds) && op.now == w.clock(p.calls)
    requires n == 0 ==> op.kind == kind
    requires var outcome := Step(codec, Wait(codec, w, p).state, op).1; outcome.Refused? || !outcome.reply.TaskReply?
    ensures n > 0 && var r := Do(codec, Wait(codec, w, p), op); Waiting(codec, w, r.state, r.calls, n - 1, kind)
  {
    hide Step, Claimable, Run, ValidLease;
    ClaimNothing(codec, Wait(codec, w, p).state, op);
    var id :| id in Look(codec, w, p.state, p.calls, n).tasks.rows
      && Claimable(Look(codec, w, p.state, p.calls, n).tasks.rows[id], kind, w.clock(p.calls + n));
    assert n > 0;
    var r := Do(codec, Wait(codec, w, p), op);
    assert r.state == Wait(codec, w, p).state && r.calls == p.calls + 1;
    assert Look(codec, w, p.state, p.calls, n) == Look(codec, w, r.state, r.calls, n - 1);
    assert r.calls + (n - 1) == p.calls + n;
    assert id in Look(codec, w, r.state, r.calls, n - 1).tasks.rows;
  }

  /** A round that passes over a waiting kind brings its turn nearer, whatever others do during the round. */
  lemma {:induction false} TurnComesNearer(codec: Codec, c: Settings, w: Schedule, p: Progress, index: nat,
          offset: nat, at: nat)
    requires ValidSettings(c) && index < |c.kinds| && at < |c.kinds| && offset <= Distance(index, at, |c.kinds|)
    requires Waiting(codec, w, p.state, p.calls, Distance(index, at, |c.kinds|) - offset, c.kinds[at])
    ensures var claimed := ClaimRound(codec, c, w, p, index, offset).1;
            && claimed.Some? && claimed.value.1 < |c.kinds|
            && (claimed.value.0.kind == c.kinds[at]
               || Distance(claimed.value.1, at, |c.kinds|) < Distance(index, at, |c.kinds|))
    decreases |c.kinds| - offset
  {
    hide Step, Claimable, Run;
    var n := |c.kinds|;
    var tried := (index + offset) % n;
    ModOnce(index + offset, n);
    ModOnce(tried + 1, n);
    var q := Wait(codec, w, p);
    var op := ClaimTask(c.kinds[tried], c.workerId, c.leaseSeconds, w.clock(p.calls));
    ClaimNothing(codec, q.state, op);
    var outcome := Step(codec, q.state, op).1;
    if !outcome.reply.TaskReply? {
      WaitingAfterClaim(codec, w, p, op, Distance(index, at, n) - offset, c.kinds[at]);
      TurnComesNearer(codec, c, w, Do(codec, q, op), index, offset + 1, at);
    }
  }

  /** What a worker meets over several rounds; anything may happen to the repository between and during them. */
  datatype Visit = Visit(state: State, schedule: Schedule)

  function Claimed(codec: Codec, c: Settings, v: Visit, index: nat): Option<(Task, nat)>
    requires c.kinds != []
  {
    ClaimRound(codec, c, v.schedule, Progress(v.state, [], 0), index, 0).1
  }

  ghost predicate AlwaysWaiting(codec: Codec, c: Settings, visits: seq<Visit>, index: nat, at: nat)
    requires ValidSettings(c) && index < |c.kinds| && at < |c.kinds|
    decreases |visits|
  {
    visits != [] ==>
      && Waiting(codec, visits[0].schedule, visits[0].state, 0, Distance(index, at, |c.kinds|), c.kinds[at])
      && var claimed := Claimed(codec, c, visits[0], index);
         claimed.Some? && claimed.value.1 < |c.kinds| ==> AlwaysWaiting(codec, c, visits[1..], claimed.value.1, at)
  }

  /** Some round in the sequence serves the kind. */
  ghost predicate IsServed(codec: Codec, c: Settings, visits: seq<Visit>, index: nat, kind: Kind)
    requires c.kinds != []
    decreases |visits|
  {
    visits != []
    && var claimed := Claimed(codec, c, visits[0], index);
       claimed.Some? && (claimed.value.0.kind == kind || IsServed(codec, c, visits[1..], claimed.value.1, kind))
  }

  /** A kind that always has a task waiting is served within as many rounds as there are kinds. */
  lemma {:induction false} ServedInTurn(codec: Codec, c: Settings, visits: seq<Visit>, index: nat, at: nat)
    requires ValidSettings(c) && index < |c.kinds| && at < |c.kinds|
    requires AlwaysWaiting(codec, c, visits, index, at) && |visits| > Distance(index, at, |c.kinds|)
    ensures IsServed(codec, c, visits, index, c.kinds[at])
    decreases |visits|
  {
    hide ClaimRound, ValidSettings, Waiting;
    TurnComesNearer(codec, c, visits[0].schedule, Progress(visits[0].state, [], 0), index, 0, at);
    var claimed := Claimed(codec, c, visits[0], index);
    if claimed.value.0.kind != c.kinds[at] {
      ServedInTurn(codec, c, visits[1..], claimed.value.1, at);
    }
  }

  lemma ServedWithinKindCount(codec: Codec, c: Settings, visits: seq<Visit>, index: nat, at: nat)
    requires ValidSettings(c) && index < |c.kinds| && at < |c.kinds|
    requires AlwaysWaiting(codec, c, visits, index, at) && |visits| == |c.kinds|
    ensures IsServed(codec, c, visits, index, c.kinds[at])
  {
    hide AlwaysWaiting, IsServed;
    ServedInTurn(codec, c, visits, index, at);
  }
}
