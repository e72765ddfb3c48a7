/**
 * Any number of workers with distinct names, each doing one task at a time, interleaved with everything else. A worker
 * remembers only which task it works on; the attempt number it was given is remembered here to state what holds.
 */
module Fleet {
  import opened Prelude
  import opened OrderedDict
  import opened Records
  import opened Inventory
  import opened ControlPlane
  import opened Callers
  import opened Transitions
  import opened Lifecycle
  import opened Leases

  datatype Work = Work(taskId: Id, attempt: int)

  /** Workers not in `busy` are idle. */
  datatype Fleet = Fleet(control: State, busy: map<Id, Work>)

  datatype Move =
    | Claims(worker: Id, kind: Kind, leaseSeconds: int, now: Time)
    | Completes(worker: Id, result: string, now: Time)
    | Fails(worker: Id, error: string, retryAt: Time, deadLetter: bool, now: Time)
    | Crashes(worker: Id)
    | Others(op: Op)

  /** A worker claims when idle, and finishes only the task it works on. */
  ghost predicate Enabled(f: Fleet, m: Move) {
    match m
    case Claims(worker, _, _, _) => worker !in f.busy
    case Completes(worker, _, _) => worker in f.busy
    case Fails(worker, _, _, _, _) => worker in f.busy
    case Crashes(worker) => worker in f.busy
    case Others(op) => !IsTaskOp(op) && WellFormed(op)
  }

  /** The operation a move sends to the control plane, if any. */
  function OpOf(f: Fleet, m: Move): Option<Op>
    requires Enabled(f, m)
  {
    match m
    case Claims(worker, kind, leaseSeconds, now) => Some(ClaimTask(kind, worker, leaseSeconds, now))
    case Completes(worker, result, now) => Some(CompleteTask(f.busy[worker].taskId, worker, result, now))
    case Fails(worker, error, retryAt, deadLetter, now) =>
        Some(FailTask(f.busy[worker].taskId, worker, error, retryAt, deadLetter, now))
    case Crashes(_) => None
    case Others(op) => Some(op)
  }

  function Busy(f: Fleet, m: Move, outcome: Outcome): map<Id, Work>
    requires Enabled(f, m)
  {
    match m
    case Claims(worker, _, _, _) =>
      if outcome.Ok? && outcome.reply.TaskReply?
          then f.busy[worker := Work(outcome.reply.task.taskId, outcome.reply.task.attempts)] else f.busy
    case Completes(worker, _, _) => f.busy - {worker}
    case Fails(worker, _, _, _, _) => f.busy - {worker}
    case Crashes(worker) => f.busy - {worker}
    case Others(_) => f.busy
  }

  function Next(codec: Codec, f: Fleet, m: Move): Fleet
    requires Enabled(f, m)
  {
    match OpOf(f, m)
    case None => f.(busy := Busy(f, m, Ok(Nothing)))
    case Some(op) => var (t, outcome) := Step(codec, f.control, op); Fleet(t, Busy(f, m, outcome))
  }

  ghost predicate FencedWork(tasks: map<Id, Task>, worker: Id, work: Work) {
    && work.taskId in tasks
    && work.attempt <= tasks[work.taskId].attempts
    && (tasks[work.taskId].state == Running
       ==> (work.attempt == tasks[work.taskId].attempts <==> tasks[work.taskId].leasedBy == Some(worker)))
  }

  /**
   * A worker's attempt is current exactly when the worker is the one leasing the task: the holder's name, which is all
   * that the repository checks, works as well as a fencing token would.
   */
  ghost predicate Fenced(f: Fleet) {
    forall worker | worker in f.busy :: FencedWork(f.control.tasks.rows, worker, f.busy[worker])
  }

  /** Work stays fenced when its task is left alone, released, or claimed by another. */
  lemma WorkStaysFenced(s: State, t: State, op: Op, outcome: Outcome, worker: Id, work: Work)
    requires FencedWork(s.tasks.rows, worker, work) && TaskStep(s, t, op, outcome, work.taskId)
    requires op.ClaimTask? ==> op.workerId != worker
    ensures FencedWork(t.tasks.rows, worker, work)
  {
    hide Claimable, ValidLease;
  }

  /** A claim gives its worker the current attempt. */
  lemma ClaimIsFenced(codec: Codec, s: State, op: Op, id: Id)
    requires Sound(s) && ClaimedBy(op, Step(codec, s, op).1, id)
    ensures var (t, outcome) := Step(codec, s, op);
            FencedWork(t.tasks.rows, op.workerId, Work(id, outcome.reply.task.attempts))
  {
    hide Step, Sound, Claimable, ValidLease;
    ClaimNames(codec, s, op, id);
  }

  lemma ClaimReply(op: Op, outcome: Outcome)
    requires op.ClaimTask? && outcome.Ok? && outcome.reply.TaskReply?
    ensures ClaimedBy(op, outcome, outcome.reply.task.taskId)
  {
  }

  lemma BusyKnown(f: Fleet, worker: Id)
    requires Fenced(f) && worker in f.busy
    ensures f.busy[worker].taskId in f.control.tasks.rows
  {
  }

  lemma NextIsFenced(codec: Codec, f: Fleet, m: Move)
    requires Sound(f.control) && Fenced(f) && Enabled(f, m)
    ensures Sound(Next(codec, f, m).control) && Fenced(Next(codec, f, m))
  {
    hide Step, Sound, TaskStep, FencedWork, ClaimedBy;
    var g := Next(codec, f, m);
    if !m.Crashes? {
      var op := OpOf(f, m).value;
      var (t, outcome) := Step(codec, f.control, op);
      StepKeepsSound(codec, f.control, op);
      forall worker | worker in g.busy ensures FencedWork(g.control.tasks.rows, worker, g.busy[worker]) {
        if m.Claims? && worker == m.worker {
          assert ClaimedBy(op, outcome, g.busy[worker].taskId) by { ClaimReply(op, outcome); }
          ClaimIsFenced(codec, f.control, op, g.busy[worker].taskId);
        } else {
          assert f.busy[worker].taskId in f.control.tasks.rows by { BusyKnown(f, worker); }
          StepTasks(codec, f.control, op, f.busy[worker].taskId);
          WorkStaysFenced(f.control, t, op, outcome, worker, f.busy[worker]);
        }
      }
    }
  }

  /** An interleaving in which every move was possible when it was made. */
  ghost predicate CanRun(codec: Codec, f: Fleet, moves: seq<Move>)
    decreases |moves|
  {
    moves == [] || (Enabled(f, moves[0]) && CanRun(codec, Next(codec, f, moves[0]), moves[1..]))
  }

  ghost function RunFleet(codec: Codec, f: Fleet, moves: seq<Move>): Fleet
    requires CanRun(codec, f, moves)
    decreases |moves|
  {
    if moves == [] then f else RunFleet(codec, Next(codec, f, moves[0]), moves[1..])
  }

  /** In every interleaving, with workers crashing and leases expiring as they may, the fleet stays fenced. */
  lemma {:induction false} FleetStaysFenced(codec: Codec, f: Fleet, moves: seq<Move>)
    requires Sound(f.control) && Fenced(f) && CanRun(codec, f, moves)
    ensures Sound(RunFleet(codec, f, moves).control) && Fenced(RunFleet(codec, f, moves))
    decreases |moves|
  {
    hide Next, Sound, Fenced;
    if moves == [] {
    } else {
      NextIsFenced(codec, f, moves[0]);
      FleetStaysFenced(codec, Next(codec, f, moves[0]), moves[1..]);
    }
  }

  /** So a result is accepted exactly when the task still runs the very attempt the worker was given. */
  lemma AcceptedIffCurrent(codec: Codec, f: Fleet, m: Move)
    requires Fenced(f) && Enabled(f, m) && (m.Completes? || m.Fails?)
    ensures var task := f.control.tasks.rows[f.busy[m.worker].taskId];
            f.busy[m.worker].taskId in f.control.tasks.rows
            && (Step(codec, f.control, OpOf(f, m).value).1.Ok?
               <==> task.state == Running && task.attempts == f.busy[m.worker].attempt)
  {
    hide SanitizeError;
    assert FencedWork(f.control.tasks.rows, m.worker, f.busy[m.worker]);
  }

  /** At most one worker can have its result for a task accepted. */
  lemma OneWorkerCanFinish(codec: Codec, f: Fleet, a: Move, b: Move)
    requires Fenced(f) && Enabled(f, a) && Enabled(f, b) && (a.Completes? || a.Fails?) && (b.Completes? || b.Fails?)
    requires f.busy[a.worker].taskId == f.busy[b.worker].taskId
    requires Step(codec, f.control, OpOf(f, a).value).1.Ok? && Step(codec, f.control, OpOf(f, b).value).1.Ok?
    ensures a.worker == b.worker
  {
    hide Step;
    AcceptedIffCurrent(codec, f, a);
    AcceptedIffCurrent(codec, f, b);
    assert FencedWork(f.control.tasks.rows, a.worker, f.busy[a.worker])
           && FencedWork(f.control.tasks.rows, b.worker, f.busy[b.worker]);
  }
}
