/** Leases on analysis tasks: who may take a task, who may finish it, and why a stale worker cannot. */
module Leases {
  import opened Prelude
  import opened OrderedDict
  import opened Records
  import opened Inventory
  import opened ControlPlane
  import opened Callers
  import opened Transitions
  import opened Lifecycle

  // ---------------------------------------------------------------- one step, one task

  ghost predicate Reclaims(s: State, t: State, op: Op, outcome: Outcome, id: Id)
    requires id in s.tasks.rows && id in t.tasks.rows
  {
    && op.ClaimTask? && Claimable(s.tasks.rows[id], op.kind, op.now) && ValidLease(op.workerId, op.leaseSeconds)
    && t.tasks.rows[id] == Leased(s.tasks.rows[id], op.workerId, op.leaseSeconds, op.now)
    && outcome == Ok(TaskReply(t.tasks.rows[id]))
  }

  ghost predicate Releases(s: State, t: State, op: Op, id: Id)
    requires id in s.tasks.rows && id in t.tasks.rows
  {
    && (op.CompleteTask? || op.FailTask?) && op.taskId == id && Holds(s.tasks.rows[id], op.workerId)
    && (Completes(s.tasks.rows[id], t.tasks.rows[id]) || Fails(s.tasks.rows[id], t.tasks.rows[id]))
  }

  /** A known task is left alone, claimed by this very operation, or released by its holder. */
  ghost predicate TaskStep(s: State, t: State, op: Op, outcome: Outcome, id: Id)
    requires id in s.tasks.rows
  {
    id in t.tasks.rows && (t.tasks.rows[id] == s.tasks.rows[id] || Reclaims(s, t, op, outcome, id)
        || Releases(s, t, op, id))
  }

  lemma ClaimStep(s: State, t: State, op: Op, outcome: Outcome, id: Id)
    requires op.ClaimTask? && (t, outcome) == ClaimAnalysisTask(s, op.kind, op.workerId, op.leaseSeconds, op.now)
             && id in s.tasks.rows
    ensures TaskStep(s, t, op, outcome, id)
  {
    hide Claimable, FirstClaimable, TaskOrder, ValidLease;
  }

  /** A claim that returns a task has leased one. */
  lemma ClaimTakes(s: State, t: State, op: Op, outcome: Outcome)
    requires op.ClaimTask? && (t, outcome) == ClaimAnalysisTask(s, op.kind, op.workerId, op.leaseSeconds, op.now)
    requires outcome.Ok? && outcome.reply.TaskReply?
    ensures exists taken :: taken in s.tasks.rows && taken in t.tasks.rows && Reclaims(s, t, op, outcome, taken)
  {
    hide Claimable, FirstClaimable, TaskOrder, ValidLease;
    assert Reclaims(s, t, op, outcome, FirstClaimable(s.tasks.rows, TaskOrder(s.tasks), op.kind, op.now).value);
  }

  lemma TaskOpIsStep(codec: Codec, s: State, op: Op)
    requires op.ClaimTask? || op.CompleteTask? || op.FailTask?
    ensures Step(codec, s, op) == Perform(codec, s, op)
  {
    hide Perform;
  }

  lemma IngestLeavesTasks(s: State, t: State, op: Op, id: Id)
    requires Ingested(s, t, op) && id in s.tasks.rows
    ensures id in t.tasks.rows && t.tasks.rows[id] == s.tasks.rows[id]
  {
    hide PutTasks, ReceivesEvidence;
    PutTasksContents(s.tasks, op.tasks);
    assert !Names(op.tasks, id);
  }

  lemma OtherStep(codec: Codec, s: State, op: Op, id: Id)
    requires id in s.tasks.rows && !op.ClaimTask? && !op.CompleteTask? && !op.FailTask?
    ensures var t := Step(codec, s, op).0; id in t.tasks.rows && t.tasks.rows[id] == s.tasks.rows[id]
  {
    hide Perform, Step;
    StepPerforms(codec, s, op);
    if op.Ingest? {
      IngestPerforms(codec, s, op);
      IngestTasks(codec, s, op);
      if Perform(codec, s, op).0.tasks != s.tasks { IngestLeavesTasks(s, Perform(codec, s, op).0, op, id); }
    } else {
      OtherTasks(codec, s, op);
    }
  }

  lemma ClaimIsStep(codec: Codec, s: State, op: Op)
    requires op.ClaimTask?
    ensures Step(codec, s, op) == ClaimAnalysisTask(s, op.kind, op.workerId, op.leaseSeconds, op.now)
  {
    hide ClaimAnalysisTask;
  }

  lemma StepTasks(codec: Codec, s: State, op: Op, id: Id)
    requires id in s.tasks.rows
    ensures var (t, outcome) := Step(codec, s, op); TaskStep(s, t, op, outcome, id)
  {
    hide Step, Completes, Fails, Reclaims, ClaimAnalysisTask, Perform, Holds;
    var (t, outcome) := Step(codec, s, op);
    match op
    case ClaimTask(_, _, _, _) => ClaimIsStep(codec, s, op); ClaimStep(s, t, op, outcome, id);
    case CompleteTask(_, _, _, _) => TaskOpIsStep(codec, s, op); ReleaseTasks(codec, s, op);
    case FailTask(_, _, _, _, _, _) => TaskOpIsStep(codec, s, op); ReleaseTasks(codec, s, op);
    case _ => OtherStep(codec, s, op, id);
  }

  // ---------------------------------------------------------------- leases over runs

  /** No claim is made at or after `until`, and the holder does not finish the task. */
  ghost predicate LeavesLease(op: Op, id: Id, holder: Id, until: Time) {
    && (op.ClaimTask? ==> op.now < until)
    && ((op.CompleteTask? || op.FailTask?) && op.taskId == id ==> op.workerId != holder)
  }

  /** Until a lease expires nobody else can take, complete or fail the task, whatever they try. */
  lemma {:induction false} LeaseHeld(codec: Codec, s: State, ops: seq<Op>, id: Id, holder: Id, until: Time)
    requires id in s.tasks.rows && Holds(s.tasks.rows[id], holder) && s.tasks.rows[id].leaseExpiresAt == Some(until)
    requires forall op | op in ops :: LeavesLease(op, id, holder, until)
    ensures id in Run(codec, s, ops).tasks.rows && Run(codec, s, ops).tasks.rows[id] == s.tasks.rows[id]
    decreases |ops|
  {
    hide Step;
    if ops == [] {
    } else {
      StepTasks(codec, s, ops[0], id);
      assert LeavesLease(ops[0], id, holder, until);
      LeaseHeld(codec, Step(codec, s, ops[0]).0, ops[1..], id, holder, until);
    }
  }

  ghost predicate ClaimedBy(op: Op, outcome: Outcome, id: Id) {
    op.ClaimTask? && outcome.Ok? && outcome.reply.TaskReply? && outcome.reply.task.taskId == id
  }

  /** The task a claim returns is the one it leased. */
  lemma ClaimNames(codec: Codec, s: State, op: Op, id: Id)
    requires Sound(s) && ClaimedBy(op, Step(codec, s, op).1, id)
    ensures var (t, outcome) := Step(codec, s, op);
            id in s.tasks.rows && id in t.tasks.rows && Reclaims(s, t, op, outcome, id)
  {
    hide ClaimAnalysisTask, Step, Claimable, ValidLease, ScansSound, BothKinds, OnePerKind, Belongs;
    var (t, outcome) := Step(codec, s, op);
    ClaimIsStep(codec, s, op);
    ClaimTakes(s, t, op, outcome);
    var taken :| taken in s.tasks.rows && taken in t.tasks.rows && Reclaims(s, t, op, outcome, taken);
    assert TaskSound(taken, s.tasks.rows[taken]);
  }

  /** In particular a task claimed at `now` for `leaseSeconds` is not claimed again before `now + leaseSeconds`. */
  lemma ClaimedUntil(codec: Codec, s: State, kind: Kind, workerId: Id, leaseSeconds: int, now: Time, ops: seq<Op>,
          task: Task)
    requires Sound(s) && ClaimAnalysisTask(s, kind, workerId, leaseSeconds, now).1 == Ok(TaskReply(task))
    requires forall op | op in ops :: LeavesLease(op, task.taskId, workerId, now + leaseSeconds * SECOND)
    ensures var t := Run(codec, ClaimAnalysisTask(s, kind, workerId, leaseSeconds, now).0, ops);
            task.taskId in t.tasks.rows && t.tasks.rows[task.taskId] == task
  {
    hide Run, ClaimAnalysisTask, Step, LeavesLease, Sound, Claimable, ValidLease;
    var op := ClaimTask(kind, workerId, leaseSeconds, now);
    assert Step(codec, s, op)
           == ClaimAnalysisTask(s, kind, workerId, leaseSeconds, now) by { ClaimIsStep(codec, s, op); }
    ClaimNames(codec, s, op, task.taskId);
    LeaseHeld(codec, Step(codec, s, op).0, ops, task.taskId, workerId, now + leaseSeconds * SECOND);
  }

  lemma {:induction false} FirstIsFirst(rows: map<Id, Task>, candidates: seq<Id>, kind: Kind, now: Time)
    requires forall id | id in candidates :: id in rows
    ensures var found := FirstClaimable(rows, candidates, kind, now);
            found.Some? ==> exists i: nat :: && i < |candidates| && candidates[i] == found.value
                                             && forall k | 0 <= k < i :: !Claimable(rows[candidates[k]], kind, now)
  {
    hide Claimable;
    if candidates == [] || Claimable(rows[candidates[0]], kind, now) {
    } else {
      FirstIsFirst(rows, candidates[1..], kind, now);
      var found := FirstClaimable(rows, candidates, kind, now);
      if found.Some? {
        var i: nat :| i < |candidates[1..]| && candidates[1..][i] == found.value
                      && forall k | 0 <= k < i :: !Claimable(rows[candidates[1..][k]], kind, now);
        assert candidates[i + 1] == found.value;
        forall k | 0 <= k < i + 1 ensures !Claimable(rows[candidates[k]], kind, now) {
          if k > 0 { assert candidates[k] == candidates[1..][k - 1]; }
        }
      }
    }
  }

  lemma FirstIsEarliest(tasks: Table<Task>, kind: Kind, now: Time, other: Id)
    requires other in tasks.rows && Claimable(tasks.rows[other], kind, now)
    ensures var found := FirstClaimable(tasks.rows, TaskOrder(tasks), kind, now);
            && found.Some? && found.value in tasks.rows
            && (found.value == other || Earlier(tasks.order, TaskTimes(tasks), found.value, other))
  {
    hide Claimable, Earlier, SortBy, FirstClaimable;
    var order := TaskOrder(tasks);
    SortByIsSorted(tasks.order, TaskTimes(tasks));
    FirstIsFirst(tasks.rows, order, kind, now);
    assert other in order;
    var id := FirstClaimable(tasks.rows, order, kind, now).value;
    var i: nat :| i < |order| && order[i] == id && forall k | 0 <= k < i :: !Claimable(tasks.rows[order[k]], kind, now);
    var j: nat :| j < |order| && order[j] == other;
  }

  /** A claim takes the oldest task it may take, and finds one whenever there is one. */
  lemma ClaimsOldest(s: State, kind: Kind, workerId: Id, leaseSeconds: int, now: Time, other: Id)
    requires ValidLease(workerId, leaseSeconds) && other in s.tasks.rows && Claimable(s.tasks.rows[other], kind, now)
    ensures exists id :: && id in s.tasks.rows
                         && ClaimAnalysisTask(s, kind, workerId, leaseSeconds, now).1
                            == Ok(TaskReply(Leased(s.tasks.rows[id], workerId, leaseSeconds, now)))
                         && (id == other || Earlier(s.tasks.order, TaskTimes(s.tasks), id, other))
  {
    hide Claimable, ValidLease, Earlier, FirstClaimable, TaskOrder;
    FirstIsEarliest(s.tasks, kind, now, other);
  }

  // ---------------------------------------------------------------- the latest claimer

  /** Who claimed the task last in the run, if anyone did. */
  ghost function LastClaimer(codec: Codec, s: State, ops: seq<Op>, id: Id): Option<Id>
    decreases |ops|
  {
    if ops == [] then None
    else
      var (t, outcome) := Step(codec, s, ops[0]);
      var later := LastClaimer(codec, t, ops[1..], id);
      if later.Some? then later else if ClaimedBy(ops[0], outcome, id) then Some(ops[0].workerId) else None
  }

  /** A lease seen after a step was there before, or this step is the claim. */
  lemma LeaseComesFrom(codec: Codec, s: State, op: Op, id: Id)
    requires Sound(s) && WellFormed(op)
    requires var t := Step(codec, s, op).0; id in t.tasks.rows && t.tasks.rows[id].leasedBy.Some?
    ensures var (t, outcome) := Step(codec, s, op);
            if ClaimedBy(op, outcome, id) then t.tasks.rows[id].leasedBy == Some(op.workerId)
            else id in s.tasks.rows && s.tasks.rows[id].leasedBy == t.tasks.rows[id].leasedBy
  {
    hide Step, ScansSound, BothKinds, OnePerKind, Ingested, Belongs, WellFormed, TasksMove;
    var (t, outcome) := Step(codec, s, op);
    if id in s.tasks.rows {
      StepTasks(codec, s, op, id);
      assert TaskSound(id, s.tasks.rows[id]);
      if ClaimedBy(op, outcome, id) { ClaimNames(codec, s, op, id); }
    } else {
      StepMovesTasks(codec, s, op);
      IngestOp(s, t, op);
      AddedBelongs(s, t, op, id);
      assert false;
    }
  }

  /** A task is leased to whoever claimed it last. */
  lemma {:induction false} HolderClaimedLast(codec: Codec, s: State, ops: seq<Op>, id: Id)
    requires Sound(s) && AllWellFormed(ops)
    requires id in Run(codec, s, ops).tasks.rows && Run(codec, s, ops).tasks.rows[id].leasedBy.Some?
    ensures var holder, last := Run(codec, s, ops).tasks.rows[id].leasedBy, LastClaimer(codec, s, ops, id);
            last == holder || (last.None? && id in s.tasks.rows && s.tasks.rows[id].leasedBy == holder)
    decreases |ops|
  {
    hide Step, Sound;
    if ops == [] {
    } else {
      var (t, outcome) := Step(codec, s, ops[0]);
      StepKeepsSound(codec, s, ops[0]);
      HolderClaimedLast(codec, t, ops[1..], id);
      if LastClaimer(codec, t, ops[1..], id).None? {
        LeaseComesFrom(codec, s, ops[0], id);
      }
    }
  }

  /** Only the latest claimer can complete or fail a task: anyone else is refused, and changes nothing. */
  lemma OnlyLatestClaimer(codec: Codec, ops: seq<Op>, op: Op)
    requires AllWellFormed(ops) && (op.CompleteTask? || op.FailTask?)
    requires LastClaimer(codec, EMPTY_STATE, ops, op.taskId) != Some(op.workerId)
    ensures var s := Run(codec, EMPTY_STATE, ops); Step(codec, s, op).0 == s && Step(codec, s, op).1.Refused?
  {
    hide Run, LastClaimer, SanitizeError;
    var s := Run(codec, EMPTY_STATE, ops);
    if op.taskId in s.tasks.rows && s.tasks.rows[op.taskId].leasedBy.Some? {
      HolderClaimedLast(codec, EMPTY_STATE, ops, op.taskId);
    }
  }
}
