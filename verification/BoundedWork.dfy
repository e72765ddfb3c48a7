/** How often tasks are processed: `max_attempts` and the reclaimed leases bound every task and the whole queue. */
module BoundedWork {
  import opened Prelude
  import opened OrderedDict
  import opened Records
  import opened Inventory
  import opened ControlPlane
  import opened Callers
  import opened Transitions
  import opened Lifecycle
  import opened Leases

  /** A task that waits in the queue has an attempt left. */
  ghost predicate Bounded(t: Task, maxAttempts: nat) {
    t.attempts >= 0 && (t.state == Pending || t.state == Retry ==> t.attempts < maxAttempts)
  }

  ghost function AttemptsLeft(t: Task, maxAttempts: nat): nat
    requires t.attempts >= 0
  {
    if t.attempts < maxAttempts then maxAttempts - t.attempts else 0
  }

  /** What a task can still cost: a claim and a release for each attempt left, and the release of a running one. */
  ghost function Weight(t: Task, maxAttempts: nat): nat
    requires Bounded(t, maxAttempts)
  {
    match t.state
    case Pending => 2 * AttemptsLeft(t, maxAttempts)
    case Retry => 2 * AttemptsLeft(t, maxAttempts)
    case Running => 2 * AttemptsLeft(t, maxAttempts) + 1
    case _ => 0
  }

  ghost predicate AllBounded(rows: map<Id, Task>, maxAttempts: nat) {
    forall id | id in rows :: Bounded(rows[id], maxAttempts)
  }

  ghost function Measure(rows: map<Id, Task>, order: seq<Id>, maxAttempts: nat): nat
    requires AllBounded(rows, maxAttempts) && forall id | id in order :: id in rows
  {
    if order == [] then 0
    else Measure(rows, order[..|order| - 1], maxAttempts) + Weight(rows[order[|order| - 1]], maxAttempts)
  }

  /** The measure of the queue. */
  ghost function Queue(tasks: Table<Task>, maxAttempts: nat): nat
    requires AllBounded(tasks.rows, maxAttempts)
  {
    Measure(tasks.rows, tasks.order, maxAttempts)
  }

  lemma {:induction false} MeasureLocal(a: map<Id, Task>, b: map<Id, Task>, order: seq<Id>, maxAttempts: nat)
    requires AllBounded(a, maxAttempts) && AllBounded(b, maxAttempts)
    requires forall id | id in order :: id in a && id in b && a[id] == b[id]
    ensures Measure(a, order, maxAttempts) == Measure(b, order, maxAttempts)
  {
    hide Bounded;
    if order == [] {
    } else {
      MeasureLocal(a, b, order[..|order| - 1], maxAttempts);
    }
  }

  /** Changing one task changes the measure by the change of its weight. */
  lemma {:induction false} MeasurePut(rows: map<Id, Task>, order: seq<Id>, id: Id, task: Task, maxAttempts: nat)
    requires AllBounded(rows, maxAttempts) && Bounded(task, maxAttempts) && (forall x | x in order :: x in rows)
    requires id in order && Differ(order)
    ensures AllBounded(rows[id := task], maxAttempts)
    ensures Measure(rows[id := task], order, maxAttempts) + Weight(rows[id], maxAttempts)
            == Measure(rows, order, maxAttempts) + Weight(task, maxAttempts)
  {
    hide Bounded;
    var front, last := order[..|order| - 1], order[|order| - 1];
    if id == last {
      MeasureLocal(rows, rows[id := task], front, maxAttempts);
    } else {
      MeasurePut(rows, front, id, task, maxAttempts);
    }
  }

  // ---------------------------------------------------------------- one step

  /** A worker dead-letters the task it holds when the attempts are used up. */
  ghost predicate InTime(s: State, op: Op, maxAttempts: nat) {
    && op.FailTask? && op.taskId in s.tasks.rows && Holds(s.tasks.rows[op.taskId], op.workerId)
    && s.tasks.rows[op.taskId].attempts >= maxAttempts
    ==> op.deadLetter
  }

  /** 1 for a claim that takes the task from a worker whose lease has expired. */
  ghost function Reclaim(codec: Codec, s: State, op: Op, id: Id): nat {
    if && op.ClaimTask? && id in s.tasks.rows && s.tasks.rows[id].state == Running
       && Step(codec, s, op).0.tasks == s.tasks.Put(id, Leased(s.tasks.rows[id], op.workerId, op.leaseSeconds, op.now))
    then 1 else 0
  }

  ghost function AnyReclaim(codec: Codec, s: State, op: Op): nat {
    if exists id :: Reclaim(codec, s, op, id) == 1 then 1 else 0
  }

  /** The step claimed or released exactly this task. */
  ghost predicate Touches(s: State, t: State, id: Id) {
    && id in s.tasks.rows && id in t.tasks.rows && t.tasks == s.tasks.Put(id, t.tasks.rows[id])
    && t.tasks.rows[id] != s.tasks.rows[id]
  }

  /** From `a` to `b` the weight falls, or stays if the step reclaimed a lease. */
  ghost predicate Pays(a: Task, b: Task, reclaim: nat, maxAttempts: nat) {
    Bounded(a, maxAttempts) && Bounded(b, maxAttempts) && Weight(b, maxAttempts) + 1 <= Weight(a, maxAttempts) + reclaim
  }

  lemma ClaimCosts(a: Task, workerId: Id, leaseSeconds: int, now: Time, reclaim: nat, maxAttempts: nat)
    requires Bounded(a, maxAttempts) && (a.state == Pending || a.state == Retry || (a.state == Running && reclaim >= 1))
    ensures Pays(a, Leased(a, workerId, leaseSeconds, now), reclaim, maxAttempts)
  {
  }

  lemma ReleaseCosts(a: Task, b: Task, maxAttempts: nat)
    requires Bounded(a, maxAttempts)
             && (Completes(a, b) || (Fails(a, b) && (b.state == Failed || a.attempts < maxAttempts)))
    ensures Pays(a, b, 0, maxAttempts)
  {
  }

  lemma FailureIsDead(codec: Codec, s: State, op: Op)
    requires op.FailTask? && Perform(codec, s, op).0.tasks != s.tasks
    ensures op.taskId in Perform(codec, s, op).0.tasks.rows
    ensures Perform(codec, s, op).0.tasks.rows[op.taskId].state == if op.deadLetter then Failed else Retry
  {
    hide SanitizeError;
  }

  /** A task operation changes nothing, or makes one task strictly cheaper, or reclaims a lease. */
  lemma TaskOpCosts(codec: Codec, s: State, op: Op, maxAttempts: nat) returns (id: Id)
    requires IsTaskOp(op) && AllBounded(s.tasks.rows, maxAttempts) && InTime(s, op, maxAttempts)
    ensures var t := Step(codec, s, op).0;
            t.tasks == s.tasks || (Touches(s, t, id)
                && Pays(s.tasks.rows[id], t.tasks.rows[id], Reclaim(codec, s, op, id), maxAttempts))
  {
    hide Bounded, Pays, Step, ClaimAnalysisTask, Completes, Fails;
    var t := Step(codec, s, op).0;
    id := "";
    TaskOpIsStep(codec, s, op);
    if op.ClaimTask? {
      ClaimIsStep(codec, s, op);
      ClaimTasks(s, op.kind, op.workerId, op.leaseSeconds, op.now);
      if t.tasks != s.tasks {
        id :| id in s.tasks.rows && Claimable(s.tasks.rows[id], op.kind, op.now)
              && t.tasks == s.tasks.Put(id, Leased(s.tasks.rows[id], op.workerId, op.leaseSeconds, op.now));
        ClaimCosts(s.tasks.rows[id], op.workerId, op.leaseSeconds, op.now, Reclaim(codec, s, op, id), maxAttempts);
      }
    } else {
      ReleaseTasks(codec, s, op);
      if t.tasks != s.tasks {
        id := op.taskId;
        if op.FailTask? { FailureIsDead(codec, s, op); }
        ReleaseCosts(s.tasks.rows[id], t.tasks.rows[id], maxAttempts);
      }
    }
  }

  /** The units of work a step does: one for a claim or release that took effect. */
  ghost function WorkDone(codec: Codec, s: State, op: Op): nat {
    if IsTaskOp(op) && Step(codec, s, op).0.tasks != s.tasks then 1 else 0
  }

  /** The tasks a step adds, two for each accepted upload. */
  ghost function TasksGained(codec: Codec, s: State, op: Op): nat {
    if op.Ingest? && Step(codec, s, op).0.tasks != s.tasks then 2 else 0
  }

  lemma PutTwo(tasks: Table<Task>, added: seq<Task>)
    requires |added| == 2
    ensures PutTasks(tasks, added) == tasks.Put(added[0].taskId, added[0]).Put(added[1].taskId, added[1])
  {
    var one := tasks.Put(added[0].taskId, added[0]);
    assert PutTasks(one, added[1..]) == PutTasks(one.Put(added[1].taskId, added[1]), added[1..][1..]);
  }

  /** A new task costs two units for each attempt. */
  lemma NewTaskMeasure(tasks: Table<Task>, task: Task, kind: Kind, maxAttempts: nat)
    requires AllBounded(tasks.rows, maxAttempts) && task.taskId !in tasks.rows && NewTask(task, kind)
             && maxAttempts >= 1
    ensures AllBounded(tasks.Put(task.taskId, task).rows, maxAttempts)
    ensures Queue(tasks.Put(task.taskId, task), maxAttempts) == Queue(tasks, maxAttempts) + 2 * maxAttempts
  {
    var after: Table<Task> := tasks.Put(task.taskId, task);
    MeasureLocal(tasks.rows, after.rows, tasks.order, maxAttempts);
    assert after.order[..|after.order| - 1] == tasks.order;
  }

  lemma IngestedTasksMeasure(s: State, t: State, op: Op, maxAttempts: nat)
    requires Ingested(s, t, op) && WellFormed(op) && AllBounded(s.tasks.rows, maxAttempts) && maxAttempts >= 1
    ensures AllBounded(t.tasks.rows, maxAttempts)
    ensures Queue(t.tasks, maxAttempts) == Queue(s.tasks, maxAttempts) + 4 * maxAttempts
  {
    hide PutTasks, ReceivesEvidence, OwnedScan, AllBounded, Queue;
    var a, b := op.tasks[0], op.tasks[1];
    assert a in op.tasks && b in op.tasks;
    PutTwo(s.tasks, op.tasks);
    NewTaskMeasure(s.tasks, a, Osv, maxAttempts);
    NewTaskMeasure(s.tasks.Put(a.taskId, a), b, DepScan, maxAttempts);
  }

  /** Of the other operations only an upload changes the queue, and it adds two tasks. */
  lemma UploadCosts(codec: Codec, s: State, op: Op, maxAttempts: nat)
    requires !IsTaskOp(op) && WellFormed(op) && AllBounded(s.tasks.rows, maxAttempts) && maxAttempts >= 1
    requires Step(codec, s, op).0.tasks != s.tasks
    ensures var t := Step(codec, s, op).0;
            && op.Ingest? && AllBounded(t.tasks.rows, maxAttempts)
            && Queue(t.tasks, maxAttempts) == Queue(s.tasks, maxAttempts) + 2 * maxAttempts * 2
  {
    hide Step, Perform, AllBounded, Queue, Ingested, WellFormed;
    StepPerforms(codec, s, op);
    if op.Ingest? {
      IngestPerforms(codec, s, op);
      IngestTasks(codec, s, op);
      IngestedTasksMeasure(s, Perform(codec, s, op).0, op, maxAttempts);
    } else {
      OtherTasks(codec, s, op);
    }
  }

  lemma OtherOpCosts(codec: Codec, s: State, op: Op, maxAttempts: nat)
    requires !IsTaskOp(op) && WellFormed(op) && AllBounded(s.tasks.rows, maxAttempts) && maxAttempts >= 1
    ensures var t := Step(codec, s, op).0;
            && AllBounded(t.tasks.rows, maxAttempts)
            && Queue(t.tasks, maxAttempts) == Queue(s.tasks, maxAttempts) + 2 * maxAttempts * TasksGained(codec, s, op)
  {
    hide Step, Perform, AllBounded, Queue, WellFormed;
    if Step(codec, s, op).0.tasks != s.tasks {
      UploadCosts(codec, s, op, maxAttempts);
    }
  }

  lemma TouchCosts(s: State, t: State, id: Id, reclaim: nat, maxAttempts: nat)
    requires AllBounded(s.tasks.rows, maxAttempts) && Touches(s, t, id)
    requires Pays(s.tasks.rows[id], t.tasks.rows[id], reclaim, maxAttempts)
    ensures AllBounded(t.tasks.rows, maxAttempts)
            && Queue(t.tasks, maxAttempts) + 1 <= Queue(s.tasks, maxAttempts) + reclaim
  {
    hide Bounded;
    MeasurePut(s.tasks.rows, s.tasks.order, id, t.tasks.rows[id], maxAttempts);
  }

  lemma ReclaimIsOne(codec: Codec, s: State, op: Op, id: Id)
    ensures Reclaim(codec, s, op, id) <= 1
  {
    hide Step;
  }

  /** Every step pays for its work out of the measure, except for a reclaimed lease. */
  lemma StepCosts(codec: Codec, s: State, op: Op, maxAttempts: nat)
    requires WellFormed(op) && InTime(s, op, maxAttempts) && AllBounded(s.tasks.rows, maxAttempts) && maxAttempts >= 1
    ensures var t := Step(codec, s, op).0;
            && AllBounded(t.tasks.rows, maxAttempts)
            && WorkDone(codec, s, op) + Queue(t.tasks, maxAttempts)
               <= Queue(s.tasks, maxAttempts) + 2 * maxAttempts * TasksGained(codec, s, op) + AnyReclaim(codec, s, op)
  {
    hide Step, AllBounded, InTime, Queue, Touches, Reclaim;
    if IsTaskOp(op) {
      var id := TaskOpCosts(codec, s, op, maxAttempts);
      var t := Step(codec, s, op).0;
      if t.tasks != s.tasks {
        TouchCosts(s, t, id, Reclaim(codec, s, op, id), maxAttempts);
        ReclaimIsOne(codec, s, op, id);
      }
    } else {
      OtherOpCosts(codec, s, op, maxAttempts);
    }
  }

  // ---------------------------------------------------------------- runs

  ghost predicate InTimeRun(codec: Codec, s: State, ops: seq<Op>, maxAttempts: nat)
    decreases |ops|
  {
    ops != [] ==> InTime(s, ops[0], maxAttempts) && InTimeRun(codec, Step(codec, s, ops[0]).0, ops[1..], maxAttempts)
  }

  ghost function TotalWork(codec: Codec, s: State, ops: seq<Op>): nat
    decreases |ops|
  {
    if ops == [] then 0 else WorkDone(codec, s, ops[0]) + TotalWork(codec, Step(codec, s, ops[0]).0, ops[1..])
  }

  ghost function TotalGained(codec: Codec, s: State, ops: seq<Op>): nat
    decreases |ops|
  {
    if ops == [] then 0 else TasksGained(codec, s, ops[0]) + TotalGained(codec, Step(codec, s, ops[0]).0, ops[1..])
  }

  ghost function TotalReclaims(codec: Codec, s: State, ops: seq<Op>): nat
    decreases |ops|
  {
    if ops == [] then 0 else AnyReclaim(codec, s, ops[0]) + TotalReclaims(codec, Step(codec, s, ops[0]).0, ops[1..])
  }

  ghost function ReclaimsOf(codec: Codec, s: State, ops: seq<Op>, id: Id): nat
    decreases |ops|
  {
    if ops == [] then 0 else Reclaim(codec, s, ops[0], id) + ReclaimsOf(codec, Step(codec, s, ops[0]).0, ops[1..], id)
  }

  lemma Distribute(k: nat, a: nat, b: nat)
    ensures k * (a + b) == k * a + k * b
  {
  }

  /**
   * Over any run, all claims and releases together are bounded by what was in the queue, twice `max_attempts` for every
   * task added, and one for every lease reclaimed from a worker that let it expire.
   */
  lemma {:induction false} WorkIsBounded(codec: Codec, s: State, ops: seq<Op>, maxAttempts: nat)
    requires AllWellFormed(ops) && InTimeRun(codec, s, ops, maxAttempts) && AllBounded(s.tasks.rows, maxAttempts)
    requires maxAttempts >= 1
    ensures var t := Run(codec, s, ops);
            && AllBounded(t.tasks.rows, maxAttempts)
            && TotalWork(codec, s, ops) + Queue(t.tasks, maxAttempts)
               <= Queue(s.tasks, maxAttempts) + 2 * maxAttempts * TotalGained(codec, s, ops)
                   + TotalReclaims(codec, s, ops)
    decreases |ops|
  {
    hide Step, Bounded, InTime, AnyReclaim, TasksGained, WorkDone;
    if ops == [] {
    } else {
      var t := Step(codec, s, ops[0]).0;
      StepCosts(codec, s, ops[0], maxAttempts);
      WorkIsBounded(codec, t, ops[1..], maxAttempts);
      Distribute(2 * maxAttempts, TasksGained(codec, s, ops[0]), TotalGained(codec, t, ops[1..]));
    }
  }

  // ---------------------------------------------------------------- the attempts of one task

  /** A claim that changes a task changes no other. */
  lemma ClaimedOnly(codec: Codec, s: State, op: Op, id: Id)
    requires id in s.tasks.rows && id in Step(codec, s, op).0.tasks.rows
             && Step(codec, s, op).0.tasks.rows[id] != s.tasks.rows[id]
    requires Reclaims(s, Step(codec, s, op).0, op, Step(codec, s, op).1, id)
    ensures Step(codec, s, op).0.tasks
            == s.tasks.Put(id, Leased(s.tasks.rows[id], op.workerId, op.leaseSeconds, op.now))
  {
    hide Step, ClaimAnalysisTask, Claimable, ValidLease;
    ClaimIsStep(codec, s, op);
    ClaimTasks(s, op.kind, op.workerId, op.leaseSeconds, op.now);
  }

  /** One step takes a known task's attempts past `max_attempts` only by reclaiming its lease. */
  lemma AttemptStep(codec: Codec, s: State, op: Op, id: Id, maxAttempts: nat, reclaims: nat)
    requires id in s.tasks.rows && Bounded(s.tasks.rows[id], maxAttempts)
             && s.tasks.rows[id].attempts <= maxAttempts + reclaims
    ensures var t := Step(codec, s, op).0;
            id in t.tasks.rows && t.tasks.rows[id].attempts <= maxAttempts + reclaims + Reclaim(codec, s, op, id)
  {
    hide Step, ValidLease;
    StepTasks(codec, s, op, id);
    var (t, outcome) := Step(codec, s, op);
    if t.tasks.rows[id] != s.tasks.rows[id] && Reclaims(s, t, op, outcome, id) { ClaimedOnly(codec, s, op, id); }
  }

  /** A task that appears is new. */
  lemma NewAttempts(codec: Codec, s: State, op: Op, id: Id)
    requires WellFormed(op) && id !in s.tasks.rows && id in Step(codec, s, op).0.tasks.rows
    ensures Step(codec, s, op).0.tasks.rows[id].attempts == 0
  {
    hide Step, TasksMove, Ingested, Belongs;
    StepMovesTasks(codec, s, op);
    var t := Step(codec, s, op).0;
    IngestOp(s, t, op);
    AddedBelongs(s, t, op, id);
  }

  /**
   * Over any run, a task's attempts never exceed `max_attempts` by more than the number of times its lease was
   * reclaimed; without a reclaim they never exceed it.
   */
  lemma {:induction false} AttemptsWithinReclaims(codec: Codec, s: State, ops: seq<Op>, id: Id, maxAttempts: nat,
          reclaims: nat)
    requires AllWellFormed(ops) && InTimeRun(codec, s, ops, maxAttempts) && AllBounded(s.tasks.rows, maxAttempts)
    requires maxAttempts >= 1 && (id in s.tasks.rows ==> s.tasks.rows[id].attempts <= maxAttempts + reclaims)
    ensures var t := Run(codec, s, ops);
            id in t.tasks.rows ==> t.tasks.rows[id].attempts <= maxAttempts + reclaims + ReclaimsOf(codec, s, ops, id)
    decreases |ops|
  {
    hide Step, Bounded, InTime, Reclaim;
    if ops == [] {
    } else {
      var t := Step(codec, s, ops[0]).0;
      StepCosts(codec, s, ops[0], maxAttempts);
      if id in s.tasks.rows {
        AttemptStep(codec, s, ops[0], id, maxAttempts, reclaims);
      } else if id in t.tasks.rows {
        NewAttempts(codec, s, ops[0], id);
      }
      AttemptsWithinReclaims(codec, t, ops[1..], id, maxAttempts, reclaims + Reclaim(codec, s, ops[0], id));
    }
  }
}
