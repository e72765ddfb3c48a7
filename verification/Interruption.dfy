/** A worker's round that ends in an error: another worker claims its task once the lease is over. */
module Interruption {
  import opened Prelude
  import opened OrderedDict
  import opened Records
  import opened Inventory
  import opened ControlPlane
  import opened Callers
  import opened Leases
  import opened Worker
  import opened WorkerRounds
  import opened Witnesses

  const SETTINGS := Settings("one", [Osv, DepScan], 600, 3, 1.0, 60.0, 0.0)
  const TAKEOVER := ClaimTask(Osv, "two", 600, 600 * SECOND)

  /**
   * Nothing happens before the claim and the reading of the input; the other worker's claim comes before the third
   * call.
   */
  function Others(k: nat): seq<Op> {
    if k == 2 then [TAKEOVER] else []
  }

  function Clock(k: nat): Time {
    if k < 2 then 0 else 600 * SECOND
  }

  const SLOW := Schedule(Clock, Others, 600 * SECOND)

  lemma TheOtherIsAStranger()
    ensures Strangers(SETTINGS, SLOW) && ValidSettings(SETTINGS)
  {
    assert "one" != "two" by { assert "one"[0] != "two"[0]; }
  }

  lemma QuietWait(codec: Codec, p: Progress)
    requires p.calls != 2
    ensures Wait(codec, SLOW, p).state == p.state && Wait(codec, SLOW, p).calls == p.calls + 1
  {
  }

  lemma TakeoverWait(codec: Codec, p: Progress)
    requires p.calls == 2
    ensures Wait(codec, SLOW, p).state == Step(codec, p.state, TAKEOVER).0 && Wait(codec, SLOW, p).calls == 3
  {
    hide Step;
    RunOne(codec, p.state, TAKEOVER);
  }

  lemma Refuses(codec: Codec, s: State, op: Op)
    requires (op.CompleteTask? || op.FailTask?) && op.taskId in s.tasks.rows
    requires !Holds(s.tasks.rows[op.taskId], op.workerId)
    ensures Step(codec, s, op) == (s, Refused(StateConflict))
  {
  }

  /** Failing a task that another worker holds. */
  lemma FailureRefused(codec: Codec, engine: Engine, p: Progress, task: Task, permanent: bool, message: string,
          draw: real)
    requires var s := Wait(codec, SLOW, p).state;
             task.taskId in s.tasks.rows && !Holds(s.tasks.rows[task.taskId], "one")
    ensures FailStep(codec, engine, SETTINGS, SLOW, p, task, permanent, message, draw).1 == WorkerError(StateConflict)
  {
    hide Step, Wait, Holds, Backoff, Microseconds, FinalizeReady;
    Refuses(codec, Wait(codec, SLOW, p).state,
            FailureOf(SETTINGS, SLOW, task, permanent, message, draw, SLOW.clock(p.calls)));
  }

  lemma ProcessingFails(codec: Codec, engine: Engine, p: Progress, task: Task, draw: real)
    requires p.calls == 1 && task.taskId in Step(codec, p.state, TAKEOVER).0.tasks.rows
    requires !Holds(Step(codec, p.state, TAKEOVER).0.tasks.rows[task.taskId], "one")
    ensures Process(codec, engine, SETTINGS, SLOW, p, task, draw).1 == WorkerError(StateConflict)
  {
    hide Step, Wait, Holds, FailStep, Conclude, Analyze;
    QuietWait(codec, p);
    var q := Wait(codec, SLOW, p);
    TakeoverWait(codec, q);
    match Analyze(engine, AnalysisInput(q.state, task.scanId), task)
    case Raised(permanent, message) => FailureRefused(codec, engine, q, task, permanent, message, draw);
    case Produced(_, result) =>
      var r, op := Wait(codec, SLOW, q), CompleteTask(task.taskId, "one", result, SLOW.clock(q.calls));
      Refuses(codec, r.state, op);
      DoIsStep(codec, r, op);
      QuietWait(codec, Do(codec, r, op));
      FailureRefused(codec, engine, Do(codec, r, op), task, false, LOST_LEASE, draw);
  }

  lemma ClaimReplies(codec: Codec, s: State)
    requires InQueue(s, 0)
    ensures var task := Leased(s.tasks.rows["osv"], "one", 600, 0);
            && Step(codec, s, ClaimTask(Osv, "one", 600, 0)).1 == Ok(TaskReply(task))
            && Waits(Step(codec, s, ClaimTask(Osv, "one", 600, 0)).0, task)
  {
    hide FirstClaimable, TaskOrder;
    Claims(codec, s, s.tasks.rows["osv"], "one", 0);
    OnlyOneOfKind(s, s.tasks.rows["osv"], 0);
  }

  lemma TakenOver(codec: Codec, s: State, task: Task)
    requires Waits(s, Leased(task, "one", 600, 0)) && task.kind == Osv && task.availableAt == 0
    ensures var t := Step(codec, s, TAKEOVER).0; "osv" in t.tasks.rows && !Holds(t.tasks.rows["osv"], "one")
  {
    hide Step;
    Claims(codec, s, Leased(task, "one", 600, 0), "two", 600 * SECOND);
    assert "one" != "two" by { assert "one"[0] != "two"[0]; }
  }

  lemma InQueueHasTask(s: State)
    requires InQueue(s, 0)
    ensures "osv" in s.tasks.rows && s.tasks.rows["osv"].kind == Osv && s.tasks.rows["osv"].availableAt == 0
    ensures s.tasks.rows["osv"].taskId == "osv"
  {
  }

  /** The round claims the task at its first call. */
  lemma FirstCallClaims(codec: Codec, s: State)
    requires InQueue(s, 0)
    ensures var task := Leased(s.tasks.rows["osv"], "one", 600, 0);
            var (p, claimed) := ClaimRound(codec, SETTINGS, SLOW, Progress(s, [], 0), 0, 0);
            && claimed == Some((task, 1)) && p.calls == 1 && Waits(p.state, task)
  {
    hide Step, Wait, InQueue, Waits;
    var o := Progress(s, [], 0);
    QuietWait(codec, o);
    InQueueHasTask(s);
    ClaimReplies(codec, s);
    DoIsStep(codec, Wait(codec, SLOW, o), ClaimTask(Osv, "one", 600, 0));
  }

  /**
   * Whatever its analyzers do: in a state reached from the empty one, a worker claims a task, its analysis outlasts the
   * lease, another worker claims the task, and the round ends in an error.
   */
  lemma RoundEndsInError(codec: Codec, engine: Engine, draw: real)
    requires codec.withinLimits(map[]) && codec.size(map[]) <= MAX_BYTES
    ensures var s := Run(codec, EMPTY_STATE, Begins(codec));
            && AllWellFormed(Begins(codec)) && ValidSettings(SETTINGS) && Strangers(SETTINGS, SLOW)
            && RunRound(codec, engine, SETTINGS, SLOW, s, 0, draw).outcome == WorkerError(StateConflict)
  {
    hide Run, Begins, InQueue, Waits, ClaimRound, Process, Step, Holds, ValidSettings, Strangers;
    BeginsQueued(codec);
    TheOtherIsAStranger();
    var s := Run(codec, EMPTY_STATE, Begins(codec));
    InQueueHasTask(s);
    FirstCallClaims(codec, s);
    var (p, claimed) := ClaimRound(codec, SETTINGS, SLOW, Progress(s, [], 0), 0, 0);
    TakenOver(codec, p.state, s.tasks.rows["osv"]);
    ProcessingFails(codec, engine, p, claimed.value.0, draw);
  }
}
