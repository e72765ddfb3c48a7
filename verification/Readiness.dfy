/** Once every analyzer task of a scan has finished, the results the report is built from are fixed. */
module Readiness {
  import opened Prelude
  import opened OrderedDict
  import opened Records
  import opened Inventory
  import opened ControlPlane
  import opened Callers
  import opened Transitions
  import opened Lifecycle

  // ---------------------------------------------------------------- the folds, without their order

  /** With one task per kind, the state listed for a kind is that of its one task. */
  lemma {:induction false} StatesExact(rows: map<Id, Task>, order: seq<Id>, scanId: Id)
    requires OnePerKind(rows) && Differ(order) && forall id | id in order :: id in rows
    ensures forall id | id in order && rows[id].scanId == scanId ::
              rows[id].kind in TaskStates(rows, order, scanId)
                  && TaskStates(rows, order, scanId)[rows[id].kind] == rows[id].state
    ensures forall kind | kind in TaskStates(rows, order, scanId) ::
              exists id :: id in order && rows[id].scanId == scanId && rows[id].kind == kind
  {
    if order == [] {
    } else {
      var front, last := order[..|order| - 1], order[|order| - 1];
      assert order == front + [last];
      StatesExact(rows, front, scanId);
      forall id | id in order && rows[id].scanId == scanId
        ensures rows[id].kind in TaskStates(rows, order, scanId)
                && TaskStates(rows, order, scanId)[rows[id].kind] == rows[id].state
      {
        if id != last && rows[last].scanId == scanId { assert rows[last].kind != rows[id].kind; }
      }
    }
  }

  /** And the result listed for a kind is what its one task contributes. */
  lemma {:induction false} ResultsExact(rows: map<Id, Task>, order: seq<Id>, scanId: Id)
    requires OnePerKind(rows) && Differ(order) && forall id | id in order :: id in rows
    ensures forall id | id in order && rows[id].scanId == scanId && Contribution(rows[id]).Some? ::
              rows[id].kind in Results(rows, order, scanId)
                  && Results(rows, order, scanId)[rows[id].kind] == Contribution(rows[id]).value
    ensures forall kind | kind in Results(rows, order, scanId) ::
              exists id :: id in order && rows[id].scanId == scanId && rows[id].kind == kind
                  && Contribution(rows[id]).Some?
  {
    hide Contribution;
    if order == [] {
    } else {
      var front, last := order[..|order| - 1], order[|order| - 1];
      assert order == front + [last];
      ResultsExact(rows, front, scanId);
      forall id | id in order && rows[id].scanId == scanId && Contribution(rows[id]).Some?
        ensures rows[id].kind in Results(rows, order, scanId)
                && Results(rows, order, scanId)[rows[id].kind] == Contribution(rows[id]).value
      {
        if id != last && rows[last].scanId == scanId { assert rows[last].kind != rows[id].kind; }
      }
    }
  }

  ghost predicate AllFinished(tasks: map<Id, Task>, scanId: Id) {
    forall id | id in tasks && tasks[id].scanId == scanId :: Terminal(tasks[id])
  }

  /** The guard of `finalize_scan_report` holds exactly when every task of the uploaded scan has finished. */
  lemma ReadyExactly(s: State, scanId: Id)
    requires Sound(s) && scanId in s.scans.rows && s.scans.rows[scanId].upload.Some?
    ensures AllTerminal(StatesOf(s, scanId)) <==> AllFinished(s.tasks.rows, scanId)
  {
    hide ScansSound, TasksSound;
    var states := StatesOf(s, scanId);
    StatesExact(s.tasks.rows, s.tasks.order, scanId);
    assert HasTask(s.tasks.rows, scanId, Osv) && HasTask(s.tasks.rows, scanId, DepScan);
    assert Osv in states && DepScan in states;
    assert states.Keys == {Osv, DepScan};
  }

  lemma FinishedContributes(id: Id, task: Task)
    requires TaskSound(id, task) && Terminal(task)
    ensures Contribution(task).Some?
  {
  }

  lemma KindHasResult(s: State, scanId: Id, kind: Kind)
    requires OnePerKind(s.tasks.rows) && TasksSound(s.scans.rows, s.tasks.rows)
    requires AllFinished(s.tasks.rows, scanId) && HasTask(s.tasks.rows, scanId, kind)
    ensures kind in ScanAnalysisResults(s, scanId)
  {
    hide OnePerKind, Contribution, TaskSound, Belongs, Results, Terminal;
    ResultsExact(s.tasks.rows, s.tasks.order, scanId);
    var id :| id in s.tasks.rows && s.tasks.rows[id].scanId == scanId && s.tasks.rows[id].kind == kind;
    FinishedContributes(id, s.tasks.rows[id]);
  }

  lemma BothOf(s: State, scanId: Id)
    requires BothKinds(s.scans.rows, s.tasks.rows) && scanId in s.scans.rows && s.scans.rows[scanId].upload.Some?
    ensures forall kind: Kind :: HasTask(s.tasks.rows, scanId, kind)
  {
    hide HasTask;
    forall kind: Kind ensures HasTask(s.tasks.rows, scanId, kind) { match kind case Osv => case DepScan => }
  }

  /** A scan whose tasks have all finished has a result of each kind. */
  lemma FinishedHasResults(s: State, scanId: Id)
    requires Sound(s) && scanId in s.scans.rows && s.scans.rows[scanId].upload.Some?
             && AllFinished(s.tasks.rows, scanId)
    ensures ScanAnalysisResults(s, scanId).Keys == {Osv, DepScan}
  {
    hide ScansSound, BothKinds, OnePerKind, Contribution, TaskSound, Belongs, Results, HasTask, Terminal;
    BothOf(s, scanId);
    ResultsExact(s.tasks.rows, s.tasks.order, scanId);
    KindHasResult(s, scanId, Osv);
    KindHasResult(s, scanId, DepScan);
  }

  // ---------------------------------------------------------------- stability

  /** The tasks of the scan are the same in both tables; the second may hold more tasks of others. */
  ghost predicate SameTasksOf(a: Table<Task>, b: Table<Task>, scanId: Id) {
    && a.order <= b.order
    && (forall id | id in a.rows && a.rows[id].scanId == scanId :: id in b.rows && b.rows[id] == a.rows[id])
    && (forall id | id in b.rows && b.rows[id].scanId == scanId :: id in a.rows && a.rows[id].scanId == scanId)
  }

  /** The `n`th entry of the longer table: the same task in both, or not one of the scan's. */
  lemma SameEntry(a: Table<Task>, b: Table<Task>, n: nat, scanId: Id)
    requires SameTasksOf(a, b, scanId) && n < |b.order|
    ensures b.order[n] in b.rows
    ensures n < |a.order| ==>
              && a.order[n] == b.order[n] && a.order[n] in a.rows
              && (a.rows[a.order[n]].scanId == scanId <==> b.rows[b.order[n]].scanId == scanId)
    ensures n < |a.order| && a.rows[a.order[n]].scanId == scanId ==> b.rows[b.order[n]] == a.rows[a.order[n]]
    ensures n >= |a.order| ==> b.rows[b.order[n]].scanId != scanId
  {
    var last := b.order[n];
    assert last in b.order;
    if n < |a.order| {
      assert a.order[n] in a.order;
    } else {
      assert forall k | 0 <= k < |a.order| :: a.order[k] == b.order[k] && b.order[k] != last;
      assert last !in a.order;
    }
  }

  lemma FoldStep(rows: map<Id, Task>, order: seq<Id>, n: nat, scanId: Id)
    requires 0 < n <= |order| && forall id | id in order :: id in rows
    ensures var task := rows[order[n - 1]];
            && TaskStates(rows, order[..n], scanId)
               == (if task.scanId == scanId then TaskStates(rows, order[..n - 1], scanId)[task.kind := task.state]
                   else TaskStates(rows, order[..n - 1], scanId))
            && Results(rows, order[..n], scanId)
               == (if task.scanId == scanId && Contribution(task).Some?
                   then Results(rows, order[..n - 1], scanId)[task.kind := Contribution(task).value]
                   else Results(rows, order[..n - 1], scanId))
  {
    assert order[..n][..n - 1] == order[..n - 1];
  }

  lemma {:induction false} SameFolds(a: Table<Task>, b: Table<Task>, n: nat, scanId: Id)
    requires SameTasksOf(a, b, scanId) && n <= |b.order|
    ensures var m := if n <= |a.order| then n else |a.order|;
            && TaskStates(b.rows, b.order[..n], scanId) == TaskStates(a.rows, a.order[..m], scanId)
            && Results(b.rows, b.order[..n], scanId) == Results(a.rows, a.order[..m], scanId)
  {
    hide Contribution, SameTasksOf;
    if n == 0 {
    } else {
      hide TaskStates, Results;
      SameFolds(a, b, n - 1, scanId);
      SameEntry(a, b, n - 1, scanId);
      FoldStep(b.rows, b.order, n, scanId);
      if n <= |a.order| {
        FoldStep(a.rows, a.order, n, scanId);
      }
    }
  }

  lemma SameTasksSameResults(a: Table<Task>, b: Table<Task>, scanId: Id)
    requires SameTasksOf(a, b, scanId)
    ensures TaskStates(b.rows, b.order, scanId) == TaskStates(a.rows, a.order, scanId)
    ensures Results(b.rows, b.order, scanId) == Results(a.rows, a.order, scanId)
  {
    SameFolds(a, b, |b.order|, scanId);
    assert b.order[..|b.order|] == b.order && a.order[..|a.order|] == a.order;
  }

  lemma FinishedStay(codec: Codec, s: State, op: Op, scanId: Id)
    requires Sound(s) && WellFormed(op)
    requires scanId in s.scans.rows && s.scans.rows[scanId].upload.Some? && AllFinished(s.tasks.rows, scanId)
    ensures SameTasksOf(s.tasks, Step(codec, s, op).0.tasks, scanId)
  {
    hide Step, TaskMoves, Ingested, ScansSound, OnePerKind, BothKinds, Belongs, TaskSound, Terminal;
    StepMovesTasks(codec, s, op);
    var t := Step(codec, s, op).0;
    forall id | id in s.tasks.rows && s.tasks.rows[id].scanId == scanId
        ensures id in t.tasks.rows && t.tasks.rows[id] == s.tasks.rows[id] {
      TerminalStays(s.tasks.rows[id], t.tasks.rows[id]);
    }
    forall id | id in t.tasks.rows && t.tasks.rows[id].scanId == scanId
        ensures id in s.tasks.rows && s.tasks.rows[id].scanId == scanId {
      if id in s.tasks.rows {
        MovesKeepTask(id, s.tasks.rows[id], t.tasks.rows[id]);
      } else {
        IngestOp(s, t, op);
        AddedBelongs(s, t, op, id);
      }
    }
  }

  lemma SameTasksFinished(a: Table<Task>, b: Table<Task>, scanId: Id)
    requires SameTasksOf(a, b, scanId) && AllFinished(a.rows, scanId)
    ensures AllFinished(b.rows, scanId)
  {
  }

  /** Readiness is stable: whatever others do next, the results stay complete and the same. */
  lemma {:induction false} ResultsFixed(codec: Codec, s: State, ops: seq<Op>, scanId: Id)
    requires Sound(s) && AllWellFormed(ops)
    requires scanId in s.scans.rows && s.scans.rows[scanId].upload.Some? && AllFinished(s.tasks.rows, scanId)
    ensures var t := Run(codec, s, ops);
            && AllFinished(t.tasks.rows, scanId)
            && ScanAnalysisResults(t, scanId) == ScanAnalysisResults(s, scanId)
            && StatesOf(t, scanId) == StatesOf(s, scanId)
    decreases |ops|
  {
    hide Step, Sound, SameTasksOf, AllFinished;
    if ops == [] {
    } else {
      var t := Step(codec, s, ops[0]).0;
      FinishedStay(codec, s, ops[0], scanId);
      SameTasksFinished(s.tasks, t.tasks, scanId);
      SameTasksSameResults(s.tasks, t.tasks, scanId);
      StepKeepsSound(codec, s, ops[0]);
      WriteOnce(codec, s, [ops[0]], scanId);
      assert Run(codec, s, [ops[0]]) == t by { assert [ops[0]][1..] == []; }
      ResultsFixed(codec, t, ops[1..], scanId);
    }
  }

  /** The scan a worker is told to finalize has evidence, and all its tasks have finished. */
  lemma NextReadyIsFinished(s: State)
    requires Sound(s) && NextReady(s).Some?
    ensures var id := NextReady(s).value;
            id in s.scans.rows && s.scans.rows[id].upload.Some? && AllFinished(s.tasks.rows, id)
  {
    hide TasksSound, OnePerKind, BothKinds, StatesOf, AllTerminal;
    var id := NextReady(s).value;
    assert ScanSound(id, s.scans.rows[id]);
    ReadyExactly(s, id);
  }

  /**
   * A worker told that a scan is ready can always finish the job: at any later moment it reads a result of each kind,
   * the same ones, and its report is accepted unless another report already is.
   */
  lemma ReadyCanFinalize(codec: Codec, s: State, ops: seq<Op>, report: Report, now: Time)
    requires Sound(s) && AllWellFormed(ops) && NextReady(s).Some?
    ensures var (id, t) := (NextReady(s).value, Run(codec, s, ops));
            && id in t.scans.rows
            && ScanAnalysisResults(t, id).Keys == {Osv, DepScan}
            && ScanAnalysisResults(t, id) == ScanAnalysisResults(s, id)
            && (t.scans.rows[id].finalReport.Some?
               || FinalizeScanReport(t, id, report, now).0.scans.rows[id].finalReport == Some(report))
  {
    hide Run, NextReady, Sound, ScanAnalysisResults, StatesOf, AllFinished, AllTerminal, Keeps;
    var id, t := NextReady(s).value, Run(codec, s, ops);
    NextReadyIsFinished(s);
    ResultsFixed(codec, s, ops, id);
    FinishedHasResults(s, id);
    WriteOnce(codec, s, ops, id);
    ReadyExactly(s, id);
  }
}
