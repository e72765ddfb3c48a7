/** Over any run of uploads, stale, repeated or reordered, the stored inventory is what its hash says. */
module Convergence {
  import opened Prelude
  import opened OrderedDict
  import opened Records
  import opened Inventory
  import opened ControlPlane
  import opened Transitions
  import Lifecycle

  /** Every stored inventory is normalized, within the limits and matches its hash. */
  ghost predicate AllFaithful(codec: Codec, inventory: map<(Id, Id), InventoryState>) {
    forall key | key in inventory :: Faithful(codec, inventory[key].snapshot, inventory[key].snapshotHash)
  }

  ghost predicate RebuiltFaithfully(codec: Codec, sync: InventorySync) {
    sync.reconstructed.Some? && sync.snapshotHash.Present?
        && Faithful(codec, sync.reconstructed.value, sync.snapshotHash.value)
  }

  /** Accepted evidence carries the inventory the server rebuilt, whose hash is the one the endpoint claimed. */
  ghost predicate EvidenceFaithful(codec: Codec, scans: map<Id, Scan>) {
    forall id | id in scans && scans[id].upload.Some? && scans[id].upload.value.sync.Some? ::
        RebuiltFaithfully(codec, scans[id].upload.value.sync.value)
  }

  /** A stored inventory comes from an uploaded scan of its endpoint, whose evidence holds the same snapshot. */
  ghost predicate HasSource(scans: map<Id, Scan>, key: (Id, Id), state: InventoryState) {
    && state.tenantId == key.0 && state.endpointId == key.1
    && state.sourceScanId in scans && scans[state.sourceScanId].tenantId == key.0
       && scans[state.sourceScanId].endpointId == key.1
    && scans[state.sourceScanId].upload.Some? && scans[state.sourceScanId].upload.value.sync.Some?
    && scans[state.sourceScanId].upload.value.sync.value.reconstructed == Some(state.snapshot)
  }

  ghost predicate AllSourced(s: State) {
    forall key | key in s.inventory :: HasSource(s.scans.rows, key, s.inventory[key])
  }

  function KeyOfPrincipal(principal: Principal): (Id, Id) {
    (principal.tenantId, principal.endpointId)
  }

  /**
   * An accepted upload stores what `Reconstruct` rebuilt, for its own endpoint and in its own scan, and nowhere else.
   */
  lemma IngestStores(codec: Codec, s: State, principal: Principal, scanId: Id, upload: Upload, tasks: seq<Task>,
          now: Time)
    ensures var (t, outcome) := FreshIngest(codec, s, principal, scanId, upload, tasks, now);
            if outcome.Refused? then t == s
            else
              && upload.sync.Some? && scanId in s.scans.rows
              && var r := Reconstruct(codec, upload.sync.value, Stored(s, principal));
                 && r.Rebuilt?
                 && t.inventory == s.inventory[KeyOfPrincipal(principal) :=
                      InventoryState(principal.tenantId, principal.endpointId, r.digest, r.snapshot, scanId, now)]
                 && t.scans == s.scans.Put(scanId, Evidenced(s.scans.rows[scanId], upload, r.snapshot, now))
  {
    hide Reconstruct, NamesScan, ProvenanceMatches, TaskFits, PutTasks, Owns, Evidenced, Stored;
  }

  lemma StoredFaithful(codec: Codec, s: State, principal: Principal)
    requires AllFaithful(codec, s.inventory)
    ensures Stored(s, principal).Some?
            ==> Faithful(codec, Stored(s, principal).value.snapshot, Stored(s, principal).value.snapshotHash)
  {
    hide Faithful;
  }

  lemma IngestKeepsFaithful(codec: Codec, s: State, op: Op)
    requires Idempotent(codec) && op.Ingest? && AllFaithful(codec, s.inventory) && EvidenceFaithful(codec, s.scans.rows)
    ensures var t := FreshIngest(codec, s, op.principal, op.scanId, op.upload, op.tasks, op.now).0;
            AllFaithful(codec, t.inventory) && EvidenceFaithful(codec, t.scans.rows)
  {
    hide FreshIngest, Reconstruct, Faithful, Idempotent;
    IngestStores(codec, s, op.principal, op.scanId, op.upload, op.tasks, op.now);
    var (t, outcome) := FreshIngest(codec, s, op.principal, op.scanId, op.upload, op.tasks, op.now);
    if outcome.Ok? {
      StoredFaithful(codec, s, op.principal);
      AcceptedIsFaithful(codec, op.upload.sync.value, Stored(s, op.principal));
    }
  }

  /** Other operations leave the inventories and the evidence of every scan alone. */
  lemma OthersStoreNothing(codec: Codec, s: State, op: Op)
    requires !op.Ingest? && EvidenceFaithful(codec, s.scans.rows)
    requires op.CreateScan? ==> op.record.upload.None?
    ensures Perform(codec, s, op).0.inventory == s.inventory
            && EvidenceFaithful(codec, Perform(codec, s, op).0.scans.rows)
  {
    hide Perform, RebuiltFaithfully;
    PerformFramed(codec, s, op);
    PerformMovesScans(codec, s, op);
    Lifecycle.NoOtherUploads(codec, s, op);
    var t := Perform(codec, s, op).0;
    forall id | id in t.scans.rows && t.scans.rows[id].upload.Some? && t.scans.rows[id].upload.value.sync.Some?
      ensures RebuiltFaithfully(codec, t.scans.rows[id].upload.value.sync.value)
    {
      if id in s.scans.rows { assert t.scans.rows[id].upload == s.scans.rows[id].upload; }
    }
  }

  lemma StepKeepsFaithful(codec: Codec, s: State, op: Op)
    requires Idempotent(codec) && AllFaithful(codec, s.inventory) && EvidenceFaithful(codec, s.scans.rows)
    requires op.CreateScan? ==> op.record.upload.None?
    ensures var t := Step(codec, s, op).0; AllFaithful(codec, t.inventory) && EvidenceFaithful(codec, t.scans.rows)
  {
    hide Step, Perform, AllFaithful, EvidenceFaithful, Idempotent, FreshIngest;
    StepPerforms(codec, s, op);
    if op.Ingest? {
      IngestKeepsFaithful(codec, s, op);
      IngestPerforms(codec, s, op);
    } else {
      OthersStoreNothing(codec, s, op);
    }
  }

  /** Whatever is uploaded in whatever order, every stored inventory stays faithful to its hash. */
  lemma {:induction false} RunKeepsFaithful(codec: Codec, s: State, ops: seq<Op>)
    requires Idempotent(codec) && AllFaithful(codec, s.inventory) && EvidenceFaithful(codec, s.scans.rows)
    requires forall op | op in ops && op.CreateScan? :: op.record.upload.None?
    ensures var t := Run(codec, s, ops); AllFaithful(codec, t.inventory) && EvidenceFaithful(codec, t.scans.rows)
    decreases |ops|
  {
    hide Step, AllFaithful, EvidenceFaithful, Idempotent;
    if ops == [] {
    } else {
      StepKeepsFaithful(codec, s, ops[0]);
      RunKeepsFaithful(codec, Step(codec, s, ops[0]).0, ops[1..]);
    }
  }

  /**
   * Convergence: after any run, an upload that is accepted leaves the server with the very snapshot the endpoint
   * hashed, for that endpoint and in that scan, and leaves every other endpoint's inventory alone; one that is refused
   * changes nothing.
   */
  lemma UploadConverges(codec: Codec, ops: seq<Op>, op: Op, mine: Snapshot)
    requires Idempotent(codec) && CollisionFree(codec) && op.Ingest?
    requires forall x | x in ops && x.CreateScan? :: x.record.upload.None?
    requires op.upload.sync.Some? && op.upload.sync.value.snapshotHash == Present(HashOf(codec, mine))
    ensures var s := Run(codec, EMPTY_STATE, ops);
            var (t, outcome) := Perform(codec, s, op);
            var key := KeyOfPrincipal(op.principal);
            if outcome.Refused? then t == s
            else
              && key in t.inventory && t.inventory[key].snapshot == Normalize(codec, mine)
                 && t.inventory[key].snapshotHash == HashOf(codec, mine)
              && t.inventory == s.inventory[key := t.inventory[key]]
              && op.scanId in t.scans.rows && t.scans.rows[op.scanId].upload.Some?
                 && t.scans.rows[op.scanId].upload.value.sync.Some?
              && t.scans.rows[op.scanId].upload.value.sync.value.reconstructed == Some(Normalize(codec, mine))
  {
    hide Run, FreshIngest, Reconstruct, Faithful, Idempotent, CollisionFree, Normalize;
    var s := Run(codec, EMPTY_STATE, ops);
    RunKeepsFaithful(codec, EMPTY_STATE, ops);
    IngestStores(codec, s, op.principal, op.scanId, op.upload, op.tasks, op.now);
    if Perform(codec, s, op).1.Ok? {
      StoredFaithful(codec, s, op.principal);
      AcceptedIsClaimed(codec, op.upload.sync.value, Stored(s, op.principal), mine);
      AcceptedIsFaithful(codec, op.upload.sync.value, Stored(s, op.principal));
    }
  }

  // ---------------------------------------------------------------- where a stored inventory comes from

  lemma SourceStays(s: State, t: State, key: (Id, Id), state: InventoryState)
    requires HasSource(s.scans.rows, key, state) && ScansMove(s, t)
    ensures HasSource(t.scans.rows, key, state)
  {
    hide ScanMoves;
    Lifecycle.MovesKeep(s.scans.rows[state.sourceScanId], t.scans.rows[state.sourceScanId]);
  }

  lemma NewSource(codec: Codec, s: State, op: Op)
    requires op.Ingest? && FreshIngest(codec, s, op.principal, op.scanId, op.upload, op.tasks, op.now).1.Ok?
    ensures var t, key := FreshIngest(codec, s, op.principal, op.scanId, op.upload, op.tasks, op.now).0,
            KeyOfPrincipal(op.principal);
            key in t.inventory && HasSource(t.scans.rows, key, t.inventory[key])
  {
    hide FreshIngest, Reconstruct;
    IngestStores(codec, s, op.principal, op.scanId, op.upload, op.tasks, op.now);
    IngestAccepts(codec, s, op.principal, op.scanId, op.upload, op.tasks, op.now);
  }

  lemma IngestKeepsSourced(codec: Codec, s: State, op: Op)
    requires op.Ingest? && AllSourced(s)
    ensures AllSourced(FreshIngest(codec, s, op.principal, op.scanId, op.upload, op.tasks, op.now).0)
  {
    hide FreshIngest, Reconstruct, HasSource, ScansMove;
    IngestStores(codec, s, op.principal, op.scanId, op.upload, op.tasks, op.now);
    IngestPerforms(codec, s, op);
    PerformMovesScans(codec, s, op);
    var (t, outcome) := FreshIngest(codec, s, op.principal, op.scanId, op.upload, op.tasks, op.now);
    if outcome.Ok? {
      IngestAccepts(codec, s, op.principal, op.scanId, op.upload, op.tasks, op.now);
      forall key | key in t.inventory ensures HasSource(t.scans.rows, key, t.inventory[key]) {
        if key == KeyOfPrincipal(op.principal) {
          NewSource(codec, s, op);
        } else {
          SourceStays(s, t, key, s.inventory[key]);
        }
      }
    }
  }

  lemma StepKeepsSourced(codec: Codec, s: State, op: Op)
    requires AllSourced(s)
    ensures AllSourced(Step(codec, s, op).0)
  {
    hide Step, Perform, HasSource, FreshIngest, ScansMove;
    StepPerforms(codec, s, op);
    if op.Ingest? {
      IngestKeepsSourced(codec, s, op);
      IngestPerforms(codec, s, op);
    } else {
      PerformFramed(codec, s, op);
      PerformMovesScans(codec, s, op);
      var t := Perform(codec, s, op).0;
      forall key | key in t.inventory ensures HasSource(t.scans.rows, key, t.inventory[key]) {
        SourceStays(s, t, key, s.inventory[key]);
      }
    }
  }

  /** In every reachable state each stored inventory is that of an uploaded scan of its own endpoint. */
  lemma {:induction false} RunKeepsSourced(codec: Codec, s: State, ops: seq<Op>)
    requires AllSourced(s)
    ensures AllSourced(Run(codec, s, ops))
    decreases |ops|
  {
    hide Step, AllSourced;
    if ops == [] {
    } else {
      StepKeepsSourced(codec, s, ops[0]);
      RunKeepsSourced(codec, Step(codec, s, ops[0]).0, ops[1..]);
    }
  }
}
