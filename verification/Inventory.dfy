/** `reconstruct_inventory`: full, delta and unchanged uploads against the stored snapshot. */
module Inventory {
  import opened Prelude
  import opened Records

  const MAX_SECTIONS: nat := 512
  const MAX_BYTES: nat := 16 * 1024 * 1024
  const MAX_SECTION_NAME: nat := 256

  /** The foreign parts: section normalization, structural limits, digest and encoded size. */
  datatype Codec = Codec(
    section: (string, Content) -> Content,
    withinLimits: Snapshot -> bool,
    digest: Snapshot -> Digest,
    size: Snapshot -> nat)

  /** `normalize_snapshot`: process telemetry is dropped and every section normalized. */
  function Normalize(codec: Codec, s: Snapshot): Snapshot {
    map name | name in s && name != "processes" :: codec.section(name, s[name])
  }

  function HashOf(codec: Codec, s: Snapshot): Digest {
    codec.digest(Normalize(codec, s))
  }

  /** `_bounded_snapshot`; no result stands for its `InventorySyncError`. */
  function BoundedSnapshot(codec: Codec, s: Snapshot): Option<Snapshot> {
    if !codec.withinLimits(s) then None
    else
      var normalized := Normalize(codec, s);
      if |normalized| > MAX_SECTIONS || codec.size(normalized) > MAX_BYTES then None else Some(normalized)
  }

  datatype Reconstruction = Rebuilt(snapshot: Snapshot, digest: Digest) | Declined(error: Error)

  function SectionsOf(sync: InventorySync): map<string, Content> {
    if sync.sections.Present? then sync.sections.value else map[]
  }

  function RemovedOf(sync: InventorySync): seq<string> {
    if sync.removedSections.Present? then sync.removedSections.value else []
  }

  predicate IsSectionName(name: string) {
    0 < |name| <= MAX_SECTION_NAME
  }

  predicate HasDuplicates(names: seq<string>) {
    exists i, j | 0 <= i < j < |names| :: names[i] == names[j]
  }

  function Without(s: Snapshot, removed: seq<string>): Snapshot {
    if removed == [] then s else Without(s - {removed[0]}, removed[1..])
  }

  /** Updates first, then removals, as in the source. */
  function ApplyDelta(base: Snapshot, sections: map<string, Content>, removed: seq<string>): Snapshot {
    Without(base + sections, removed)
  }

  function Verified(codec: Codec, s: Snapshot, claimed: Digest): Reconstruction {
    match BoundedSnapshot(codec, s)
    case None => Declined(InventoryInvalid)
    case Some(snapshot) => if HashOf(codec, snapshot) != claimed then Declined(InventoryInvalid)
        else Rebuilt(snapshot, claimed)
  }

  function ReconstructFull(codec: Codec, sync: InventorySync, claimed: Digest,
          current: Option<InventoryState>): Reconstruction {
    if sync.sections != Missing || sync.removedSections != Missing || !sync.snapshot.Present?
        then Declined(InventoryInvalid)
    else
      var verified := Verified(codec, sync.snapshot.value, claimed);
      if verified.Declined? then verified
      else if sync.previousHash.Present? && (current.None? || sync.previousHash.value != current.value.snapshotHash)
          then Declined(ResyncRequired)
      else verified
  }

  function ReconstructDelta(codec: Codec, sync: InventorySync, claimed: Digest,
          current: Option<InventoryState>): Reconstruction {
    if current.None? || !sync.previousHash.Present? || sync.previousHash.value != current.value.snapshotHash
        then Declined(ResyncRequired)
    else if sync.snapshot != Missing || sync.sections.Malformed? || sync.removedSections.Malformed?
        then Declined(InventoryInvalid)
    else
      var sections, removed := SectionsOf(sync), RemovedOf(sync);
      if || |sections| + |removed| > MAX_SECTIONS
         || (exists name | name in sections :: !IsSectionName(name))
         || (exists name | name in removed :: !IsSectionName(name))
         || HasDuplicates(removed)
         || (exists name | name in removed :: name in sections)
         || (|sections| == 0 && |removed| == 0)
      then Declined(InventoryInvalid)
      else Verified(codec, ApplyDelta(current.value.snapshot, sections, removed), claimed)
  }

  function ReconstructUnchanged(sync: InventorySync, claimed: Digest, current: Option<InventoryState>): Reconstruction {
    if current.None? || claimed != current.value.snapshotHash then Declined(ResyncRequired)
    else if sync.previousHash.Present? && sync.previousHash.value != current.value.snapshotHash
        then Declined(ResyncRequired)
    else if sync.snapshot != Missing || sync.sections != Missing || sync.removedSections != Missing
        then Declined(InventoryInvalid)
    else Rebuilt(current.value.snapshot, claimed)
  }

  function Reconstruct(codec: Codec, sync: InventorySync, current: Option<InventoryState>): Reconstruction {
    if sync.reconstructed.Some? || sync.mode !in {"full", "delta", "unchanged"} then Declined(InventoryInvalid)
    else if !sync.snapshotHash.Present? || sync.previousHash.Malformed? then Declined(InventoryInvalid)
    else
      var claimed := sync.snapshotHash.value;
      if sync.mode == "full" then ReconstructFull(codec, sync, claimed, current)
      else if sync.mode == "delta" then ReconstructDelta(codec, sync, claimed, current)
      else ReconstructUnchanged(sync, claimed, current)
  }

  // ---------------------------------------------------------------- what is stored

  /** Normalizing a section twice is normalizing it once. */
  ghost predicate Idempotent(codec: Codec) {
    forall name, content :: codec.section(name, codec.section(name, content)) == codec.section(name, content)
  }

  /** No two normalized snapshots share a digest. */
  ghost predicate CollisionFree(codec: Codec) {
    forall a, b :: codec.digest(Normalize(codec, a)) == codec.digest(Normalize(codec, b))
        ==> Normalize(codec, a) == Normalize(codec, b)
  }

  /** A stored snapshot is normalized, within the limits, and matches its hash. */
  ghost predicate Faithful(codec: Codec, snapshot: Snapshot, digest: Digest) {
    && Normalize(codec, snapshot) == snapshot
    && |snapshot| <= MAX_SECTIONS && codec.size(snapshot) <= MAX_BYTES
    && HashOf(codec, snapshot) == digest
  }

  lemma NormalizeIdempotent(codec: Codec, s: Snapshot)
    requires Idempotent(codec)
    ensures Normalize(codec, Normalize(codec, s)) == Normalize(codec, s)
  {
  }

  /** Whatever is accepted is faithful, and carries the hash the client claimed. */
  lemma AcceptedIsFaithful(codec: Codec, sync: InventorySync, current: Option<InventoryState>)
    requires Idempotent(codec)
    requires current.Some? ==> Faithful(codec, current.value.snapshot, current.value.snapshotHash)
    requires Reconstruct(codec, sync, current).Rebuilt?
    ensures var r := Reconstruct(codec, sync, current);
            Faithful(codec, r.snapshot, r.digest) && sync.snapshotHash == Present(r.digest)
  {
    if sync.mode == "full" {
      NormalizeIdempotent(codec, sync.snapshot.value);
    } else if sync.mode == "delta" {
      NormalizeIdempotent(codec, ApplyDelta(current.value.snapshot, SectionsOf(sync), RemovedOf(sync)));
    }
  }

  /** Convergence: an accepted upload leaves the server with the very snapshot the client hashed. */
  lemma AcceptedIsClaimed(codec: Codec, sync: InventorySync, current: Option<InventoryState>, mine: Snapshot)
    requires Idempotent(codec) && CollisionFree(codec)
    requires current.Some? ==> Faithful(codec, current.value.snapshot, current.value.snapshotHash)
    requires sync.snapshotHash == Present(HashOf(codec, mine))
    requires Reconstruct(codec, sync, current).Rebuilt?
    ensures Reconstruct(codec, sync, current).snapshot == Normalize(codec, mine)
  {
    AcceptedIsFaithful(codec, sync, current);
  }

  // ---------------------------------------------------------------- deltas

  lemma {:induction false} WithoutContents(s: Snapshot, removed: seq<string>)
    ensures forall name :: name in Without(s, removed) <==> name in s && name !in removed
    ensures forall name | name in Without(s, removed) :: Without(s, removed)[name] == s[name]
  {
    if removed == [] {
    } else {
      WithoutContents(s - {removed[0]}, removed[1..]);
      assert removed == [removed[0]] + removed[1..];
    }
  }

  /** Updates and removals of disjoint sections commute, and the order of the removals is irrelevant. */
  lemma DeltaOrderIrrelevant(base: Snapshot, sections: map<string, Content>, removed: seq<string>,
          reordered: seq<string>)
    requires forall name | name in removed :: name !in sections
    requires forall name :: name in removed <==> name in reordered
    ensures ApplyDelta(base, sections, removed) == Without(base, reordered) + sections
  {
    WithoutContents(base + sections, removed);
    WithoutContents(base, reordered);
  }

  /** The delta the endpoint sends: the changed sections it still has, and the names of those it lost. */
  ghost predicate IsDeltaBetween(before: Snapshot, after: Snapshot, sections: map<string, Content>,
          removed: seq<string>) {
    && (forall name :: name in sections <==> name in after && (name !in before || before[name] != after[name]))
    && (forall name | name in sections :: sections[name] == after[name])
    && (forall name :: name in removed <==> name in before && name !in after)
  }

  /** Round trip: applying the endpoint's delta to its previous snapshot gives its current one. */
  lemma DeltaRoundTrip(before: Snapshot, after: Snapshot, sections: map<string, Content>, removed: seq<string>)
    requires IsDeltaBetween(before, after, sections, removed)
    ensures ApplyDelta(before, sections, removed) == after
  {
    WithoutContents(before + sections, removed);
  }

  /** The server accepts an honest delta exactly when it holds the base the endpoint started from. */
  lemma HonestDeltaAccepted(codec: Codec, before: Snapshot, after: Snapshot, sync: InventorySync,
          current: Option<InventoryState>)
    requires Idempotent(codec) && CollisionFree(codec)
    requires current.Some? ==> Faithful(codec, current.value.snapshot, current.value.snapshotHash)
    requires Normalize(codec, before) == before && Normalize(codec, after) == after && before != after
    requires sync.mode == "delta" && sync.reconstructed.None? && sync.snapshot == Missing
    requires sync.sections.Present? && sync.removedSections.Present?
    requires IsDeltaBetween(before, after, sync.sections.value, sync.removedSections.value)
             && !HasDuplicates(sync.removedSections.value)
    requires |sync.sections.value| + |sync.removedSections.value| <= MAX_SECTIONS
    requires forall name | name in before || name in after :: IsSectionName(name)
    requires sync.snapshotHash == Present(HashOf(codec, after)) && sync.previousHash == Present(HashOf(codec, before))
    requires codec.withinLimits(after) && |after| <= MAX_SECTIONS && codec.size(after) <= MAX_BYTES
    ensures current.Some? && current.value.snapshot == before ==>
              Reconstruct(codec, sync, current) == Rebuilt(after, HashOf(codec, after))
    ensures current.None? || current.value.snapshot != before ==>
              Reconstruct(codec, sync, current) == Declined(ResyncRequired)
  {
    var sections, removed := sync.sections.value, sync.removedSections.value;
    if current.Some? && current.value.snapshot == before {
      DeltaRoundTrip(before, after, sections, removed);
      assert sections == map[] && removed == [] ==> before == after;
    }
  }
}
