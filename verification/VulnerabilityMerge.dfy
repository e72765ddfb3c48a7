/**
  `merge_vulnerabilities`: index the records by package and identifier, join indices in a
  disjoint-set forest, and replace each tree by one merged record.
*/
module VulnerabilityMerge {
  import opened Prelude
  import opened Connectivity
  import opened Evidence
  import Text
  import UnionFind

  const MAX_RECORDS: nat := 100_000

  /** What merging needs of a record: an identifier that is not blank, and bounded lists. Merged records have it too. */
  ghost predicate Mergeable(v: Vulnerability) {
    !Text.IsBlank(v.vulnerabilityId) && Bounded(EvidenceOf(v))
  }

  ghost predicate AllMergeable(items: seq<Vulnerability>) {
    forall i | 0 <= i < |items| :: Mergeable(items[i])
  }

  // ---------------------------------------------------------------- the index and the forest

  /** `(index, x)` has been entered when all earlier records and `index`'s own `done` have been. */
  ghost predicate Entered(items: seq<Vulnerability>, index: nat, done: set<string>, k: nat, x: string) {
    k < |items| && x in Identifiers(items[k]) && (k < index || (k == index && x in done))
  }

  ghost predicate KeysExact(items: seq<Vulnerability>, index: nat, done: set<string>,
          seen: map<(PackageKey, string), nat>) {
    forall key | key in seen :: Entered(items, index, done, seen[key], key.1) && PackageKeyOf(items[seen[key]]) == key.0
  }

  ghost predicate AllIndexed(items: seq<Vulnerability>, index: nat, done: set<string>,
          seen: map<(PackageKey, string), nat>, p: seq<nat>)
    requires UnionFind.Forest(p) && |p| == |items|
  {
    forall k: nat, x | Entered(items, index, done, k, x) ::
      (PackageKeyOf(items[k]), x) in seen
      && seen[(PackageKeyOf(items[k]), x)] < |p|
      && UnionFind.Root(p, k) == UnionFind.Root(p, seen[(PackageKeyOf(items[k]), x)])
  }

  ghost predicate IndexExact(items: seq<Vulnerability>, index: nat, done: set<string>,
          seen: map<(PackageKey, string), nat>, p: seq<nat>)
    requires UnionFind.Forest(p) && |p| == |items|
  {
    KeysExact(items, index, done, seen) && AllIndexed(items, index, done, seen, p)
  }

  /** No element is filed under a root it is not connected to. */
  ghost predicate ForestSound(items: seq<Vulnerability>, p: seq<nat>)
    requires UnionFind.Forest(p) && |p| == |items|
  {
    forall k | 0 <= k < |p| :: Connected(items, k, UnionFind.Root(p, k))
  }

  lemma JoinKeepsSound(items: seq<Vulnerability>, p: seq<nat>, q: seq<nat>, a: nat, b: nat)
    requires UnionFind.Forest(p) && UnionFind.Forest(q) && |p| == |q| == |items|
    requires a < |p| && b < |p| && Linked(items[a], items[b])
    requires forall k | 0 <= k < |p| ::
               UnionFind.Root(q, k)
                   == UnionFind.Joined(UnionFind.Root(p, a), UnionFind.Root(p, b), UnionFind.Root(p, k))
    requires ForestSound(items, p)
    ensures ForestSound(items, q)
  {
    LinkedAreConnected(items, a, b);
    hide Linked, Connected;
    var ra, rb := UnionFind.Root(p, a), UnionFind.Root(p, b);
    ConnectedBack(items, a, ra);
    ConnectedBack(items, b, rb);
    ConnectedBack(items, a, b);
    ConnectedTransitive(items, ra, a, b);
    ConnectedTransitive(items, ra, b, rb);
    ConnectedBack(items, ra, rb);
    forall k: nat | k < |q| ensures Connected(items, k, UnionFind.Root(q, k)) {
      var root := UnionFind.Root(p, k);
      if root == ra { ConnectedTransitive(items, k, ra, rb); }
      if root == rb { ConnectedTransitive(items, k, rb, ra); }
    }
  }

  /** Two records end under one root exactly when they are connected. */
  ghost predicate ForestExact(items: seq<Vulnerability>, p: seq<nat>)
    requires UnionFind.Forest(p) && |p| == |items|
  {
    forall i, j | 0 <= i < |p| && 0 <= j < |p| ::
      UnionFind.Root(p, i) == UnionFind.Root(p, j) <==> Connected(items, i, j)
  }

  lemma IndexedForestIsExact(items: seq<Vulnerability>, seen: map<(PackageKey, string), nat>, p: seq<nat>)
    requires UnionFind.Forest(p) && |p| == |items|
    requires IndexExact(items, |items|, {}, seen, p) && ForestSound(items, p)
    ensures ForestExact(items, p)
  {
    var roots: seq<int> := seq(|p|, k requires 0 <= k < |p| => UnionFind.Root(p, k));
    assert Respects(items, roots) by {
      forall i, j | 0 <= i < |items| && 0 <= j < |items| && Linked(items[i], items[j])
        ensures roots[i] == roots[j]
      {
        var x :| x in Identifiers(items[i]) && x in Identifiers(items[j]);
        assert Entered(items, |items|, {}, i, x) && Entered(items, |items|, {}, j, x);
      }
    }
    forall i, j | 0 <= i < |p| && 0 <= j < |p|
      ensures UnionFind.Root(p, i) == UnionFind.Root(p, j) <==> Connected(items, i, j)
    {
      if UnionFind.Root(p, i) == UnionFind.Root(p, j) {
        assert Connected(items, i, UnionFind.Root(p, i)) && Connected(items, j, UnionFind.Root(p, j));
      }
      if Connected(items, i, j) {
        assert roots[i] == roots[j];
      }
    }
  }

  /** In an exact forest every root is the least index of its class. */
  lemma RootIsLeast(items: seq<Vulnerability>, p: seq<nat>, i: nat, j: nat)
    requires UnionFind.Forest(p) && |p| == |items| && ForestExact(items, p)
    requires i < |p| && j < |p| && Connected(items, i, j)
    ensures UnionFind.Root(p, i) <= j && Connected(items, i, UnionFind.Root(p, i))
  {
    UnionFind.RootIsRoot(p, i);
    assert UnionFind.Root(p, i) == UnionFind.Root(p, j);
  }

  lemma EnterNewKey(items: seq<Vulnerability>, index: nat, done: set<string>, seen: map<(PackageKey, string), nat>,
          p: seq<nat>, x: string)
    requires UnionFind.Forest(p) && |p| == |items| && index < |items| && x in Identifiers(items[index])
    requires IndexExact(items, index, done, seen, p) && (PackageKeyOf(items[index]), x) !in seen
    ensures IndexExact(items, index, done + {x}, seen[(PackageKeyOf(items[index]), x) := index], p)
  {
    var key := (PackageKeyOf(items[index]), x);
    var seen' := seen[key := index];
    forall other | other in seen'
      ensures Entered(items, index, done + {x}, seen'[other], other.1) && PackageKeyOf(items[seen'[other]]) == other.0
    {
      if other != key {
        assert Entered(items, index, done, seen[other], other.1);
      }
    }
    forall k: nat, y | Entered(items, index, done + {x}, k, y)
      ensures (PackageKeyOf(items[k]), y) in seen'
      ensures UnionFind.Root(p, k) == UnionFind.Root(p, seen'[(PackageKeyOf(items[k]), y)])
    {
      if !Entered(items, index, done, k, y) {
        assert k == index && y == x;
      }
    }
  }

  /** Roots that were equal stay equal when two classes are joined. */
  lemma JoinedTogether(p: seq<nat>, q: seq<nat>, a: nat, b: nat, k: nat, l: nat)
    requires UnionFind.Forest(p) && UnionFind.Forest(q) && |p| == |q| && a < |p| && b < |p| && k < |p| && l < |p|
    requires UnionFind.Root(q, k) == UnionFind.Joined(UnionFind.Root(p, a), UnionFind.Root(p, b), UnionFind.Root(p, k))
    requires UnionFind.Root(q, l) == UnionFind.Joined(UnionFind.Root(p, a), UnionFind.Root(p, b), UnionFind.Root(p, l))
    requires UnionFind.Root(p, k) == UnionFind.Root(p, l) || (k == a && l == b)
    ensures UnionFind.Root(q, k) == UnionFind.Root(q, l)
  {
  }

  lemma MoreEntered(items: seq<Vulnerability>, index: nat, done: set<string>, seen: map<(PackageKey, string), nat>,
          x: string)
    requires KeysExact(items, index, done, seen)
    ensures KeysExact(items, index, done + {x}, seen)
  {
    forall key | key in seen
      ensures Entered(items, index, done + {x}, seen[key], key.1) && PackageKeyOf(items[seen[key]]) == key.0
    {
      assert Entered(items, index, done, seen[key], key.1);
    }
  }

  lemma EnterKnownKey(items: seq<Vulnerability>, index: nat, done: set<string>, seen: map<(PackageKey, string), nat>,
          p: seq<nat>, q: seq<nat>, x: string)
    requires UnionFind.Forest(p) && UnionFind.Forest(q) && |p| == |q| == |items| && index < |items|
             && x in Identifiers(items[index])
    requires IndexExact(items, index, done, seen, p) && (PackageKeyOf(items[index]), x) in seen
    requires seen[(PackageKeyOf(items[index]), x)] < |p|
    requires forall k | 0 <= k < |p| ::
               UnionFind.Root(q, k)
                   == UnionFind.Joined(UnionFind.Root(p, index),
                       UnionFind.Root(p, seen[(PackageKeyOf(items[index]), x)]), UnionFind.Root(p, k))
    ensures IndexExact(items, index, done + {x}, seen, q)
  {
    hide KeysExact, UnionFind.Root, UnionFind.Forest, UnionFind.Joined, PackageKeyOf, Identifiers;
    MoreEntered(items, index, done, seen, x);
    var known := seen[(PackageKeyOf(items[index]), x)];
    forall k: nat, y | Entered(items, index, done + {x}, k, y)
      ensures (PackageKeyOf(items[k]), y) in seen
      ensures seen[(PackageKeyOf(items[k]), y)] < |q|
      ensures UnionFind.Root(q, k) == UnionFind.Root(q, seen[(PackageKeyOf(items[k]), y)])
    {
      if !(k == index && y == x) { assert Entered(items, index, done, k, y); }
      JoinedTogether(p, q, index, known, k, seen[(PackageKeyOf(items[k]), y)]);
    }
  }

  lemma NextRecord(items: seq<Vulnerability>, index: nat, done: set<string>, seen: map<(PackageKey, string), nat>,
          p: seq<nat>)
    requires UnionFind.Forest(p) && |p| == |items| && index < |items|
    requires done == Identifiers(items[index]) && IndexExact(items, index, done, seen, p)
    ensures IndexExact(items, index + 1, {}, seen, p)
  {
    assert forall k: nat, x :: Entered(items, index, done, k, x) <==> Entered(items, index + 1, {}, k, x);
  }

  lemma NothingIndexed(items: seq<Vulnerability>, p: seq<nat>)
    requires |p| == |items| && forall k | 0 <= k < |p| :: p[k] == k
    ensures IndexExact(items, 0, {}, map[], p) && ForestSound(items, p)
  {
  }

  lemma SeenIsLinked(items: seq<Vulnerability>, index: nat, done: set<string>, seen: map<(PackageKey, string), nat>,
          p: seq<nat>, x: string)
    requires UnionFind.Forest(p) && |p| == |items| && index < |items| && x in Identifiers(items[index])
    requires IndexExact(items, index, done, seen, p) && (PackageKeyOf(items[index]), x) in seen
    ensures seen[(PackageKeyOf(items[index]), x)] < |items|
    ensures Linked(items[index], items[seen[(PackageKeyOf(items[index]), x)]])
  {
    assert Entered(items, index, done, seen[(PackageKeyOf(items[index]), x)], x);
  }

  /** One turn of the indexing loop: remember a new key, or join with the record that first had it. */
  method IndexIdentifier(items: seq<Vulnerability>, parents: array<nat>, seen: map<(PackageKey, string), nat>,
          index: nat, identifier: string, ghost done: set<string>)
    returns (seen': map<(PackageKey, string), nat>)
    requires parents.Length == |items| && index < |items| && identifier in Identifiers(items[index])
    requires UnionFind.Forest(parents[..]) && IndexExact(items, index, done, seen, parents[..])
             && ForestSound(items, parents[..])
    modifies parents
    ensures UnionFind.Forest(parents[..])
    ensures IndexExact(items, index, done + {identifier}, seen', parents[..]) && ForestSound(items, parents[..])
  {
    hide IndexExact, ForestSound, Linked;
    ghost var p := parents[..];
    var key := (PackageKeyOf(items[index]), identifier);
    if key !in seen {
      EnterNewKey(items, index, done, seen, p, identifier);
      seen' := seen[key := index];
    } else {
      var previous := seen[key];
      SeenIsLinked(items, index, done, seen, p, identifier);
      UnionFind.Union(parents, index, previous);
      EnterKnownKey(items, index, done, seen, p, parents[..], identifier);
      JoinKeepsSound(items, p, parents[..], index, previous);
      seen' := seen;
    }
  }

  /** The inner loop: all identifiers of one record, in whatever order they come. */
  method IndexRecord(items: seq<Vulnerability>, parents: array<nat>, seen: map<(PackageKey, string), nat>, index: nat)
    returns (seen': map<(PackageKey, string), nat>)
    requires parents.Length == |items| && index < |items|
    requires UnionFind.Forest(parents[..]) && IndexExact(items, index, {}, seen, parents[..])
             && ForestSound(items, parents[..])
    modifies parents
    ensures UnionFind.Forest(parents[..])
    ensures IndexExact(items, index + 1, {}, seen', parents[..]) && ForestSound(items, parents[..])
  {
    hide *;
    var pending := Identifiers(items[index]);
    ghost var done: set<string> := {};
    seen' := seen;
    while pending != {}
      invariant done + pending == Identifiers(items[index]) && done !! pending
      invariant UnionFind.Forest(parents[..])
      invariant IndexExact(items, index, done, seen', parents[..])
      invariant ForestSound(items, parents[..])
      decreases pending
    {
      var identifier :| identifier in pending;
      seen' := IndexIdentifier(items, parents, seen', index, identifier, done);
      pending := pending - {identifier};
      done := done + {identifier};
    }
    NextRecord(items, index, done, seen', parents[..]);
  }

  /** The indexing loop. */
  method IndexRecords(items: seq<Vulnerability>) returns (parents: array<nat>)
    ensures fresh(parents) && parents.Length == |items|
    ensures UnionFind.Forest(parents[..]) && ForestExact(items, parents[..])
  {
    parents := new nat[|items|](i => i);
    var seen: map<(PackageKey, string), nat> := map[];
    NothingIndexed(items, parents[..]);
    assert UnionFind.Forest(parents[..]);
    hide *;
    for index := 0 to |items|
      invariant UnionFind.Forest(parents[..])
      invariant IndexExact(items, index, {}, seen, parents[..])
      invariant ForestSound(items, parents[..])
    {
      seen := IndexRecord(items, parents, seen, index);
    }
    IndexedForestIsExact(items, seen, parents[..]);
  }

  // ---------------------------------------------------------------- merging one group

  ghost function EvidenceSet(items: seq<Vulnerability>): set<Evidence> {
    set v | v in items :: EvidenceOf(v)
  }

  lemma EvidenceAt(items: seq<Vulnerability>, i: nat)
    requires i < |items|
    ensures EvidenceOf(items[i]) in EvidenceSet(items)
  {
    assert items[i] in items;
  }

  lemma EvidenceSetStep(items: seq<Vulnerability>)
    requires items != []
    ensures EvidenceSet(items) == {EvidenceOf(items[0])} + EvidenceSet(items[1..])
  {
    assert items == [items[0]] + items[1..];
    assert forall v :: v in items <==> v == items[0] || v in items[1..];
  }

  function Severest(items: seq<Vulnerability>): (top: Severity)
    requires items != []
    ensures HighestSeverity(top, EvidenceSet(items))
  {
    EvidenceSetStep(items);
    assert EvidenceOf(items[0]) in EvidenceSet(items);
    if |items| == 1 then items[0].severity
    else
      var rest := Severest(items[1..]);
      if Rank(rest) < Rank(items[0].severity) then items[0].severity else rest
  }

  function BestScore(items: seq<Vulnerability>, field: Vulnerability -> Option<real>,
          ghost evidence: Evidence -> Option<real>): (top: Option<real>)
    requires items != []
    requires forall v :: field(v) == evidence(EvidenceOf(v))
    ensures HighestScore(top, EvidenceSet(items), evidence)
  {
    EvidenceSetStep(items);
    assert EvidenceOf(items[0]) in EvidenceSet(items);
    if |items| == 1 then field(items[0])
    else
      var rest := BestScore(items[1..], field, evidence);
      if ScoreAtMost(rest, field(items[0])) then field(items[0]) else rest
  }

  function LongestOf(items: seq<Vulnerability>): (top: Option<string>)
    requires items != []
    ensures LongestSummary(top, EvidenceSet(items))
  {
    EvidenceSetStep(items);
    var first := Spoken(items[0].summary);
    assert EvidenceOf(items[0]) in EvidenceSet(items);
    SummaryOrder(first, first, first);
    if |items| == 1 then first
    else
      var rest := LongestOf(items[1..]);
      SummaryOrder(first, rest, first);
      assert forall s | s in EvidenceSet(items[1..]) ::
          SummaryAtMost(rest, first) ==> SummaryAtMost(s.summary, first) by {
        forall s | s in EvidenceSet(items[1..]) ensures SummaryAtMost(rest, first) ==> SummaryAtMost(s.summary, first) {
          SummaryOrder(s.summary, rest, first);
        }
      }
      if SummaryAtMost(rest, first) then first else rest
  }

  function EarliestOf(items: seq<Vulnerability>): (first: int)
    requires items != []
    ensures Earliest(first, EvidenceSet(items))
  {
    EvidenceSetStep(items);
    assert EvidenceOf(items[0]) in EvidenceSet(items);
    if |items| == 1 then items[0].detectedAt
    else
      var rest := EarliestOf(items[1..]);
      if rest < items[0].detectedAt then rest else items[0].detectedAt
  }

  /** `sorted({value for item in items for value in field(item)})` */
  function Collect(items: seq<Vulnerability>, field: Vulnerability -> seq<string>,
          ghost evidence: Evidence -> set<string>): (r: seq<string>)
    requires forall v :: Text.Elements(field(v)) == evidence(EvidenceOf(v))
    ensures Text.StrictlySorted(r)
    ensures Text.Elements(r) == UnionOf(EvidenceSet(items), evidence)
  {
    if items == [] then []
    else
      EvidenceSetStep(items);
      var head := EvidenceOf(items[0]);
      assert forall x :: x in UnionOf(EvidenceSet(items), evidence) <==>
          x in evidence(head) || x in UnionOf(EvidenceSet(items[1..]), evidence);
      Text.InsertAll(field(items[0]), Collect(items[1..], field, evidence))
  }

  predicate AnyExploited(items: seq<Vulnerability>)
    ensures AnyExploited(items) <==> exists s :: s in EvidenceSet(items) && s.knownExploited
  {
    assert forall v :: v in items ==> EvidenceOf(v) in EvidenceSet(items);
    exists v | v in items :: v.knownExploited
  }

  function AllIdentifiers(items: seq<Vulnerability>): (ids: set<string>)
    ensures ids == UnionOf(EvidenceSet(items), IdentifierField)
  {
    var ids := set v, x | v in items && x in RawIdentifiers(v) :: x;
    assert ids == UnionOf(EvidenceSet(items), IdentifierField) by {
      forall x | x in ids ensures x in UnionOf(EvidenceSet(items), IdentifierField) {
        var v :| v in items && x in RawIdentifiers(v);
        assert EvidenceOf(v) in EvidenceSet(items) && x in IdentifierField(EvidenceOf(v));
      }
    }
    ids
  }

  function Class(value: string): nat {
    var upper := Text.Upper(value);
    if "CVE-" <= upper then 0 else if "GHSA-" <= upper then 1 else 2
  }

  /** The order of `priority`: CVE names first, then GHSA names, then the rest, each alphabetically. */
  predicate Precedes(a: string, b: string) {
    Class(a) < Class(b) || (Class(a) == Class(b) && Text.Less(Text.Upper(a), Text.Upper(b)))
  }

  ghost predicate IsCanonical(id: string, ids: set<string>) {
    id in ids && forall x | x in ids :: !Precedes(x, id)
  }

  lemma PrecedesTransitive(a: string, b: string, c: string)
    requires !Precedes(a, b) && Precedes(c, b)
    ensures !Precedes(a, c)
  {
    var ua, ub, uc := Text.Upper(a), Text.Upper(b), Text.Upper(c);
    Text.LessTrichotomy(ua, ub);
    if Precedes(a, c) && Class(a) == Class(c) && Class(c) == Class(b) {
      Text.LessTransitive(ua, uc, ub);
    }
  }

  /** Names that differ in more than case have exactly one canonical name. */
  lemma CanonicalUnique(a: string, b: string, ids: set<string>)
    requires IsCanonical(a, ids) && IsCanonical(b, ids)
    requires forall x, y | x in ids && y in ids && Text.Upper(x) == Text.Upper(y) :: x == y
    ensures a == b
  {
    Text.LessTrichotomy(Text.Upper(a), Text.Upper(b));
  }

  method CanonicalIdentifier(values: set<string>) returns (best: string)
    requires values != {}
    ensures IsCanonical(best, values)
  {
    best :| best in values;
    var rest := values - {best};
    Text.LessTrichotomy(Text.Upper(best), Text.Upper(best));
    while rest != {}
      invariant rest <= values && best in values
      invariant forall x | x in values - rest :: !Precedes(x, best)
    {
      var x :| x in rest;
      if Precedes(x, best) {
        Text.LessTrichotomy(Text.Upper(x), Text.Upper(x));
        forall y | y in values - rest ensures !Precedes(y, x) { PrecedesTransitive(y, best, x); }
        best := x;
      }
      rest := rest - {x};
    }
  }

  /** Sort key of `_merge_group`: detection time, then identifier, then package name. */
  predicate ReportedBefore(a: Vulnerability, b: Vulnerability) {
    || a.detectedAt < b.detectedAt
    || (a.detectedAt == b.detectedAt
        && (Text.Less(Text.Fold(a.vulnerabilityId), Text.Fold(b.vulnerabilityId))
            || (Text.Fold(a.vulnerabilityId) == Text.Fold(b.vulnerabilityId)
                && Text.Less(Text.Fold(a.packageName), Text.Fold(b.packageName)))))
  }

  function FirstReported(items: seq<Vulnerability>): (first: Vulnerability)
    requires items != []
    ensures first in items
  {
    if |items| == 1 then items[0]
    else
      var rest := FirstReported(items[1..]);
      if ReportedBefore(rest, items[0]) then rest else items[0]
  }

  /** `m` is the merged record of a group with evidence `S` about one package. */
  ghost predicate IsMergeOf(m: Vulnerability, package: PackageKey, S: set<Evidence>) {
    && PackageKeyOf(m) == package
    && Aggregates(EvidenceOf(m), S)
    && IsCanonical(m.vulnerabilityId, EvidenceOf(m).identifiers)
    && m.aliases == EvidenceOf(m).identifiers - {m.vulnerabilityId}
  }

  function BestCvss(items: seq<Vulnerability>): (top: Option<real>)
    requires items != []
    ensures HighestScore(top, EvidenceSet(items), CvssField)
  {
    BestScore(items, (v: Vulnerability) => v.cvssScore, CvssField)
  }

  function BestExploitability(items: seq<Vulnerability>): (top: Option<real>)
    requires items != []
    ensures HighestScore(top, EvidenceSet(items), ExploitabilityField)
  {
    BestScore(items, (v: Vulnerability) => v.exploitability, ExploitabilityField)
  }

  function AffectedVersions(items: seq<Vulnerability>): (r: seq<string>)
    ensures Text.Smallest(MAX_VERSIONS, Text.Elements(r), UnionOf(EvidenceSet(items), AffectedField))
  {
    var all := Collect(items, (v: Vulnerability) => v.affectedVersions, AffectedField);
    Text.TakeIsSmallest(all, MAX_VERSIONS);
    Text.Take(all, MAX_VERSIONS)
  }

  function FixedVersions(items: seq<Vulnerability>): (r: seq<string>)
    ensures Text.Smallest(MAX_VERSIONS, Text.Elements(r), UnionOf(EvidenceSet(items), FixedField))
  {
    var all := Collect(items, (v: Vulnerability) => v.fixedVersions, FixedField);
    Text.TakeIsSmallest(all, MAX_VERSIONS);
    Text.Take(all, MAX_VERSIONS)
  }

  function References(items: seq<Vulnerability>): (r: seq<string>)
    ensures Text.Smallest(MAX_REFERENCES, Text.Elements(r), UnionOf(EvidenceSet(items), ReferenceField))
  {
    var all := Collect(items, (v: Vulnerability) => v.references, ReferenceField);
    Text.TakeIsSmallest(all, MAX_REFERENCES);
    Text.Take(all, MAX_REFERENCES)
  }

  /** The merged record, once the canonical name has been picked. */
  function Combined(items: seq<Vulnerability>, canonical: string): Vulnerability
    requires items != []
  {
    FirstReported(items).(
    vulnerabilityId := canonical,
    aliases := AllIdentifiers(items) - {canonical},
    affectedVersions := AffectedVersions(items),
    fixedVersions := FixedVersions(items),
    severity := Severest(items),
    cvssScore := BestCvss(items),
    exploitability := BestExploitability(items),
    knownExploited := AnyExploited(items),
    summary := LongestOf(items),
    references := References(items),
    detectedAt := EarliestOf(items))
  }

  lemma IdentifiersSurvive(items: seq<Vulnerability>, m: Vulnerability, canonical: string, identifiers: set<string>)
    requires identifiers == AllIdentifiers(items) && canonical in identifiers
    requires m.vulnerabilityId == canonical && m.aliases == identifiers - {canonical}
    ensures RawIdentifiers(m) == identifiers && !Text.IsBlank(canonical)
  {
    assert forall x | x in identifiers :: !Text.IsBlank(x);
    assert {m.vulnerabilityId} + m.aliases == identifiers;
  }

  lemma CombinedEvidence(items: seq<Vulnerability>, canonical: string)
    requires items != [] && canonical in AllIdentifiers(items) && AllMergeable(items)
    ensures EvidenceOf(Combined(items, canonical)) ==
            Evidence(AllIdentifiers(items), Severest(items), BestCvss(items), BestExploitability(items),
                AnyExploited(items), LongestOf(items),
                     Text.Elements(AffectedVersions(items)), Text.Elements(FixedVersions(items)),
                         Text.Elements(References(items)), EarliestOf(items))
    ensures LongestOf(items) != Some("") && !Text.IsBlank(canonical)
  {
    var s: Evidence :| s in EvidenceSet(items) && s.summary == LongestOf(items);
    IdentifiersSurvive(items, Combined(items, canonical), canonical, AllIdentifiers(items));
  }

  lemma CombinedAggregates(items: seq<Vulnerability>, canonical: string)
    requires items != [] && canonical in AllIdentifiers(items) && AllMergeable(items)
    ensures Aggregates(EvidenceOf(Combined(items, canonical)), EvidenceSet(items))
    ensures EvidenceOf(Combined(items, canonical)).identifiers == AllIdentifiers(items)
    ensures Mergeable(Combined(items, canonical))
  {
    CombinedEvidence(items, canonical);
  }

  method MergeGroup(items: seq<Vulnerability>) returns (m: Vulnerability)
    requires items != [] && AllMergeable(items)
    requires forall v | v in items :: PackageKeyOf(v) == PackageKeyOf(items[0])
    ensures IsMergeOf(m, PackageKeyOf(items[0]), EvidenceSet(items)) && Mergeable(m)
  {
    var identifiers := AllIdentifiers(items);
    assert items[0].vulnerabilityId in identifiers by {
      EvidenceAt(items, 0);
      assert items[0].vulnerabilityId in IdentifierField(EvidenceOf(items[0]));
    }
    var canonical := CanonicalIdentifier(identifiers);
    m := Combined(items, canonical);
    CombinedAggregates(items, canonical);
  }

  // ---------------------------------------------------------------- the whole merge

  /** The evidence of the class of record `i`. */
  ghost function Members(items: seq<Vulnerability>, i: nat): set<Evidence>
    requires i < |items|
  {
    set j | 0 <= j < |items| && Connected(items, i, j) :: EvidenceOf(items[j])
  }

  ghost predicate IsClassMerge(items: seq<Vulnerability>, i: nat, m: Vulnerability)
    requires i < |items|
  {
    IsMergeOf(m, PackageKeyOf(items[i]), Members(items, i))
  }

  ghost predicate HasClass(items: seq<Vulnerability>, m: Vulnerability) {
    exists i :: 0 <= i < |items| && IsClassMerge(items, i, m)
  }

  ghost predicate HasMerge(items: seq<Vulnerability>, i: nat, merged: seq<Vulnerability>)
    requires i < |items|
  {
    exists m :: m in merged && IsClassMerge(items, i, m)
  }

  /** No two records share both the package and an identifier. */
  ghost predicate Separate(merged: seq<Vulnerability>) {
    forall g, h | 0 <= g < h < |merged| :: !Linked(merged[g], merged[h])
  }

  /** `merged` holds one merged record for every class of connected records, and nothing else. */
  ghost predicate IsMerge(items: seq<Vulnerability>, merged: seq<Vulnerability>) {
    && (forall g | 0 <= g < |merged| :: HasClass(items, merged[g]))
    && (forall i | 0 <= i < |items| :: HasMerge(items, i, merged))
    && Separate(merged)
    && AllMergeable(merged)
  }

  lemma MembersOfConnected(items: seq<Vulnerability>, i: nat, j: nat)
    requires i < |items| && j < |items| && Connected(items, i, j)
    ensures Members(items, i) == Members(items, j)
    ensures forall m :: IsClassMerge(items, i, m) <==> IsClassMerge(items, j, m)
  {
    ConnectedSamePackage(items, i, j);
    assert forall k | 0 <= k < |items| :: Connected(items, i, k) <==> Connected(items, j, k);
  }

  /** An identifier of a merged record comes from a record of its class. */
  lemma IdentifierSource(items: seq<Vulnerability>, i: nat, m: Vulnerability, x: string) returns (j: nat)
    requires i < |items| && IsClassMerge(items, i, m) && x in Identifiers(m)
    ensures j < |items| && Connected(items, i, j) && x in Identifiers(items[j])
    ensures PackageKeyOf(items[j]) == PackageKeyOf(m)
  {
    var raw :| raw in RawIdentifiers(m) && Text.Fold(raw) == x;
    assert raw in UnionOf(Members(items, i), IdentifierField);
    var s: Evidence :| s in Members(items, i) && raw in IdentifierField(s);
    j :| 0 <= j < |items| && Connected(items, i, j) && EvidenceOf(items[j]) == s;
    ConnectedSamePackage(items, i, j);
  }

  /** A merged record keeps every identifier of its class. */
  lemma IdentifiersKept(items: seq<Vulnerability>, i: nat, m: Vulnerability)
    requires i < |items| && IsClassMerge(items, i, m)
    ensures Identifiers(items[i]) <= Identifiers(m)
  {
    forall x | x in Identifiers(items[i]) ensures x in Identifiers(m) {
      var raw :| raw in RawIdentifiers(items[i]) && Text.Fold(raw) == x;
      assert Connected(items, i, i);
      assert EvidenceOf(items[i]) in Members(items, i) && raw in IdentifierField(EvidenceOf(items[i]));
      assert raw in RawIdentifiers(m);
    }
  }

  /** Merged records that share package and identifier stand for one class. */
  lemma LinkedMergesShareClass(items: seq<Vulnerability>, i: nat, m: Vulnerability, j: nat, n: Vulnerability)
    requires i < |items| && j < |items| && IsClassMerge(items, i, m) && IsClassMerge(items, j, n) && Linked(m, n)
    ensures Connected(items, i, j)
  {
    var x :| x in Identifiers(m) && x in Identifiers(n);
    var k := IdentifierSource(items, i, m, x);
    var l := IdentifierSource(items, j, n, x);
    assert Linked(items[k], items[l]);
  }

  /** The records of `items[..n]` filed under `root`, in input order. */
  ghost function Group(items: seq<Vulnerability>, p: seq<nat>, root: nat, n: nat): seq<Vulnerability>
    requires UnionFind.Forest(p) && |p| == |items| && n <= |items|
  {
    if n == 0 then []
    else if UnionFind.Root(p, n - 1) == root then Group(items, p, root, n - 1) + [items[n - 1]]
    else Group(items, p, root, n - 1)
  }

  lemma {:induction false} GroupMembers(items: seq<Vulnerability>, p: seq<nat>, root: nat, n: nat, v: Vulnerability)
    requires UnionFind.Forest(p) && |p| == |items| && n <= |items|
    ensures v in Group(items, p, root, n) <==> exists i :: 0 <= i < n && UnionFind.Root(p, i) == root && items[i] == v
  {
    if n == 0 {
    } else {
      GroupMembers(items, p, root, n - 1, v);
    }
  }

  lemma GroupIsClass(items: seq<Vulnerability>, p: seq<nat>, root: nat)
    requires UnionFind.Forest(p) && |p| == |items| && ForestExact(items, p)
    requires root < |p| && UnionFind.Root(p, root) == root
    ensures EvidenceSet(Group(items, p, root, |items|)) == Members(items, root)
    ensures forall v | v in Group(items, p, root, |items|) :: v in items && PackageKeyOf(v) == PackageKeyOf(items[root])
  {
    hide PackageKeyOf, EvidenceOf;
    var group := Group(items, p, root, |items|);
    forall v ensures v in group <==> exists i :: 0 <= i < |items| && UnionFind.Root(p, i) == root && items[i] == v {
      GroupMembers(items, p, root, |items|, v);
    }
    forall v | v in group ensures v in items && PackageKeyOf(v) == PackageKeyOf(items[root]) {
      var i :| 0 <= i < |items| && UnionFind.Root(p, i) == root && items[i] == v;
      ConnectedSamePackage(items, root, i);
    }
    forall e ensures e in EvidenceSet(group) <==> e in Members(items, root) {
      if e in EvidenceSet(group) {
        var v :| v in group && EvidenceOf(v) == e;
        var i :| 0 <= i < |items| && UnionFind.Root(p, i) == root && items[i] == v;
        assert Connected(items, root, i);
      }
      if e in Members(items, root) {
        var j :| 0 <= j < |items| && Connected(items, root, j) && EvidenceOf(items[j]) == e;
        assert UnionFind.Root(p, j) == root;
        assert items[j] in group;
      }
    }
  }

  lemma ValidGroup(items: seq<Vulnerability>, group: seq<Vulnerability>)
    requires AllMergeable(items) && forall v | v in group :: v in items
    ensures AllMergeable(group)
  {
    forall i | 0 <= i < |group| ensures Mergeable(group[i]) {
      assert group[i] in items;
    }
  }

  /** `grouped` holds the groups of the records before `n`, keyed by root. */
  ghost predicate GroupedUpTo(items: seq<Vulnerability>, p: seq<nat>, n: nat, grouped: map<nat, seq<Vulnerability>>)
    requires UnionFind.Forest(p) && |p| == |items| && n <= |items|
  {
    && (forall r: nat :: Group(items, p, r, n) == if r in grouped then grouped[r] else [])
    && (forall r | r in grouped :: grouped[r] != [])
  }

  lemma GroupStep(items: seq<Vulnerability>, p: seq<nat>, n: nat, grouped: map<nat, seq<Vulnerability>>, root: nat)
    requires UnionFind.Forest(p) && |p| == |items| && n < |items| && GroupedUpTo(items, p, n, grouped)
    requires root == UnionFind.Root(p, n)
    ensures GroupedUpTo(items, p, n + 1, grouped[root := (if root in grouped then grouped[root] else []) + [items[n]]])
  {
  }

  /** Every record lands in exactly one group, the one kept under its root. */
  method GroupByRoot(items: seq<Vulnerability>, parents: array<nat>) returns (grouped: map<nat, seq<Vulnerability>>)
    requires UnionFind.Forest(parents[..]) && parents.Length == |items|
    modifies parents
    ensures UnionFind.Forest(parents[..])
    ensures GroupedUpTo(items, old(parents[..]), |items|, grouped)
  {
    ghost var p := parents[..];
    grouped := map[];
    for index := 0 to |items|
      invariant UnionFind.Forest(parents[..])
      invariant forall k | 0 <= k < |p| :: UnionFind.Root(parents[..], k) == UnionFind.Root(p, k)
      invariant GroupedUpTo(items, p, index, grouped)
    {
      var root := UnionFind.Find(parents, index);
      GroupStep(items, p, index, grouped, root);
      grouped := grouped[root := (if root in grouped then grouped[root] else []) + [items[index]]];
    }
  }

  ghost predicate TagFits(items: seq<Vulnerability>, p: seq<nat>, tag: nat, m: Vulnerability)
    requires UnionFind.Forest(p) && |p| == |items|
  {
    tag < |items| && UnionFind.Root(p, tag) == tag && IsClassMerge(items, tag, m)
  }

  /** `merged[g]` is the merged record of the class whose root is `tags[g]`. */
  ghost predicate Tagged(items: seq<Vulnerability>, p: seq<nat>, tags: seq<nat>, merged: seq<Vulnerability>)
    requires UnionFind.Forest(p) && |p| == |items|
  {
    && |tags| == |merged|
    && (forall g | 0 <= g < |tags| :: TagFits(items, p, tags[g], merged[g]))
    && (forall g, h | 0 <= g < h < |tags| :: tags[g] < tags[h])
  }

  /** The groups with roots below `n` have been merged. */
  ghost predicate Collected(items: seq<Vulnerability>, p: seq<nat>, grouped: map<nat, seq<Vulnerability>>, n: nat,
          tags: seq<nat>, merged: seq<Vulnerability>)
    requires UnionFind.Forest(p) && |p| == |items|
  {
    && Tagged(items, p, tags, merged)
    && (forall t | t in tags :: t < n)
    && (forall r: nat | r < n && r in grouped :: r in tags)
    && AllMergeable(merged)
  }

  lemma CollectNone(items: seq<Vulnerability>, p: seq<nat>, grouped: map<nat, seq<Vulnerability>>)
    requires UnionFind.Forest(p) && |p| == |items|
    ensures Collected(items, p, grouped, 0, [], [])
  {
  }

  lemma CollectSkip(items: seq<Vulnerability>, p: seq<nat>, grouped: map<nat, seq<Vulnerability>>, n: nat,
          tags: seq<nat>, merged: seq<Vulnerability>)
    requires UnionFind.Forest(p) && |p| == |items| && Collected(items, p, grouped, n, tags, merged) && n !in grouped
    ensures Collected(items, p, grouped, n + 1, tags, merged)
  {
    hide Tagged, AllMergeable;
  }

  lemma MergeableStep(merged: seq<Vulnerability>, m: Vulnerability)
    requires AllMergeable(merged) && Mergeable(m)
    ensures AllMergeable(merged + [m])
  {
    forall g | 0 <= g < |merged + [m]| ensures Mergeable((merged + [m])[g]) {
      if g < |merged| {
        assert Mergeable(merged[g]);
      }
    }
  }

  lemma TagStep(items: seq<Vulnerability>, p: seq<nat>, tags: seq<nat>, merged: seq<Vulnerability>, root: nat,
          m: Vulnerability)
    requires UnionFind.Forest(p) && |p| == |items| && Tagged(items, p, tags, merged)
    requires root < |items| && UnionFind.Root(p, root) == root && (forall t | t in tags :: t < root)
    requires IsClassMerge(items, root, m) && AllMergeable(merged) && Mergeable(m)
    ensures Tagged(items, p, tags + [root], merged + [m]) && AllMergeable(merged + [m])
  {
    hide IsClassMerge;
    MergeableStep(merged, m);
    var longer, more := tags + [root], merged + [m];
    forall g | 0 <= g < |longer| ensures TagFits(items, p, longer[g], more[g]) {
      if g < |tags| {
        assert TagFits(items, p, tags[g], merged[g]);
      }
    }
    forall g, h | 0 <= g < h < |longer| ensures longer[g] < longer[h] {
      assert tags[g] in tags;
    }
  }

  lemma CollectStep(items: seq<Vulnerability>, p: seq<nat>, grouped: map<nat, seq<Vulnerability>>, root: nat,
          tags: seq<nat>, merged: seq<Vulnerability>, m: Vulnerability)
    requires UnionFind.Forest(p) && |p| == |items| && Collected(items, p, grouped, root, tags, merged)
    requires root < |items| && UnionFind.Root(p, root) == root && root in grouped && grouped[root] != []
    requires EvidenceSet(grouped[root]) == Members(items, root)
             && PackageKeyOf(grouped[root][0]) == PackageKeyOf(items[root])
    requires IsMergeOf(m, PackageKeyOf(grouped[root][0]), EvidenceSet(grouped[root])) && Mergeable(m)
    ensures Collected(items, p, grouped, root + 1, tags + [root], merged + [m])
  {
    hide IsMergeOf, Mergeable, Tagged;
    TagStep(items, p, tags, merged, root, m);
    forall r: nat | r < root + 1 && r in grouped ensures r in tags + [root] {
      if r == root { assert (tags + [root])[|tags|] == root; }
    }
  }

  lemma RootIsGrouped(items: seq<Vulnerability>, p: seq<nat>, grouped: map<nat, seq<Vulnerability>>, i: nat)
    requires UnionFind.Forest(p) && |p| == |items| && i < |items| && GroupedUpTo(items, p, |items|, grouped)
    ensures UnionFind.Root(p, i) in grouped
  {
    GroupMembers(items, p, UnionFind.Root(p, i), |items|, items[i]);
  }

  lemma TaggedHasMerge(items: seq<Vulnerability>, merged: seq<Vulnerability>, p: seq<nat>, tags: seq<nat>, i: nat)
    requires UnionFind.Forest(p) && |p| == |items| && ForestExact(items, p) && Tagged(items, p, tags, merged)
    requires i < |items| && UnionFind.Root(p, i) in tags
    ensures HasMerge(items, i, merged)
  {
    var root := UnionFind.Root(p, i);
    var g :| 0 <= g < |tags| && tags[g] == root;
    assert Connected(items, root, i);
    MembersOfConnected(items, root, i);
    assert merged[g] in merged && IsClassMerge(items, i, merged[g]);
  }

  lemma TaggedSeparate(items: seq<Vulnerability>, merged: seq<Vulnerability>, p: seq<nat>, tags: seq<nat>, g: nat,
          h: nat)
    requires UnionFind.Forest(p) && |p| == |items| && ForestExact(items, p) && Tagged(items, p, tags, merged)
    requires g < h < |merged|
    ensures !Linked(merged[g], merged[h])
  {
    assert TagFits(items, p, tags[g], merged[g]) && TagFits(items, p, tags[h], merged[h]);
    if Linked(merged[g], merged[h]) {
      LinkedMergesShareClass(items, tags[g], merged[g], tags[h], merged[h]);
      assert false;
    }
  }

  lemma TaggedIsMerge(items: seq<Vulnerability>, merged: seq<Vulnerability>, p: seq<nat>, tags: seq<nat>)
    requires UnionFind.Forest(p) && |p| == |items| && ForestExact(items, p) && AllMergeable(merged)
    requires Tagged(items, p, tags, merged)
    requires forall i | 0 <= i < |items| :: UnionFind.Root(p, i) in tags
    ensures IsMerge(items, merged)
  {
    forall i | 0 <= i < |items| ensures HasMerge(items, i, merged) { TaggedHasMerge(items, merged, p, tags, i); }
    forall g, h | 0 <= g < h < |merged| ensures !Linked(merged[g], merged[h]) {
      TaggedSeparate(items, merged, p, tags, g, h);
    }
    forall g | 0 <= g < |merged| ensures HasClass(items, merged[g]) {
      assert TagFits(items, p, tags[g], merged[g]);
    }
  }

  lemma CollectedIsMerge(items: seq<Vulnerability>, p: seq<nat>, grouped: map<nat, seq<Vulnerability>>,
          tags: seq<nat>, merged: seq<Vulnerability>)
    requires UnionFind.Forest(p) && |p| == |items| && ForestExact(items, p) && GroupedUpTo(items, p, |items|, grouped)
    requires Collected(items, p, grouped, |items|, tags, merged)
    ensures IsMerge(items, merged)
  {
    hide Tagged, AllMergeable, IsMerge, GroupedUpTo;
    forall i | 0 <= i < |items| ensures UnionFind.Root(p, i) in tags {
      RootIsGrouped(items, p, grouped, i);
    }
    TaggedIsMerge(items, merged, p, tags);
  }

  lemma GroupHasRoot(items: seq<Vulnerability>, p: seq<nat>, root: nat, grouped: map<nat, seq<Vulnerability>>)
    requires UnionFind.Forest(p) && |p| == |items| && ForestExact(items, p) && AllMergeable(items)
    requires GroupedUpTo(items, p, |items|, grouped) && root < |items| && root in grouped
    ensures UnionFind.Root(p, root) == root && AllMergeable(grouped[root])
    ensures EvidenceSet(grouped[root]) == Members(items, root)
    ensures forall v | v in grouped[root] :: PackageKeyOf(v) == PackageKeyOf(items[root])
    ensures grouped[root] != [] && PackageKeyOf(grouped[root][0]) == PackageKeyOf(items[root])
  {
    var v := grouped[root][0];
    assert v in Group(items, p, root, |items|);
    GroupMembers(items, p, root, |items|, v);
    var i :| 0 <= i < |items| && UnionFind.Root(p, i) == root;
    UnionFind.RootIsRoot(p, i);
    GroupIsClass(items, p, root);
    ValidGroup(items, grouped[root]);
  }

  method MergeGroups(items: seq<Vulnerability>, grouped: map<nat, seq<Vulnerability>>,
          ghost p: seq<nat>) returns (merged: seq<Vulnerability>)
    requires UnionFind.Forest(p) && |p| == |items| && ForestExact(items, p) && AllMergeable(items)
    requires GroupedUpTo(items, p, |items|, grouped)
    ensures IsMerge(items, merged)
    ensures |merged| <= |items|
  {
    hide GroupedUpTo, ForestExact, Collected, IsMergeOf, IsMerge;
    merged := [];
    ghost var tags: seq<nat> := [];
    CollectNone(items, p, grouped);
    for root := 0 to |items|
      invariant Collected(items, p, grouped, root, tags, merged)
      invariant |merged| <= root
    {
      if root in grouped {
        GroupHasRoot(items, p, root, grouped);
        var m := MergeGroup(grouped[root]);
        CollectStep(items, p, grouped, root, tags, merged, m);
        merged := merged + [m];
        tags := tags + [root];
      } else {
        CollectSkip(items, p, grouped, root, tags, merged);
      }
    }
    CollectedIsMerge(items, p, grouped, tags, merged);
  }

  // ---------------------------------------------------------------- the order of the result

  /** Sort key of the result: highest severity first, then package, version and identifier. */
  predicate ListedBefore(a: Vulnerability, b: Vulnerability) {
    var (na, nb) := (Text.Fold(a.packageName), Text.Fold(b.packageName));
    var (va, vb) := (Text.Fold(OrEmpty(a.installedVersion)), Text.Fold(OrEmpty(b.installedVersion)));
    var (ia, ib) := (Text.Fold(a.vulnerabilityId), Text.Fold(b.vulnerabilityId));
    if a.severity != b.severity then Rank(a.severity) > Rank(b.severity)
    else if na != nb then Text.Less(na, nb)
    else if va != vb then Text.Less(va, vb)
    else Text.Less(ia, ib)
  }

  ghost predicate Listed(s: seq<Vulnerability>) {
    forall g, h | 0 <= g < h < |s| :: !ListedBefore(s[h], s[g])
  }

  lemma LessOrEqualTransitive(a: string, b: string, c: string)
    ensures !Text.Less(b, a) && !Text.Less(c, b) ==> !Text.Less(c, a) && (a == c ==> a == b)
    ensures a != b ==> (Text.Less(a, b) <==> !Text.Less(b, a))
    ensures b != c ==> (Text.Less(b, c) <==> !Text.Less(c, b))
    ensures a != c ==> (Text.Less(a, c) <==> !Text.Less(c, a))
  {
    Text.LessTrichotomy(a, b);
    Text.LessTrichotomy(b, c);
    Text.LessTrichotomy(a, c);
    if Text.Less(a, b) && Text.Less(b, c) { Text.LessTransitive(a, b, c); }
  }

  lemma ListedBeforeTransitive(a: Vulnerability, b: Vulnerability, c: Vulnerability)
    requires !ListedBefore(b, a) && !ListedBefore(c, b)
    ensures !ListedBefore(c, a)
  {
    LessOrEqualTransitive(Text.Fold(a.packageName), Text.Fold(b.packageName), Text.Fold(c.packageName));
    LessOrEqualTransitive(Text.Fold(OrEmpty(a.installedVersion)), Text.Fold(OrEmpty(b.installedVersion)),
        Text.Fold(OrEmpty(c.installedVersion)));
    LessOrEqualTransitive(Text.Fold(a.vulnerabilityId), Text.Fold(b.vulnerabilityId), Text.Fold(c.vulnerabilityId));
  }

  lemma ListedBeforeAsymmetric(a: Vulnerability, b: Vulnerability)
    requires ListedBefore(a, b)
    ensures !ListedBefore(b, a)
  {
    Text.LessTrichotomy(Text.Fold(a.packageName), Text.Fold(b.packageName));
    Text.LessTrichotomy(Text.Fold(OrEmpty(a.installedVersion)), Text.Fold(OrEmpty(b.installedVersion)));
    Text.LessTrichotomy(Text.Fold(a.vulnerabilityId), Text.Fold(b.vulnerabilityId));
  }

  lemma PlaceFirst(m: Vulnerability, s: seq<Vulnerability>)
    requires s != [] && Listed(s) && ListedBefore(m, s[0])
    ensures Listed([m] + s)
  {
    ListedBeforeAsymmetric(m, s[0]);
    forall h | 0 < h < |s| ensures !ListedBefore(s[h], m) { ListedBeforeTransitive(m, s[0], s[h]); }
  }

  lemma PlaceLater(m: Vulnerability, s: seq<Vulnerability>, tail: seq<Vulnerability>)
    requires s != [] && Listed(s) && Listed(tail) && !ListedBefore(m, s[0])
    requires multiset(tail) == multiset(s[1..]) + multiset{m}
    ensures Listed([s[0]] + tail)
    ensures multiset([s[0]] + tail) == multiset(s) + multiset{m}
  {
    assert s == [s[0]] + s[1..];
    forall h | 0 <= h < |tail| ensures !ListedBefore(tail[h], s[0]) {
      assert tail[h] in multiset(tail);
      if tail[h] != m {
        assert tail[h] in multiset(s[1..]);
        var i :| 0 <= i < |s[1..]| && s[1..][i] == tail[h];
        assert s[i + 1] == tail[h];
      }
    }
  }

  /** Puts `m` before the first record it is listed before. */
  function Place(m: Vulnerability, s: seq<Vulnerability>): (r: seq<Vulnerability>)
    requires Listed(s)
    ensures Listed(r)
    ensures multiset(r) == multiset(s) + multiset{m}
  {
    if s == [] then [m]
    else if ListedBefore(m, s[0]) then
      PlaceFirst(m, s);
      [m] + s
    else
      var tail := Place(m, s[1..]);
      PlaceLater(m, s, tail);
      [s[0]] + tail
  }

  /** `sorted(merged, key=…)` */
  function InReportOrder(s: seq<Vulnerability>): (r: seq<Vulnerability>)
    ensures Listed(r) && multiset(r) == multiset(s)
  {
    if s == [] then []
    else
      assert s == s[..|s| - 1] + [s[|s| - 1]];
      Place(s[|s| - 1], InReportOrder(s[..|s| - 1]))
  }

  lemma TwoPlaces(r: seq<Vulnerability>, g: nat, h: nat)
    requires g < h < |r|
    ensures r[g] in multiset(r) && r[h] in multiset(r) && (r[g] == r[h] ==> multiset(r)[r[g]] >= 2)
  {
    assert r == r[..h] + [r[h]] + r[h + 1..];
    assert r[g] in r[..h];
  }

  lemma {:induction false} PlacesOfRepeated(s: seq<Vulnerability>, v: Vulnerability) returns (i: nat, j: nat)
    requires multiset(s)[v] >= 2
    ensures i < j < |s| && s[i] == v && s[j] == v
  {
    var last := |s| - 1;
    assert s == s[..last] + [s[last]];
    if s[last] == v {
      assert v in multiset(s[..last]);
      i :| 0 <= i < last && s[i] == v;
      j := last;
    } else {
      i, j := PlacesOfRepeated(s[..last], v);
    }
  }

  lemma SeparateIsUnordered(s: seq<Vulnerability>, r: seq<Vulnerability>)
    requires multiset(s) == multiset(r) && Separate(s)
    requires forall v | v in s :: Linked(v, v)
    ensures Separate(r)
  {
    forall g, h | 0 <= g < h < |r| ensures !Linked(r[g], r[h]) {
      var a, b := r[g], r[h];
      TwoPlaces(r, g, h);
      assert a in multiset(s) && b in multiset(s);
      if a == b {
        assert multiset(s)[a] >= 2;
        var i, j := PlacesOfRepeated(s, a);
        assert false;
      } else {
        var i :| 0 <= i < |s| && s[i] == a;
        var j :| 0 <= j < |s| && s[j] == b;
        if Linked(a, b) { LinkedIsSymmetric(a, b); }
      }
    }
  }

  lemma SameMembers(s: seq<Vulnerability>, r: seq<Vulnerability>)
    requires multiset(s) == multiset(r)
    ensures forall v :: v in s <==> v in r
  {
    forall v ensures v in s <==> v in r {
      assert v in multiset(s) <==> v in multiset(r);
    }
  }

  lemma PlaceOf(s: seq<Vulnerability>, r: seq<Vulnerability>, g: nat) returns (h: nat)
    requires multiset(s) == multiset(r) && g < |r|
    ensures h < |s| && s[h] == r[g]
  {
    SameMembers(s, r);
    assert r[g] in s;
    h :| 0 <= h < |s| && s[h] == r[g];
  }

  lemma LinkedToItself(v: Vulnerability)
    requires Mergeable(v)
    ensures Linked(v, v)
  {
    assert v.vulnerabilityId in RawIdentifiers(v);
    assert Text.Fold(v.vulnerabilityId) in Identifiers(v);
  }

  lemma UnorderedSeparate(s: seq<Vulnerability>, r: seq<Vulnerability>)
    requires multiset(s) == multiset(r) && Separate(s) && AllMergeable(s)
    ensures Separate(r)
  {
    forall v | v in s ensures Linked(v, v) { LinkedToItself(v); }
    SeparateIsUnordered(s, r);
  }

  lemma HasMergeIn(items: seq<Vulnerability>, i: nat, s: seq<Vulnerability>, r: seq<Vulnerability>)
    requires i < |items| && HasMerge(items, i, s) && forall v :: v in s ==> v in r
    ensures HasMerge(items, i, r)
  {
  }

  /** Reordering a merge leaves it a merge. */
  lemma MergeIsUnordered(items: seq<Vulnerability>, s: seq<Vulnerability>, r: seq<Vulnerability>)
    requires IsMerge(items, s) && multiset(s) == multiset(r)
    ensures IsMerge(items, r)
  {
    SameMembers(s, r);
    UnorderedSeparate(s, r);
    forall g | 0 <= g < |r| ensures HasClass(items, r[g]) && Mergeable(r[g]) {
      var h := PlaceOf(s, r, g);
    }
    forall i | 0 <= i < |items| ensures HasMerge(items, i, r) {
      HasMergeIn(items, i, s, r);
    }
  }

  /** `merge_vulnerabilities`; no result when there are too many records. */
  method MergeVulnerabilities(records: seq<Vulnerability>) returns (merged: Option<seq<Vulnerability>>)
    requires AllMergeable(records)
    ensures merged.None? <==> |records| > MAX_RECORDS
    ensures merged.Some? ==> IsMerge(records, merged.value) && Listed(merged.value) && |merged.value| <= |records|
  {
    if |records| > MAX_RECORDS {
      return None;
    }
    if records == [] {
      return Some([]);
    }
    var parents := IndexRecords(records);
    ghost var p := parents[..];
    var grouped := GroupByRoot(records, parents);
    var groups := MergeGroups(records, grouped, p);
    MergeIsUnordered(records, groups, InReportOrder(groups));
    assert |multiset(groups)| == |groups|;
    assert |multiset(InReportOrder(groups))| == |InReportOrder(groups)|;
    merged := Some(InReportOrder(groups));
  }
}
