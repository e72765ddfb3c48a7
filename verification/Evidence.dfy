/**
  What a merged vulnerability record says about its group: `Aggregates(e, S)` states each
  field of the merged evidence `e` in terms of the group's evidence `S`. Merging in stages
  (`AggregateNested`) gives the same evidence as merging at once (`AggregateUnique`).
*/
module Evidence {
  import opened Prelude
  import opened Connectivity
  import Text

  const MAX_VERSIONS: nat := 512
  const MAX_REFERENCES: nat := 128

  /** The part of a record that merging combines without regard to the order of the input. */
  datatype Evidence = Evidence(
    identifiers: set<string>,
    severity: Severity,
    cvssScore: Option<real>,
    exploitability: Option<real>,
    knownExploited: bool,
    summary: Option<string>,
    affected: set<string>,
    fixed: set<string>,
    references: set<string>,
    detectedAt: int)

  /** An empty summary counts as none. */
  function Spoken(summary: Option<string>): Option<string> {
    if summary == Some("") then None else summary
  }

  ghost function EvidenceOf(v: Vulnerability): Evidence {
    Evidence(RawIdentifiers(v), v.severity, v.cvssScore, v.exploitability, v.knownExploited, Spoken(v.summary),
             Text.Elements(v.affectedVersions), Text.Elements(v.fixedVersions), Text.Elements(v.references),
                 v.detectedAt)
  }

  function Rank(s: Severity): nat {
    match s
    case Info => 0
    case Low => 1
    case Medium => 2
    case High => 3
    case Critical => 4
  }

  predicate ScoreAtMost(a: Option<real>, b: Option<real>) {
    a.None? || (b.Some? && a.value <= b.value)
  }

  /** The order of `max(summaries, key=lambda value: (len(value), value))`, below it no summary. */
  predicate SummaryAtMost(a: Option<string>, b: Option<string>) {
    a.None? || (b.Some? && (|a.value| < |b.value| || (|a.value| == |b.value| && !Text.Less(b.value, a.value))))
  }

  /** The size limits and the non-blank identifier that record validation guarantees. */
  ghost predicate Bounded(e: Evidence) {
    && e.identifiers != {}
    && |e.affected| <= MAX_VERSIONS && |e.fixed| <= MAX_VERSIONS && |e.references| <= MAX_REFERENCES
    && e.summary != Some("")
  }

  ghost predicate HighestSeverity(top: Severity, S: set<Evidence>) {
    && (exists s :: s in S && s.severity == top)
    && (forall s | s in S :: Rank(s.severity) <= Rank(top))
  }

  ghost predicate HighestScore(top: Option<real>, S: set<Evidence>, field: Evidence -> Option<real>) {
    && (exists s :: s in S && field(s) == top)
    && (forall s | s in S :: ScoreAtMost(field(s), top))
  }

  ghost predicate LongestSummary(top: Option<string>, S: set<Evidence>) {
    && (exists s :: s in S && s.summary == top)
    && (forall s | s in S :: SummaryAtMost(s.summary, top))
  }

  ghost predicate Earliest(first: int, S: set<Evidence>) {
    && (exists s :: s in S && s.detectedAt == first)
    && (forall s | s in S :: first <= s.detectedAt)
  }

  ghost function UnionOf(S: set<Evidence>, field: Evidence -> set<string>): set<string> {
    set s, x | s in S && x in field(s) :: x
  }

  ghost const IdentifierField := (e: Evidence) => e.identifiers
  ghost const AffectedField := (e: Evidence) => e.affected
  ghost const FixedField := (e: Evidence) => e.fixed
  ghost const ReferenceField := (e: Evidence) => e.references
  ghost const CvssField := (e: Evidence) => e.cvssScore
  ghost const ExploitabilityField := (e: Evidence) => e.exploitability

  /** `e` is the merged evidence of the group `S`. */
  ghost predicate Aggregates(e: Evidence, S: set<Evidence>) {
    && e.identifiers == UnionOf(S, IdentifierField)
    && HighestSeverity(e.severity, S)
    && HighestScore(e.cvssScore, S, CvssField)
    && HighestScore(e.exploitability, S, ExploitabilityField)
    && (e.knownExploited <==> exists s :: s in S && s.knownExploited)
    && LongestSummary(e.summary, S)
    && Text.Smallest(MAX_VERSIONS, e.affected, UnionOf(S, AffectedField))
    && Text.Smallest(MAX_VERSIONS, e.fixed, UnionOf(S, FixedField))
    && Text.Smallest(MAX_REFERENCES, e.references, UnionOf(S, ReferenceField))
    && Earliest(e.detectedAt, S)
  }

  lemma SummaryOrder(a: Option<string>, b: Option<string>, c: Option<string>)
    ensures SummaryAtMost(a, b) && SummaryAtMost(b, c) ==> SummaryAtMost(a, c)
    ensures SummaryAtMost(a, b) && SummaryAtMost(b, a) ==> a == b
    ensures SummaryAtMost(a, b) || SummaryAtMost(b, a)
  {
    if a.Some? && b.Some? { Text.LessTrichotomy(a.value, b.value); }
    if b.Some? && c.Some? { Text.LessTrichotomy(b.value, c.value); }
    if a.Some? && b.Some? && c.Some? && Text.Less(c.value, a.value) {
      if Text.Less(a.value, b.value) { Text.LessTransitive(c.value, a.value, b.value); }
    }
  }

  lemma SmallestUnique(n: nat, a: set<string>, b: set<string>, all: set<string>)
    requires Text.Smallest(n, a, all) && Text.Smallest(n, b, all)
    ensures a == b
  {
    Text.CoversAntisymmetric(n, a, b);
  }

  /** A group has only one merged evidence. */
  lemma AggregateUnique(e: Evidence, f: Evidence, S: set<Evidence>)
    requires Aggregates(e, S) && Aggregates(f, S)
    ensures e == f
  {
    SummaryOrder(e.summary, f.summary, e.summary);
    SmallestUnique(MAX_VERSIONS, e.affected, f.affected, UnionOf(S, AffectedField));
    SmallestUnique(MAX_VERSIONS, e.fixed, f.fixed, UnionOf(S, FixedField));
    SmallestUnique(MAX_REFERENCES, e.references, f.references, UnionOf(S, ReferenceField));
  }

  /** One record on its own is its own merged evidence. */
  lemma AggregateSingleton(e: Evidence)
    requires Bounded(e)
    ensures Aggregates(e, {e})
  {
    var S := {e};
    assert e in S;
    SummaryOrder(e.summary, e.summary, e.summary);
    forall field: Evidence -> set<string> ensures UnionOf(S, field) == field(e) {}
  }

  /** One of the groups merged first, with its merged evidence. */
  datatype Stage = Stage(merged: Evidence, members: set<Evidence>)

  ghost function MergedOf(stages: set<Stage>): set<Evidence> {
    set t | t in stages :: t.merged
  }

  ghost predicate InSomeStage(s: Evidence, stages: set<Stage>) {
    exists t :: t in stages && s in t.members
  }

  /** The stages together make up all of `S`. */
  ghost predicate Divided(stages: set<Stage>, S: set<Evidence>) {
    && (forall t | t in stages :: t.members <= S)
    && (forall s {:trigger InSomeStage(s, stages)} | s in S :: InSomeStage(s, stages))
  }

  lemma NestedSmallest(n: nat, kept: set<string>, stages: set<Stage>, S: set<Evidence>, field: Evidence -> set<string>)
    requires Divided(stages, S) && Text.Smallest(n, kept, UnionOf(MergedOf(stages), field))
    requires forall t | t in stages :: Text.Smallest(n, field(t.merged), UnionOf(t.members, field))
    ensures Text.Smallest(n, kept, UnionOf(S, field))
  {
    forall x | x in kept ensures x in UnionOf(S, field) {
      var t :| t in stages && x in field(t.merged);
      var s: Evidence :| s in t.members && x in field(s);
    }
    forall x | x in UnionOf(S, field) ensures x in kept || Text.Above(n, x, kept) {
      var s: Evidence :| s in S && x in field(s);
      assert InSomeStage(s, stages);
      var t :| t in stages && s in t.members;
      assert t.merged in MergedOf(stages);
      assert field(t.merged) <= UnionOf(MergedOf(stages), field);
      Text.CoversTransitive(n, UnionOf(t.members, field), field(t.merged), kept);
    }
  }

  lemma NestedUnion(stages: set<Stage>, S: set<Evidence>, field: Evidence -> set<string>)
    requires Divided(stages, S)
    requires forall t | t in stages :: field(t.merged) == UnionOf(t.members, field)
    ensures UnionOf(MergedOf(stages), field) == UnionOf(S, field)
  {
    forall x | x in UnionOf(MergedOf(stages), field) ensures x in UnionOf(S, field) {
      var t :| t in stages && x in field(t.merged);
      var s: Evidence :| s in t.members && x in field(s);
    }
    forall x | x in UnionOf(S, field) ensures x in UnionOf(MergedOf(stages), field) {
      var s: Evidence :| s in S && x in field(s);
      assert InSomeStage(s, stages);
      var t :| t in stages && s in t.members;
      assert x in UnionOf(t.members, field);
      assert t.merged in MergedOf(stages);
    }
  }

  lemma NestedSeverity(top: Severity, stages: set<Stage>, S: set<Evidence>)
    requires Divided(stages, S) && HighestSeverity(top, MergedOf(stages))
    requires forall t | t in stages :: HighestSeverity(t.merged.severity, t.members)
    ensures HighestSeverity(top, S)
  {
    var t :| t in stages && t.merged.severity == top;
    var s: Evidence :| s in t.members && s.severity == top;
    assert s in S;
    forall s | s in S ensures Rank(s.severity) <= Rank(top) {
      assert InSomeStage(s, stages);
      var t :| t in stages && s in t.members;
      assert t.merged in MergedOf(stages);
    }
  }

  lemma NestedScore(top: Option<real>, stages: set<Stage>, S: set<Evidence>, field: Evidence -> Option<real>)
    requires Divided(stages, S) && HighestScore(top, MergedOf(stages), field)
    requires forall t | t in stages :: HighestScore(field(t.merged), t.members, field)
    ensures HighestScore(top, S, field)
  {
    var t :| t in stages && field(t.merged) == top;
    var s: Evidence :| s in t.members && field(s) == top;
    assert s in S;
    forall s | s in S ensures ScoreAtMost(field(s), top) {
      assert InSomeStage(s, stages);
      var t :| t in stages && s in t.members;
      assert t.merged in MergedOf(stages);
    }
  }

  lemma NestedSummary(top: Option<string>, stages: set<Stage>, S: set<Evidence>)
    requires Divided(stages, S) && LongestSummary(top, MergedOf(stages))
    requires forall t | t in stages :: LongestSummary(t.merged.summary, t.members)
    ensures LongestSummary(top, S)
  {
    var t :| t in stages && t.merged.summary == top;
    var s: Evidence :| s in t.members && s.summary == top;
    assert s in S;
    forall s | s in S ensures SummaryAtMost(s.summary, top) {
      assert InSomeStage(s, stages);
      var t :| t in stages && s in t.members;
      assert t.merged in MergedOf(stages);
      SummaryOrder(s.summary, t.merged.summary, top);
    }
  }

  lemma NestedEarliest(first: int, stages: set<Stage>, S: set<Evidence>)
    requires Divided(stages, S) && Earliest(first, MergedOf(stages))
    requires forall t | t in stages :: Earliest(t.merged.detectedAt, t.members)
    ensures Earliest(first, S)
  {
    var t :| t in stages && t.merged.detectedAt == first;
    var s: Evidence :| s in t.members && s.detectedAt == first;
    assert s in S;
    forall s | s in S ensures first <= s.detectedAt {
      assert InSomeStage(s, stages);
      var t :| t in stages && s in t.members;
      assert t.merged in MergedOf(stages);
    }
  }

  lemma NestedExploited(stages: set<Stage>, S: set<Evidence>)
    requires Divided(stages, S)
    requires forall t | t in stages :: t.merged.knownExploited <==> exists s :: s in t.members && s.knownExploited
    ensures (exists t :: t in MergedOf(stages) && t.knownExploited) <==> exists s :: s in S && s.knownExploited
  {
    if t :| t in stages && t.merged.knownExploited {
      var s: Evidence :| s in t.members && s.knownExploited;
      assert s in S;
    }
    if s :| s in S && s.knownExploited {
      assert InSomeStage(s, stages);
      var t :| t in stages && s in t.members;
      assert t.merged.knownExploited && t.merged in MergedOf(stages);
    }
  }

  /** Merging merged groups is merging everything: `merge(merge(A) + B)` loses and adds nothing. */
  lemma AggregateNested(e: Evidence, stages: set<Stage>, S: set<Evidence>)
    requires Divided(stages, S) && Aggregates(e, MergedOf(stages))
    requires forall t | t in stages :: Aggregates(t.merged, t.members)
    ensures Aggregates(e, S)
  {
    NestedUnion(stages, S, IdentifierField);
    NestedSeverity(e.severity, stages, S);
    NestedScore(e.cvssScore, stages, S, CvssField);
    NestedScore(e.exploitability, stages, S, ExploitabilityField);
    NestedExploited(stages, S);
    NestedSummary(e.summary, stages, S);
    NestedSmallest(MAX_VERSIONS, e.affected, stages, S, AffectedField);
    NestedSmallest(MAX_VERSIONS, e.fixed, stages, S, FixedField);
    NestedSmallest(MAX_REFERENCES, e.references, stages, S, ReferenceField);
    NestedEarliest(e.detectedAt, stages, S);
  }
}
