/**
  The laws the pipeline relies on when it merges records tool by tool and then once more for
  the final report: merging in stages is merging at once, merging again changes nothing, and
  every input has one result up to the order of records and the fields taken from the record
  reported first.
*/
module MergeLaws {
  import opened Prelude
  import opened Connectivity
  import opened Evidence
  import opened VulnerabilityMerge
  import Text

  /** The position in `merged` of the record that stands for input `i`. */
  ghost function PositionOf(items: seq<Vulnerability>, merged: seq<Vulnerability>, i: nat): (g: nat)
    requires i < |items| && IsMerge(items, merged)
    ensures g < |merged| && IsClassMerge(items, i, merged[g])
  {
    assert HasMerge(items, i, merged);
    var g :| 0 <= g < |merged| && IsClassMerge(items, i, merged[g]);
    g
  }

  /** Where input `i` of `a + b` is found in `merged + b`. */
  ghost function StagedPosition(a: seq<Vulnerability>, merged: seq<Vulnerability>, b: seq<Vulnerability>,
          i: nat): (u: nat)
    requires IsMerge(a, merged) && i < |a + b|
    ensures u < |merged + b|
  {
    if i < |a| then PositionOf(a, merged, i) else |merged| + (i - |a|)
  }

  lemma SameClassLinked(items: seq<Vulnerability>, i: nat, m: Vulnerability, n: Vulnerability)
    requires i < |items| && IsClassMerge(items, i, m) && IsClassMerge(items, i, n) && Mergeable(m)
    ensures Linked(m, n) && Linked(n, m)
  {
    AggregateUnique(EvidenceOf(m), EvidenceOf(n), Members(items, i));
    assert RawIdentifiers(m) == RawIdentifiers(n);
    LinkedToItself(m);
  }

  lemma MergedOnce(items: seq<Vulnerability>, merged: seq<Vulnerability>, i: nat, g: nat)
    requires IsMerge(items, merged) && i < |items| && g < |merged| && IsClassMerge(items, i, merged[g])
    ensures PositionOf(items, merged, i) == g
  {
    var h := PositionOf(items, merged, i);
    SameClassLinked(items, i, merged[g], merged[h]);
  }

  /** Inputs with one position in the merged list are connected. */
  lemma SamePositionConnected(items: seq<Vulnerability>, merged: seq<Vulnerability>, i: nat, j: nat)
    requires IsMerge(items, merged) && i < |items| && j < |items|
    requires PositionOf(items, merged, i) == PositionOf(items, merged, j)
    ensures Connected(items, i, j)
  {
    hide IsMergeOf, Linked, Connected;
    var m := merged[PositionOf(items, merged, i)];
    assert Mergeable(m);
    LinkedToItself(m);
    LinkedMergesShareClass(items, i, m, j, m);
  }

  /** Every record of `merged + b` stands for some input of `a + b`. */
  lemma SomeInputAt(a: seq<Vulnerability>, merged: seq<Vulnerability>, b: seq<Vulnerability>, u: nat) returns (i: nat)
    requires IsMerge(a, merged) && u < |merged + b|
    ensures i < |a + b| && StagedPosition(a, merged, b, i) == u
  {
    if u < |merged| {
      assert HasClass(a, merged[u]);
      i :| 0 <= i < |a| && IsClassMerge(a, i, merged[u]);
      MergedOnce(a, merged, i, u);
    } else {
      i := |a| + (u - |merged|);
    }
  }

  lemma PositionTaken(a: seq<Vulnerability>, merged: seq<Vulnerability>, b: seq<Vulnerability>, u: nat)
    requires IsMerge(a, merged) && u < |merged + b|
    ensures exists k :: 0 <= k < |a + b| && StagedPosition(a, merged, b, k) == u
  {
    var i := SomeInputAt(a, merged, b, u);
  }

  lemma IdentifiersAtPosition(a: seq<Vulnerability>, merged: seq<Vulnerability>, b: seq<Vulnerability>, i: nat)
    requires IsMerge(a, merged) && i < |a + b|
    ensures var u := StagedPosition(a, merged, b, i);
            Identifiers((a + b)[i]) <= Identifiers((merged + b)[u])
                && PackageKeyOf((a + b)[i]) == PackageKeyOf((merged + b)[u])
  {
    hide Identifiers, PackageKeyOf;
    if i < |a| {
      IdentifiersKept(a, i, merged[PositionOf(a, merged, i)]);
    }
  }

  lemma InputOfMerged(a: seq<Vulnerability>, merged: seq<Vulnerability>, u: nat, x: string) returns (i: nat)
    requires IsMerge(a, merged) && u < |merged| && x in Identifiers(merged[u])
    ensures i < |a| && PositionOf(a, merged, i) == u && x in Identifiers(a[i])
            && PackageKeyOf(a[i]) == PackageKeyOf(merged[u])
  {
    hide Identifiers, PackageKeyOf, IsClassMerge, Linked, Mergeable;
    assert HasClass(a, merged[u]);
    var j :| 0 <= j < |a| && IsClassMerge(a, j, merged[u]);
    i := IdentifierSource(a, j, merged[u], x);
    MembersOfConnected(a, j, i);
    MergedOnce(a, merged, i, u);
  }

  /** An identifier of a staged record belongs to some input at its position. */
  lemma InputWithIdentifier(a: seq<Vulnerability>, merged: seq<Vulnerability>, b: seq<Vulnerability>, u: nat,
          x: string) returns (i: nat)
    requires IsMerge(a, merged) && u < |merged + b| && x in Identifiers((merged + b)[u])
    ensures i < |a + b| && StagedPosition(a, merged, b, i) == u && x in Identifiers((a + b)[i])
    ensures PackageKeyOf((a + b)[i]) == PackageKeyOf((merged + b)[u])
  {
    hide Identifiers, PackageKeyOf;
    var j := SomeInputAt(a, merged, b, u);
    if u < |merged| {
      i := InputOfMerged(a, merged, u, x);
    } else {
      i := j;
    }
  }

  /** Restricting a colouring of `a + b` to `a` keeps it one. */
  lemma RestrictColour(a: seq<Vulnerability>, b: seq<Vulnerability>, colour: seq<int>)
    requires Respects(a + b, colour)
    ensures Respects(a, colour[..|a|])
  {
    hide Linked;
    forall i, j | 0 <= i < |a| && 0 <= j < |a| && Linked(a[i], a[j]) ensures colour[..|a|][i] == colour[..|a|][j] {
      assert (a + b)[i] == a[i] && (a + b)[j] == a[j];
    }
  }

  lemma ColourIsConstantAtPosition(a: seq<Vulnerability>, merged: seq<Vulnerability>, b: seq<Vulnerability>,
          colour: seq<int>, i: nat, j: nat)
    requires IsMerge(a, merged) && |colour| == |a + b| && Respects(a + b, colour) && i < |a + b| && j < |a + b|
    requires StagedPosition(a, merged, b, i) == StagedPosition(a, merged, b, j)
    ensures colour[i] == colour[j]
  {
    hide IsMerge, IsClassMerge, Respects;
    if i < |a| && j < |a| {
      RestrictColour(a, b, colour);
      SamePositionConnected(a, merged, i, j);
      var restricted := colour[..|a|];
      assert restricted[i] == restricted[j];
    }
  }

  ghost function PullBack(a: seq<Vulnerability>, merged: seq<Vulnerability>, b: seq<Vulnerability>,
          colour: seq<int>): (pulled: seq<int>)
    requires IsMerge(a, merged) && |colour| == |merged + b|
    ensures |pulled| == |a + b|
    ensures forall k | 0 <= k < |a + b| :: pulled[k] == colour[StagedPosition(a, merged, b, k)]
  {
    seq(|a + b|, k requires 0 <= k < |a + b| => colour[StagedPosition(a, merged, b, k)])
  }

  lemma PullBackRespects(a: seq<Vulnerability>, merged: seq<Vulnerability>, b: seq<Vulnerability>, colour: seq<int>)
    requires IsMerge(a, merged) && Respects(merged + b, colour)
    ensures Respects(a + b, PullBack(a, merged, b, colour))
  {
    hide IsMerge, IsClassMerge, Identifiers, PackageKeyOf;
    var (all, staged, pulled) := (a + b, merged + b, PullBack(a, merged, b, colour));
    forall k, l | 0 <= k < |all| && 0 <= l < |all| && Linked(all[k], all[l]) ensures pulled[k] == pulled[l] {
      IdentifiersAtPosition(a, merged, b, k);
      IdentifiersAtPosition(a, merged, b, l);
      var u, v := StagedPosition(a, merged, b, k), StagedPosition(a, merged, b, l);
      var x :| x in Identifiers(all[k]) && x in Identifiers(all[l]);
      assert Linked(staged[u], staged[v]);
    }
  }

  /** A connection among the inputs is a connection among the staged records. */
  lemma ConnectionSurvives(a: seq<Vulnerability>, merged: seq<Vulnerability>, b: seq<Vulnerability>, i: nat, j: nat)
    requires IsMerge(a, merged) && i < |a + b| && j < |a + b| && Connected(a + b, i, j)
    ensures Connected(merged + b, StagedPosition(a, merged, b, i), StagedPosition(a, merged, b, j))
  {
    var (all, staged) := (a + b, merged + b);
    forall colour | Respects(staged, colour)
      ensures colour[StagedPosition(a, merged, b, i)] == colour[StagedPosition(a, merged, b, j)]
    {
      PullBackRespects(a, merged, b, colour);
      var pulled := PullBack(a, merged, b, colour);
      assert pulled[i] == pulled[j];
    }
  }

  ghost function ColourAt(a: seq<Vulnerability>, merged: seq<Vulnerability>, b: seq<Vulnerability>, colour: seq<int>,
          u: nat): int
    requires IsMerge(a, merged) && |colour| == |a + b| && u < |merged + b|
  {
    PositionTaken(a, merged, b, u);
    var k :| 0 <= k < |a + b| && StagedPosition(a, merged, b, k) == u;
    colour[k]
  }

  /** The colour of some input at each position. */
  ghost function PushForward(a: seq<Vulnerability>, merged: seq<Vulnerability>, b: seq<Vulnerability>,
          colour: seq<int>): (pushed: seq<int>)
    requires IsMerge(a, merged) && |colour| == |a + b|
    ensures |pushed| == |merged + b|
  {
    seq(|merged + b|, u requires 0 <= u < |merged + b| => ColourAt(a, merged, b, colour, u))
  }

  lemma PushForwardAt(a: seq<Vulnerability>, merged: seq<Vulnerability>, b: seq<Vulnerability>, colour: seq<int>,
          i: nat)
    requires IsMerge(a, merged) && |colour| == |a + b| && Respects(a + b, colour) && i < |a + b|
    ensures PushForward(a, merged, b, colour)[StagedPosition(a, merged, b, i)] == colour[i]
  {
    hide IsMerge, IsClassMerge, Respects;
    var u := StagedPosition(a, merged, b, i);
    PositionTaken(a, merged, b, u);
    var k :| 0 <= k < |a + b| && StagedPosition(a, merged, b, k) == u && ColourAt(a, merged, b, colour, u) == colour[k];
    ColourIsConstantAtPosition(a, merged, b, colour, i, k);
  }

  lemma PushForwardRespects(a: seq<Vulnerability>, merged: seq<Vulnerability>, b: seq<Vulnerability>, colour: seq<int>)
    requires IsMerge(a, merged) && Respects(a + b, colour)
    ensures Respects(merged + b, PushForward(a, merged, b, colour))
  {
    hide IsMerge, IsClassMerge, Identifiers, PackageKeyOf, PushForward;
    var (all, staged, pushed) := (a + b, merged + b, PushForward(a, merged, b, colour));
    forall u, v | 0 <= u < |staged| && 0 <= v < |staged| && Linked(staged[u], staged[v])
        ensures pushed[u] == pushed[v] {
      var x :| x in Identifiers(staged[u]) && x in Identifiers(staged[v]);
      var i := InputWithIdentifier(a, merged, b, u, x);
      var j := InputWithIdentifier(a, merged, b, v, x);
      assert Linked(all[i], all[j]);
      PushForwardAt(a, merged, b, colour, i);
      PushForwardAt(a, merged, b, colour, j);
    }
  }

  /** A connection among the staged records comes from one among the inputs. */
  lemma ConnectionReflects(a: seq<Vulnerability>, merged: seq<Vulnerability>, b: seq<Vulnerability>, i: nat, j: nat)
    requires IsMerge(a, merged) && i < |a + b| && j < |a + b|
    requires Connected(merged + b, StagedPosition(a, merged, b, i), StagedPosition(a, merged, b, j))
    ensures Connected(a + b, i, j)
  {
    hide IsMerge, IsClassMerge, Linked;
    forall colour | Respects(a + b, colour) ensures colour[i] == colour[j] {
      var u, v := StagedPosition(a, merged, b, i), StagedPosition(a, merged, b, j);
      var pushed := PushForward(a, merged, b, colour);
      PushForwardAt(a, merged, b, colour, i);
      PushForwardAt(a, merged, b, colour, j);
      PushForwardRespects(a, merged, b, colour);
      assert pushed[u] == pushed[v];
    }
  }

  /** The inputs behind position `v`, as evidence. */
  ghost function StageAt(a: seq<Vulnerability>, merged: seq<Vulnerability>, b: seq<Vulnerability>,
          v: nat): (stage: Stage)
    requires IsMerge(a, merged) && v < |merged + b|
    ensures stage.merged == EvidenceOf((merged + b)[v])
    ensures v < |merged| ==> exists j :: 0 <= j < |a| && IsClassMerge(a, j, merged[v]) && stage.members == Members(a, j)
  {
    var t := EvidenceOf((merged + b)[v]);
    if v < |merged| then
      assert HasClass(a, merged[v]);
      var j :| 0 <= j < |a| && IsClassMerge(a, j, merged[v]);
      Stage(t, Members(a, j))
    else Stage(t, {t})
  }

  lemma StageAggregates(a: seq<Vulnerability>, merged: seq<Vulnerability>, b: seq<Vulnerability>, v: nat)
    requires IsMerge(a, merged) && AllMergeable(b) && v < |merged + b|
    ensures Aggregates(StageAt(a, merged, b, v).merged, StageAt(a, merged, b, v).members)
  {
    hide Aggregates;
    if v >= |merged| {
      assert (merged + b)[v] == b[v - |merged|];
      AggregateSingleton(EvidenceOf((merged + b)[v]));
    }
  }

  lemma LinkedPositions(a: seq<Vulnerability>, merged: seq<Vulnerability>, j: nat, k: nat)
    requires IsMerge(a, merged) && j < |a| && k < |a| && IsClassMerge(a, j, merged[PositionOf(a, merged, k)])
    ensures Connected(a, j, k)
  {
    hide IsMergeOf, Connected;
    MergedOnce(a, merged, j, PositionOf(a, merged, k));
    SamePositionConnected(a, merged, j, k);
  }

  /** The members of a stage are the inputs at its position. */
  lemma StageMembers(a: seq<Vulnerability>, merged: seq<Vulnerability>, b: seq<Vulnerability>, v: nat, e: Evidence)
    requires IsMerge(a, merged) && v < |merged + b|
    ensures e in StageAt(a, merged, b, v).members <==>
            exists k :: 0 <= k < |a + b| && StagedPosition(a, merged, b, k) == v && EvidenceOf((a + b)[k]) == e
  {
    hide IsMerge, IsMergeOf, EvidenceOf;
    if v < |merged| {
      var stage := StageAt(a, merged, b, v);
      var j :| 0 <= j < |a| && IsClassMerge(a, j, merged[v]) && stage.members == Members(a, j);
      if e in Members(a, j) {
        var k :| 0 <= k < |a| && Connected(a, j, k) && EvidenceOf(a[k]) == e;
        MembersOfConnected(a, j, k);
        MergedOnce(a, merged, k, v);
        assert StagedPosition(a, merged, b, k) == v && (a + b)[k] == a[k];
      }
      if k :| 0 <= k < |a + b| && StagedPosition(a, merged, b, k) == v && EvidenceOf((a + b)[k]) == e {
        LinkedPositions(a, merged, j, k);
      }
    } else {
      var k := |a| + (v - |merged|);
      assert (a + b)[k] == (merged + b)[v] && StagedPosition(a, merged, b, k) == v;
    }
  }

  /** The stages of the records connected to position `u`. */
  ghost function StagesOf(a: seq<Vulnerability>, merged: seq<Vulnerability>, b: seq<Vulnerability>, u: nat): set<Stage>
    requires IsMerge(a, merged) && u < |merged + b|
  {
    set v | 0 <= v < |merged + b| && Connected(merged + b, u, v) :: StageAt(a, merged, b, v)
  }

  lemma StagesDivide(a: seq<Vulnerability>, merged: seq<Vulnerability>, b: seq<Vulnerability>, i: nat)
    requires IsMerge(a, merged) && i < |a + b|
    ensures Divided(StagesOf(a, merged, b, StagedPosition(a, merged, b, i)), Members(a + b, i))
    ensures MergedOf(StagesOf(a, merged, b, StagedPosition(a, merged, b, i)))
            == Members(merged + b, StagedPosition(a, merged, b, i))
  {
    hide IsMerge, IsMergeOf, EvidenceOf, StageAt, StagedPosition, Connected;
    var u := StagedPosition(a, merged, b, i);
    var stages := StagesOf(a, merged, b, u);
    forall t, s | t in stages && s in t.members ensures s in Members(a + b, i) {
      var v :| 0 <= v < |merged + b| && Connected(merged + b, u, v) && StageAt(a, merged, b, v) == t;
      StageMembers(a, merged, b, v, s);
      var k :| 0 <= k < |a + b| && StagedPosition(a, merged, b, k) == v && EvidenceOf((a + b)[k]) == s;
      ConnectionReflects(a, merged, b, i, k);
    }
    forall s | s in Members(a + b, i) ensures InSomeStage(s, stages) {
      var k :| 0 <= k < |a + b| && Connected(a + b, i, k) && EvidenceOf((a + b)[k]) == s;
      ConnectionSurvives(a, merged, b, i, k);
      var v := StagedPosition(a, merged, b, k);
      StageMembers(a, merged, b, v, s);
      assert StageAt(a, merged, b, v) in stages;
    }
    forall e ensures e in MergedOf(stages) <==> e in Members(merged + b, u) {
      if e in Members(merged + b, u) {
        var v :| 0 <= v < |merged + b| && Connected(merged + b, u, v) && EvidenceOf((merged + b)[v]) == e;
        assert StageAt(a, merged, b, v) in stages;
      }
    }
  }

  /** A class of the staged records merges to what the class of the inputs merges to. */
  lemma StagedClassMerge(a: seq<Vulnerability>, merged: seq<Vulnerability>, b: seq<Vulnerability>, i: nat,
          m: Vulnerability)
    requires IsMerge(a, merged) && AllMergeable(b) && i < |a + b|
    requires IsClassMerge(merged + b, StagedPosition(a, merged, b, i), m)
    ensures IsClassMerge(a + b, i, m)
  {
    hide IsMerge, Aggregates, EvidenceOf, StageAt, StagedPosition, Connected, AllMergeable, Divided;
    var u := StagedPosition(a, merged, b, i);
    var stages := StagesOf(a, merged, b, u);
    StagesDivide(a, merged, b, i);
    forall t | t in stages ensures Aggregates(t.merged, t.members) {
      var v :| 0 <= v < |merged + b| && Connected(merged + b, u, v) && StageAt(a, merged, b, v) == t;
      StageAggregates(a, merged, b, v);
    }
    AggregateNested(EvidenceOf(m), stages, Members(a + b, i));
    IdentifiersAtPosition(a, merged, b, i);
  }

  lemma FinalHasClass(a: seq<Vulnerability>, merged: seq<Vulnerability>, b: seq<Vulnerability>,
          final: seq<Vulnerability>, h: nat)
    requires AllMergeable(b) && IsMerge(a, merged) && IsMerge(merged + b, final) && h < |final|
    ensures HasClass(a + b, final[h])
  {
    hide IsMergeOf, AllMergeable, Separate;
    assert HasClass(merged + b, final[h]);
    var u :| 0 <= u < |merged + b| && IsClassMerge(merged + b, u, final[h]);
    var i := SomeInputAt(a, merged, b, u);
    StagedClassMerge(a, merged, b, i, final[h]);
  }

  lemma InputHasFinal(a: seq<Vulnerability>, merged: seq<Vulnerability>, b: seq<Vulnerability>,
          final: seq<Vulnerability>, i: nat)
    requires AllMergeable(b) && IsMerge(a, merged) && IsMerge(merged + b, final) && i < |a + b|
    ensures HasMerge(a + b, i, final)
  {
    hide IsMergeOf, AllMergeable, Separate;
    var u := StagedPosition(a, merged, b, i);
    assert HasMerge(merged + b, u, final);
    var m :| m in final && IsClassMerge(merged + b, u, m);
    StagedClassMerge(a, merged, b, i, m);
  }

  /** Incremental merge equals one-shot merge: `merge(merge(a) + b)` is a merge of `a + b`. */
  lemma IncrementalMerge(a: seq<Vulnerability>, merged: seq<Vulnerability>, b: seq<Vulnerability>,
          final: seq<Vulnerability>)
    requires AllMergeable(b) && IsMerge(a, merged) && IsMerge(merged + b, final)
    ensures IsMerge(a + b, final)
  {
    forall h | 0 <= h < |final| ensures HasClass(a + b, final[h]) {
      FinalHasClass(a, merged, b, final, h);
    }
    forall i | 0 <= i < |a + b| ensures HasMerge(a + b, i, final) {
      InputHasFinal(a, merged, b, final, i);
    }
  }

  /** What a merged record says, apart from the fields copied from the record reported first. */
  type Verdict = (PackageKey, Evidence)

  ghost function VerdictOf(m: Vulnerability): Verdict {
    (PackageKeyOf(m), EvidenceOf(m))
  }

  ghost function Verdicts(merged: seq<Vulnerability>): set<Verdict> {
    set m | m in merged :: VerdictOf(m)
  }

  lemma VerdictShared(items: seq<Vulnerability>, s: seq<Vulnerability>, r: seq<Vulnerability>, m: Vulnerability)
    requires IsMerge(items, s) && IsMerge(items, r) && m in s
    ensures VerdictOf(m) in Verdicts(r)
  {
    hide Aggregates, EvidenceOf, PackageKeyOf, AllMergeable, Separate;
    var g :| 0 <= g < |s| && s[g] == m;
    assert HasClass(items, s[g]);
    var i :| 0 <= i < |items| && IsClassMerge(items, i, m);
    assert HasMerge(items, i, r);
    var n :| n in r && IsClassMerge(items, i, n);
    AggregateUnique(EvidenceOf(m), EvidenceOf(n), Members(items, i));
  }

  lemma VerdictsWithin(items: seq<Vulnerability>, s: seq<Vulnerability>, r: seq<Vulnerability>)
    requires IsMerge(items, s) && IsMerge(items, r)
    ensures Verdicts(s) <= Verdicts(r)
  {
    forall v | v in Verdicts(s) ensures v in Verdicts(r) {
      var m :| m in s && VerdictOf(m) == v;
      VerdictShared(items, s, r, m);
    }
  }

  lemma EqualVerdictsLinked(m: Vulnerability, n: Vulnerability)
    requires Mergeable(m)
    ensures VerdictOf(m) == VerdictOf(n) ==> Linked(m, n)
  {
    LinkedToItself(m);
  }

  lemma {:induction false} VerdictCount(merged: seq<Vulnerability>)
    requires Separate(merged) && AllMergeable(merged)
    ensures |Verdicts(merged)| == |merged|
  {
    hide PackageKeyOf, EvidenceOf, Mergeable;
    if merged == [] {
    } else {
      var last := |merged| - 1;
      var front := merged[..last];
      VerdictCount(front);
      assert merged == front + [merged[last]];
      assert Verdicts(merged) == Verdicts(front) + {VerdictOf(merged[last])};
      forall g | 0 <= g < last ensures VerdictOf(front[g]) != VerdictOf(merged[last]) {
        assert Mergeable(merged[g]) && !Linked(merged[g], merged[last]);
        EqualVerdictsLinked(merged[g], merged[last]);
      }
    }
  }

  /** An input has one merge: the same records with the same packages and evidence. */
  lemma MergeUnique(items: seq<Vulnerability>, s: seq<Vulnerability>, r: seq<Vulnerability>)
    requires IsMerge(items, s) && IsMerge(items, r)
    ensures Verdicts(s) == Verdicts(r) && |s| == |r|
  {
    hide Aggregates, EvidenceOf, PackageKeyOf, HasClass, HasMerge;
    VerdictsWithin(items, s, r);
    VerdictsWithin(items, r, s);
    VerdictCount(s);
    VerdictCount(r);
  }

  /** The identifier a record is listed under does not depend on how it was merged either. */
  lemma CanonicalStable(items: seq<Vulnerability>, i: nat, m: Vulnerability, n: Vulnerability)
    requires i < |items| && IsClassMerge(items, i, m) && IsClassMerge(items, i, n)
    requires forall x, y | x in EvidenceOf(m).identifiers && y in EvidenceOf(m).identifiers
             && Text.Upper(x) == Text.Upper(y) :: x == y
    ensures m.vulnerabilityId == n.vulnerabilityId
  {
    hide EvidenceOf, PackageKeyOf;
    AggregateUnique(EvidenceOf(m), EvidenceOf(n), Members(items, i));
    CanonicalUnique(m.vulnerabilityId, n.vulnerabilityId, EvidenceOf(m).identifiers);
  }

  /** Merging a merged list changes nothing. */
  lemma MergeIdempotent(items: seq<Vulnerability>, merged: seq<Vulnerability>, again: seq<Vulnerability>)
    requires IsMerge(items, merged) && IsMerge(merged, again)
    ensures Verdicts(again) == Verdicts(merged) && |again| == |merged|
  {
    assert merged + [] == merged && items + [] == items;
    IncrementalMerge(items, merged, [], again);
    MergeUnique(items, again, merged);
  }

  /** Where a record of `x` occurs in `y`. */
  ghost function IndexIn(x: seq<Vulnerability>, y: seq<Vulnerability>, i: nat): (k: nat)
    requires i < |x| && x[i] in y
    ensures k < |y| && y[k] == x[i]
  {
    var k :| 0 <= k < |y| && y[k] == x[i];
    k
  }

  lemma SameRecordsConnected(x: seq<Vulnerability>, y: seq<Vulnerability>, i: nat, j: nat, k: nat, l: nat)
    requires AllMergeable(x) && (forall v | v in x :: v in y)
    requires i < |x| && j < |x| && k < |y| && l < |y| && x[i] == y[k] && x[j] == y[l] && Connected(x, i, j)
    ensures Connected(y, k, l)
  {
    hide Linked, Mergeable;
    forall colour | Respects(y, colour) ensures colour[k] == colour[l] {
      var moved := seq(|x|, n requires 0 <= n < |x| => colour[IndexIn(x, y, n)]);
      forall n, o | 0 <= n < |x| && 0 <= o < |x| && Linked(x[n], x[o]) ensures moved[n] == moved[o] {
        assert Linked(y[IndexIn(x, y, n)], y[IndexIn(x, y, o)]);
      }
      assert Respects(x, moved);
      assert moved[i] == moved[j];
      LinkedToItself(x[i]);
      LinkedToItself(x[j]);
      assert Linked(y[IndexIn(x, y, i)], y[k]) && Linked(y[IndexIn(x, y, j)], y[l]);
    }
  }

  lemma SameRecordsMembers(x: seq<Vulnerability>, y: seq<Vulnerability>, i: nat, k: nat)
    requires AllMergeable(x) && (forall v | v in x :: v in y) && i < |x| && k < |y| && x[i] == y[k]
    ensures Members(x, i) <= Members(y, k)
  {
    hide AllMergeable, EvidenceOf, Connected;
    forall e | e in Members(x, i) ensures e in Members(y, k) {
      var j :| 0 <= j < |x| && Connected(x, i, j) && EvidenceOf(x[j]) == e;
      SameRecordsConnected(x, y, i, j, k, IndexIn(x, y, j));
    }
  }

  lemma SameRecordsClass(x: seq<Vulnerability>, y: seq<Vulnerability>, i: nat, k: nat, m: Vulnerability)
    requires AllMergeable(x) && AllMergeable(y) && (forall v :: v in x <==> v in y)
    requires i < |x| && k < |y| && x[i] == y[k] && IsClassMerge(x, i, m)
    ensures IsClassMerge(y, k, m)
  {
    hide IsMergeOf, AllMergeable, Members;
    SameRecordsMembers(x, y, i, k);
    SameRecordsMembers(y, x, k, i);
    assert Members(x, i) == Members(y, k);
  }

  /** Only the records themselves matter, not their order or how often they are repeated. */
  lemma MergeIgnoresOrder(x: seq<Vulnerability>, y: seq<Vulnerability>, merged: seq<Vulnerability>)
    requires AllMergeable(x) && AllMergeable(y) && (forall v :: v in x <==> v in y) && IsMerge(x, merged)
    ensures IsMerge(y, merged)
  {
    hide IsClassMerge, Separate, AllMergeable;
    forall h | 0 <= h < |merged| ensures HasClass(y, merged[h]) {
      assert HasClass(x, merged[h]);
      var i :| 0 <= i < |x| && IsClassMerge(x, i, merged[h]);
      assert x[i] in x;
      SameRecordsClass(x, y, i, IndexIn(x, y, i), merged[h]);
    }
    forall k | 0 <= k < |y| ensures HasMerge(y, k, merged) {
      assert y[k] in y;
      var i := IndexIn(y, x, k);
      assert HasMerge(x, i, merged);
      var m :| m in merged && IsClassMerge(x, i, m);
      SameRecordsClass(x, y, i, k, m);
    }
  }

  lemma MergeCommutes(x: seq<Vulnerability>, y: seq<Vulnerability>, merged: seq<Vulnerability>)
    requires AllMergeable(x) && AllMergeable(y) && IsMerge(x + y, merged)
    ensures IsMerge(y + x, merged)
  {
    hide IsMerge, Mergeable;
    assert AllMergeable(x + y) && AllMergeable(y + x);
    MergeIgnoresOrder(x + y, y + x, merged);
  }

  /** Two parts merged on their own, put together and merged again, are merged. */
  lemma StagedIsMerge(a: seq<Vulnerability>, b: seq<Vulnerability>, ma: seq<Vulnerability>, mb: seq<Vulnerability>,
          final: seq<Vulnerability>)
    requires AllMergeable(a) && AllMergeable(b) && AllMergeable(mb) && IsMerge(a, ma) && IsMerge(b, mb)
    requires IsMerge(ma + mb, final)
    ensures IsMerge(a + b, final)
  {
    hide IsMerge, AllMergeable;
    IncrementalMerge(a, ma, mb, final);
    MergeCommutes(a, mb, final);
    IncrementalMerge(b, mb, a, final);
    MergeCommutes(b, a, final);
  }

  /** Merging part by part and then together gives the findings of merging everything once. */
  lemma PipelineMerge(a: seq<Vulnerability>, b: seq<Vulnerability>, ma: seq<Vulnerability>, mb: seq<Vulnerability>,
          final: seq<Vulnerability>, once: seq<Vulnerability>)
    requires AllMergeable(a) && AllMergeable(b) && IsMerge(a, ma) && IsMerge(b, mb)
    requires IsMerge(ma + mb, final) && IsMerge(a + b, once)
    ensures Verdicts(final) == Verdicts(once) && |final| == |once|
  {
    hide HasClass, HasMerge, Separate, AllMergeable, Verdicts;
    StagedIsMerge(a, b, ma, mb, final);
    MergeUnique(a + b, final, once);
  }
}
