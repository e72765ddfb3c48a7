/**
 * Between the two merges of the pipeline every merged record is written out and validated again when it is read back.
 * Merging does not validate what it makes, so a merged record can be refused: which classes are lost that way, and what
 * the second merge then is a merge of.
 */
module Revalidation {
  import opened Prelude
  import opened Connectivity
  import opened Evidence
  import opened MergeLaws
  import opened VulnerabilityMerge
  import Records
  import Report
  import Text

  const MAX_IDENTIFIER: nat := 128
  const MAX_ALIASES: nat := 512

  predicate IsAlphanumeric(c: char) {
    'A' <= c <= 'Z' || 'a' <= c <= 'z' || '0' <= c <= '9'
  }

  /** The pattern of `Identifier`. */
  predicate IsIdentifier(s: string) {
    && 0 < |s| <= MAX_IDENTIFIER && IsAlphanumeric(s[0])
    && forall i | 0 <= i < |s| :: IsAlphanumeric(s[i]) || s[i] == '.' || s[i] == '_' || s[i] == ':' || s[i] == '-'
  }

  /** What validation demands of a record and merging does not keep; its evidence apart. */
  predicate Revalidates(v: Vulnerability) {
    IsIdentifier(v.vulnerabilityId) && |v.aliases| <= MAX_ALIASES
  }

  /** A record as the normalizers create it. */
  ghost predicate ValidRecord(v: Vulnerability) {
    Mergeable(v) && Revalidates(v)
  }

  // ---------------------------------------------------------------- selecting

  /** The positions of the set flags, in order. */
  function Places(flags: seq<bool>): (places: seq<nat>)
    ensures forall k | 0 <= k < |places| :: places[k] < |flags| && flags[places[k]]
    ensures forall k, l | 0 <= k < l < |places| :: places[k] < places[l]
    ensures forall i | 0 <= i < |flags| && flags[i] :: i in places
  {
    if flags == [] then []
    else
      var front := Places(flags[..|flags| - 1]);
      if flags[|flags| - 1] then front + [|flags| - 1] else front
  }

  function Select(items: seq<Vulnerability>, flags: seq<bool>): (chosen: seq<Vulnerability>)
    requires |flags| == |items|
    ensures |chosen| == |Places(flags)| && forall k | 0 <= k < |chosen| :: chosen[k] == items[Places(flags)[k]]
  {
    seq(|Places(flags)|, k requires 0 <= k < |Places(flags)| => items[Places(flags)[k]])
  }

  function RankOf(flags: seq<bool>, i: nat): (k: nat)
    requires i < |flags| && flags[i]
    ensures k < |Places(flags)| && Places(flags)[k] == i
  {
    assert i in Places(flags);
    var k: nat :| k < |Places(flags)| && Places(flags)[k] == i;
    k
  }

  lemma {:induction false} PlacesOfAll(flags: seq<bool>)
    requires forall i | 0 <= i < |flags| :: flags[i]
    ensures |Places(flags)| == |flags| && forall k | 0 <= k < |flags| :: Places(flags)[k] == k
    decreases |flags|
  {
    if flags == [] {
    } else {
      PlacesOfAll(flags[..|flags| - 1]);
    }
  }

  lemma SelectAll(items: seq<Vulnerability>, flags: seq<bool>)
    requires |flags| == |items| && forall i | 0 <= i < |flags| :: flags[i]
    ensures Select(items, flags) == items
  {
    hide Places;
    PlacesOfAll(flags);
  }

  // ---------------------------------------------------------------- whole classes

  /** Which inputs belong to the classes whose merged records are kept. */
  ghost function OfKept(items: seq<Vulnerability>, merged: seq<Vulnerability>, keep: seq<bool>): (flags: seq<bool>)
    requires IsMerge(items, merged) && |keep| == |merged|
    ensures |flags| == |items| && forall i | 0 <= i < |items| :: flags[i] == keep[PositionOf(items, merged, i)]
  {
    seq(|items|, i requires 0 <= i < |items| => keep[PositionOf(items, merged, i)])
  }

  lemma ConnectedPosition(items: seq<Vulnerability>, merged: seq<Vulnerability>, i: nat, j: nat)
    requires IsMerge(items, merged) && i < |items| && j < |items| && Connected(items, i, j)
    ensures PositionOf(items, merged, i) == PositionOf(items, merged, j)
  {
    hide Connected, IsMerge, IsMergeOf;
    MembersOfConnected(items, i, j);
    ConnectedSamePackage(items, i, j);
    MergedOnce(items, merged, j, PositionOf(items, merged, i));
  }

  /** The inputs of the kept classes. */
  ghost function Kept(items: seq<Vulnerability>, merged: seq<Vulnerability>, keep: seq<bool>): seq<Vulnerability>
    requires IsMerge(items, merged) && |keep| == |merged|
  {
    Select(items, OfKept(items, merged, keep))
  }

  /** Where the `k`th kept input stands among all inputs. */
  ghost function PlaceOfKept(items: seq<Vulnerability>, merged: seq<Vulnerability>, keep: seq<bool>, k: nat): (i: nat)
    requires IsMerge(items, merged) && |keep| == |merged| && k < |Kept(items, merged, keep)|
    ensures i < |items| && Kept(items, merged, keep)[k] == items[i] && keep[PositionOf(items, merged, i)]
  {
    Places(OfKept(items, merged, keep))[k]
  }

  /** Where an input of a kept class stands among the kept ones. */
  ghost function RankOfKept(items: seq<Vulnerability>, merged: seq<Vulnerability>, keep: seq<bool>, i: nat): (k: nat)
    requires IsMerge(items, merged) && |keep| == |merged| && i < |items| && keep[PositionOf(items, merged, i)]
    ensures k < |Kept(items, merged, keep)| && Kept(items, merged, keep)[k] == items[i]
    ensures PlaceOfKept(items, merged, keep, k) == i
  {
    RankOf(OfKept(items, merged, keep), i)
  }

  lemma RankOfPlace(items: seq<Vulnerability>, merged: seq<Vulnerability>, keep: seq<bool>, k: nat)
    requires IsMerge(items, merged) && |keep| == |merged| && k < |Kept(items, merged, keep)|
    ensures RankOfKept(items, merged, keep, PlaceOfKept(items, merged, keep, k)) == k
  {
    hide IsMerge, PositionOf;
  }

  lemma KeptMergeable(items: seq<Vulnerability>, merged: seq<Vulnerability>, keep: seq<bool>)
    requires IsMerge(items, merged) && |keep| == |merged| && AllMergeable(items)
    ensures AllMergeable(Kept(items, merged, keep)) && forall v | v in Kept(items, merged, keep) :: v in items
  {
    hide IsMerge, Kept, Mergeable, PositionOf, PlaceOfKept;
    var x := Kept(items, merged, keep);
    forall k | 0 <= k < |x| ensures x[k] in items && Mergeable(x[k]) {
      assert x[k] == items[PlaceOfKept(items, merged, keep, k)];
    }
  }

  /** The colour of an input, given those of the kept ones. */
  ghost function ColourAt(items: seq<Vulnerability>, merged: seq<Vulnerability>, keep: seq<bool>, colour: seq<int>,
          i: nat): int
    requires IsMerge(items, merged) && |keep| == |merged| && |colour| == |Kept(items, merged, keep)| && i < |items|
  {
    if keep[PositionOf(items, merged, i)] then colour[RankOfKept(items, merged, keep, i)] else 0
  }

  lemma Widen(items: seq<Vulnerability>, merged: seq<Vulnerability>, keep: seq<bool>, colour: seq<int>)
    returns (wider: seq<int>)
    requires IsMerge(items, merged) && |keep| == |merged| && |colour| == |Kept(items, merged, keep)|
    ensures |wider| == |items|
    ensures forall i | 0 <= i < |items| :: wider[i] == ColourAt(items, merged, keep, colour, i)
  {
    hide *;
    wider := seq(|items|, i requires 0 <= i < |items| => ColourAt(items, merged, keep, colour, i));
  }

  lemma LinkedSameColour(items: seq<Vulnerability>, merged: seq<Vulnerability>, keep: seq<bool>, colour: seq<int>,
          i: nat, j: nat)
    requires IsMerge(items, merged) && |keep| == |merged| && Respects(Kept(items, merged, keep), colour)
    requires i < |items| && j < |items| && Linked(items[i], items[j])
    ensures |colour| == |Kept(items, merged, keep)|
    ensures ColourAt(items, merged, keep, colour, i) == ColourAt(items, merged, keep, colour, j)
  {
    hide IsMerge, Linked, Kept, PositionOf, RankOfKept, PlaceOfKept, Connected;
    LinkedAreConnected(items, i, j);
    ConnectedPosition(items, merged, i, j);
    if keep[PositionOf(items, merged, i)] {
      var (k, l) := (RankOfKept(items, merged, keep, i), RankOfKept(items, merged, keep, j));
      assert Linked(Kept(items, merged, keep)[k], Kept(items, merged, keep)[l]);
    }
  }

  lemma RespectsLength(x: seq<Vulnerability>, colour: seq<int>)
    requires Respects(x, colour)
    ensures |colour| == |x|
  {
  }

  lemma ColourOfPlace(items: seq<Vulnerability>, merged: seq<Vulnerability>, keep: seq<bool>, colour: seq<int>, k: nat)
    requires IsMerge(items, merged) && |keep| == |merged| && |colour| == |Kept(items, merged, keep)|
    requires k < |Kept(items, merged, keep)|
    ensures ColourAt(items, merged, keep, colour, PlaceOfKept(items, merged, keep, k)) == colour[k]
  {
    hide IsMerge, Kept, PositionOf, RankOfKept, PlaceOfKept;
    RankOfPlace(items, merged, keep, k);
  }

  lemma RespectsBy(items: seq<Vulnerability>, colour: seq<int>)
    requires |colour| == |items|
    requires forall i, j | 0 <= i < |items| && 0 <= j < |items| && Linked(items[i], items[j]) :: colour[i] == colour[j]
    ensures Respects(items, colour)
  {
  }

  lemma ConnectedColour(items: seq<Vulnerability>, i: nat, j: nat, colour: seq<int>)
    requires i < |items| && j < |items| && Connected(items, i, j) && Respects(items, colour)
    ensures |colour| == |items| && colour[i] == colour[j]
  {
  }

  /** A colouring of the kept inputs is one of all inputs. */
  lemma WidenRespecting(items: seq<Vulnerability>, merged: seq<Vulnerability>, keep: seq<bool>, colour: seq<int>)
    returns (wider: seq<int>)
    requires IsMerge(items, merged) && |keep| == |merged| && Respects(Kept(items, merged, keep), colour)
    ensures |colour| == |Kept(items, merged, keep)| && Respects(items, wider) && |wider| == |items|
    ensures forall i | 0 <= i < |items| :: wider[i] == ColourAt(items, merged, keep, colour, i)
  {
    hide *;
    RespectsLength(Kept(items, merged, keep), colour);
    wider := Widen(items, merged, keep, colour);
    forall i, j | 0 <= i < |items| && 0 <= j < |items| && Linked(items[i], items[j]) ensures wider[i] == wider[j] {
      LinkedSameColour(items, merged, keep, colour, i, j);
    }
    RespectsBy(items, wider);
  }

  lemma SameColour(items: seq<Vulnerability>, merged: seq<Vulnerability>, keep: seq<bool>, colour: seq<int>, k: nat,
          l: nat)
    requires IsMerge(items, merged) && |keep| == |merged|
    requires k < |Kept(items, merged, keep)| && l < |Kept(items, merged, keep)|
    requires Connected(items, PlaceOfKept(items, merged, keep, k), PlaceOfKept(items, merged, keep, l))
    requires Respects(Kept(items, merged, keep), colour)
    ensures |colour| == |Kept(items, merged, keep)| && colour[k] == colour[l]
  {
    hide *;
    var wider := WidenRespecting(items, merged, keep, colour);
    ConnectedColour(items, PlaceOfKept(items, merged, keep, k), PlaceOfKept(items, merged, keep, l), wider);
    ColourOfPlace(items, merged, keep, colour, k);
    ColourOfPlace(items, merged, keep, colour, l);
  }

  lemma ConnectedBy(items: seq<Vulnerability>, i: nat, j: nat)
    requires i < |items| && j < |items|
    requires forall colour | Respects(items, colour) :: |colour| == |items| && colour[i] == colour[j]
    ensures Connected(items, i, j)
  {
  }

  lemma KeptStaysConnected(items: seq<Vulnerability>, merged: seq<Vulnerability>, keep: seq<bool>, k: nat, l: nat)
    requires IsMerge(items, merged) && |keep| == |merged|
    requires k < |Kept(items, merged, keep)| && l < |Kept(items, merged, keep)|
    requires Connected(items, PlaceOfKept(items, merged, keep, k), PlaceOfKept(items, merged, keep, l))
    ensures Connected(Kept(items, merged, keep), k, l)
  {
    hide *;
    forall colour | Respects(Kept(items, merged, keep), colour)
      ensures |colour| == |Kept(items, merged, keep)| && colour[k] == colour[l]
    {
      SameColour(items, merged, keep, colour, k, l);
    }
    ConnectedBy(Kept(items, merged, keep), k, l);
  }

  /** Taking whole classes away connects and separates nothing. */
  lemma KeptConnected(items: seq<Vulnerability>, merged: seq<Vulnerability>, keep: seq<bool>, k: nat, l: nat)
    requires IsMerge(items, merged) && |keep| == |merged| && AllMergeable(items)
    requires k < |Kept(items, merged, keep)| && l < |Kept(items, merged, keep)|
    ensures Connected(Kept(items, merged, keep), k, l) <==>
              Connected(items, PlaceOfKept(items, merged, keep, k), PlaceOfKept(items, merged, keep, l))
  {
    hide IsMerge, Kept, PositionOf, PlaceOfKept, AllMergeable, Connected;
    var (i, j) := (PlaceOfKept(items, merged, keep, k), PlaceOfKept(items, merged, keep, l));
    if Connected(Kept(items, merged, keep), k, l) {
      KeptMergeable(items, merged, keep);
      SameRecordsConnected(Kept(items, merged, keep), items, k, l, i, j);
    }
    if Connected(items, i, j) {
      KeptStaysConnected(items, merged, keep, k, l);
    }
  }

  lemma KeptMembers(items: seq<Vulnerability>, merged: seq<Vulnerability>, keep: seq<bool>, k: nat)
    requires IsMerge(items, merged) && |keep| == |merged| && AllMergeable(items) && k < |Kept(items, merged, keep)|
    ensures Members(Kept(items, merged, keep), k) == Members(items, PlaceOfKept(items, merged, keep, k))
  {
    hide IsMerge, EvidenceOf, Connected, AllMergeable, Kept, PositionOf, RankOfKept, PlaceOfKept;
    var x, i := Kept(items, merged, keep), PlaceOfKept(items, merged, keep, k);
    forall e | e in Members(x, k) ensures e in Members(items, i) {
      var l :| 0 <= l < |x| && Connected(x, k, l) && EvidenceOf(x[l]) == e;
      KeptConnected(items, merged, keep, k, l);
      assert EvidenceOf(items[PlaceOfKept(items, merged, keep, l)]) == e;
    }
    forall e | e in Members(items, i) ensures e in Members(x, k) {
      var j :| 0 <= j < |items| && Connected(items, i, j) && EvidenceOf(items[j]) == e;
      ConnectedPosition(items, merged, i, j);
      var l := RankOfKept(items, merged, keep, j);
      KeptConnected(items, merged, keep, k, l);
      assert EvidenceOf(x[l]) == e;
    }
  }

  lemma KeptClass(items: seq<Vulnerability>, merged: seq<Vulnerability>, keep: seq<bool>, k: nat, m: Vulnerability)
    requires IsMerge(items, merged) && |keep| == |merged| && AllMergeable(items) && k < |Kept(items, merged, keep)|
    ensures IsClassMerge(Kept(items, merged, keep), k, m) <==>
              IsClassMerge(items, PlaceOfKept(items, merged, keep, k), m)
  {
    hide IsMerge, IsMergeOf, Members, AllMergeable, Kept, PositionOf, PlaceOfKept, PackageKeyOf;
    KeptMembers(items, merged, keep, k);
  }

  lemma KeptHasMerge(items: seq<Vulnerability>, merged: seq<Vulnerability>, keep: seq<bool>, k: nat)
    requires IsMerge(items, merged) && |keep| == |merged| && AllMergeable(items) && k < |Kept(items, merged, keep)|
    ensures HasMerge(Kept(items, merged, keep), k, Select(merged, keep))
  {
    hide IsMerge, IsClassMerge, AllMergeable, Kept, PositionOf, PlaceOfKept, Select, Places, RankOf;
    var g := PositionOf(items, merged, PlaceOfKept(items, merged, keep, k));
    KeptClass(items, merged, keep, k, merged[g]);
    assert Select(merged, keep)[RankOf(keep, g)] == merged[g];
  }

  lemma KeptHasClass(items: seq<Vulnerability>, merged: seq<Vulnerability>, keep: seq<bool>, g: nat)
    requires IsMerge(items, merged) && |keep| == |merged| && AllMergeable(items) && g < |Select(merged, keep)|
    ensures HasClass(Kept(items, merged, keep), Select(merged, keep)[g])
  {
    var h := Places(keep)[g];
    assert HasClass(items, merged[h]);
    hide IsMerge, IsClassMerge, AllMergeable, Kept, PositionOf, PlaceOfKept, RankOfKept, Select, Places;
    var i :| 0 <= i < |items| && IsClassMerge(items, i, merged[h]);
    MergedOnce(items, merged, i, h);
    KeptClass(items, merged, keep, RankOfKept(items, merged, keep, i), merged[h]);
  }

  lemma SelectSeparate(merged: seq<Vulnerability>, keep: seq<bool>)
    requires Separate(merged) && AllMergeable(merged) && |keep| == |merged|
    ensures Separate(Select(merged, keep)) && AllMergeable(Select(merged, keep))
  {
    hide Linked, Mergeable, Places;
    var chosen := Select(merged, keep);
    forall g, h | 0 <= g < h < |chosen| ensures !Linked(chosen[g], chosen[h]) {
      assert Places(keep)[g] < Places(keep)[h];
    }
    forall g | 0 <= g < |chosen| ensures Mergeable(chosen[g]) {
      assert Mergeable(merged[Places(keep)[g]]);
    }
  }

  /** Whatever merged records are kept, they are a merge of exactly the inputs of their classes. */
  lemma KeptIsMerge(items: seq<Vulnerability>, merged: seq<Vulnerability>, keep: seq<bool>)
    requires IsMerge(items, merged) && |keep| == |merged| && AllMergeable(items)
    ensures AllMergeable(Kept(items, merged, keep))
    ensures IsMerge(Kept(items, merged, keep), Select(merged, keep))
  {
    var x, chosen := Kept(items, merged, keep), Select(merged, keep);
    KeptMergeable(items, merged, keep);
    SelectSeparate(merged, keep);
    hide Kept, Select, Separate, AllMergeable, HasClass, HasMerge, IsClassMerge;
    forall g | 0 <= g < |chosen| ensures HasClass(x, chosen[g]) { KeptHasClass(items, merged, keep, g); }
    forall k | 0 <= k < |x| ensures HasMerge(x, k, chosen) { KeptHasMerge(items, merged, keep, k); }
  }

  // ---------------------------------------------------------------- which classes are lost

  /** What a merged record is read back as: `fits` says of which records the evidence stays within its bounds. */
  function Reload(merged: seq<Vulnerability>, fits: seq<bool>): seq<Option<Vulnerability>>
    requires |fits| == |merged|
  {
    seq(|merged|, g requires 0 <= g < |merged| => if fits[g] && Revalidates(merged[g]) then Some(merged[g]) else None)
  }

  function Reloadable(merged: seq<Vulnerability>, fits: seq<bool>): (keep: seq<bool>)
    requires |fits| == |merged|
    ensures |keep| == |merged| && forall g | 0 <= g < |merged| :: keep[g] == (fits[g] && Revalidates(merged[g]))
  {
    seq(|merged|, g requires 0 <= g < |merged| => fits[g] && Revalidates(merged[g]))
  }

  lemma SelectStep(items: seq<Vulnerability>, flags: seq<bool>)
    requires |flags| == |items| > 0
    ensures var n := |items| - 1;
            Select(items, flags) == Select(items[..n], flags[..n]) + if flags[n] then [items[n]] else []
  {
  }

  /** The records read back are the selected ones. */
  lemma {:induction false} ReloadSelects(merged: seq<Vulnerability>, fits: seq<bool>)
    requires |fits| == |merged|
    ensures Report.Valid(Reload(merged, fits)) == Select(merged, Reloadable(merged, fits))
    decreases |merged|
  {
    if merged == [] {
    } else {
      var n := |merged| - 1;
      ReloadSelects(merged[..n], fits[..n]);
      assert Reload(merged, fits)[..n] == Reload(merged[..n], fits[..n]);
      assert Reloadable(merged, fits)[..n] == Reloadable(merged[..n], fits[..n]);
      SelectStep(merged, Reloadable(merged, fits));
    }
  }

  lemma SameSpelling(a: string, b: string)
    requires Text.Upper(a) == Text.Upper(b)
    ensures IsIdentifier(a) == IsIdentifier(b)
  {
    assert |a| == |b|;
    forall i | 0 <= i < |a|
      ensures IsAlphanumeric(a[i]) == IsAlphanumeric(b[i])
      ensures a[i] == b[i] || (IsAlphanumeric(a[i]) && IsAlphanumeric(b[i]))
    {
      assert Text.Upper(a)[i] == Text.Upper(b)[i];
    }
  }

  lemma CanonicalSpelling(a: string, b: string, ids: set<string>)
    requires IsCanonical(a, ids) && IsCanonical(b, ids)
    ensures Text.Upper(a) == Text.Upper(b)
  {
    Text.LessTrichotomy(Text.Upper(a), Text.Upper(b));
  }

  /** The identifiers of a class can be those of one valid record. */
  ghost predicate Storable(ids: set<string>) {
    |ids| <= MAX_ALIASES + 1 && forall id | IsCanonical(id, ids) :: IsIdentifier(id)
  }

  lemma ClassIdentifiers(items: seq<Vulnerability>, i: nat, m: Vulnerability)
    requires i < |items| && IsClassMerge(items, i, m)
    ensures var ids := UnionOf(Members(items, i), IdentifierField);
            && IsCanonical(m.vulnerabilityId, ids)
            && |m.aliases| == |ids| - 1
  {
    var ids := UnionOf(Members(items, i), IdentifierField);
    assert EvidenceOf(m).identifiers == ids;
    assert m.aliases == ids - {m.vulnerabilityId} && m.vulnerabilityId in ids;
  }

  lemma SpellingIrrelevant(a: string, ids: set<string>)
    requires IsCanonical(a, ids)
    ensures IsIdentifier(a) <==> forall id | IsCanonical(id, ids) :: IsIdentifier(id)
  {
    hide IsIdentifier, IsCanonical;
    forall id | IsCanonical(id, ids) ensures IsIdentifier(id) == IsIdentifier(a) {
      CanonicalSpelling(id, a, ids);
      SameSpelling(id, a);
    }
  }

  /**
   * A class is refused when it is read back exactly when it has more than 513 identifiers, or its first one is not an
   * `Identifier`; which of several spellings was picked does not matter.
   */
  lemma SurvivesExactly(items: seq<Vulnerability>, i: nat, m: Vulnerability)
    requires i < |items| && IsClassMerge(items, i, m)
    ensures Revalidates(m) <==> Storable(UnionOf(Members(items, i), IdentifierField))
  {
    hide Members, UnionOf, IsIdentifier, IsCanonical, IsClassMerge;
    ClassIdentifiers(items, i, m);
    SpellingIrrelevant(m.vulnerabilityId, UnionOf(Members(items, i), IdentifierField));
  }

  // ---------------------------------------------------------------- the report

  /** The records of a tool that reach the report: those of its classes that are read back. */
  ghost function Reaching(items: seq<Vulnerability>, merged: seq<Vulnerability>, fits: seq<bool>): seq<Vulnerability>
    requires IsMerge(items, merged) && |fits| == |merged|
  {
    Kept(items, merged, Reloadable(merged, fits))
  }

  /** An input reaches the report exactly when its class can be stored and its evidence fits. */
  lemma ReachesExactly(items: seq<Vulnerability>, merged: seq<Vulnerability>, fits: seq<bool>, i: nat)
    requires IsMerge(items, merged) && |fits| == |merged| && i < |items|
    ensures OfKept(items, merged, Reloadable(merged, fits))[i] <==>
              fits[PositionOf(items, merged, i)] && Storable(UnionOf(Members(items, i), IdentifierField))
  {
    hide IsMerge, PositionOf, IsClassMerge, Revalidates, Storable, UnionOf, Members;
    SurvivesExactly(items, i, merged[PositionOf(items, merged, i)]);
  }

  /** Everything a tool found reaches the report when all its merged records are read back. */
  lemma AllReach(items: seq<Vulnerability>, merged: seq<Vulnerability>, fits: seq<bool>)
    requires IsMerge(items, merged) && |fits| == |merged|
    requires forall g | 0 <= g < |merged| :: fits[g] && Revalidates(merged[g])
    ensures Reaching(items, merged, fits) == items
  {
    hide IsMerge, PositionOf, Revalidates;
    SelectAll(items, OfKept(items, merged, Reloadable(merged, fits)));
  }

  /** What the builder is given for a tool that delivered: its merged records, written out and read back. */
  ghost predicate IsDelivered(p: Report.Persisted, items: seq<Vulnerability>, merged: seq<Vulnerability>,
          fits: seq<bool>) {
    && AllMergeable(items) && IsMerge(items, merged) && |fits| == |merged|
    && Report.Usable(Report.NormalizedStatus(p.status)) && p.vulnerabilities == Some(Reload(merged, fits))
  }

  lemma MergedAreMergeable(items: seq<Vulnerability>, merged: seq<Vulnerability>)
    requires IsMerge(items, merged)
    ensures AllMergeable(merged)
  {
  }

  lemma DeliveredIsMerge(p: Report.Persisted, items: seq<Vulnerability>, merged: seq<Vulnerability>, fits: seq<bool>)
    requires IsDelivered(p, items, merged, fits)
    ensures AllMergeable(Reaching(items, merged, fits)) && AllMergeable(Report.AcceptedFrom(p))
    ensures IsMerge(Reaching(items, merged, fits), Report.AcceptedFrom(p))
  {
    hide IsMerge, AllMergeable, Kept, Select, Report.NormalizedStatus;
    ReloadSelects(merged, fits);
    KeptIsMerge(items, merged, Reloadable(merged, fits));
    MergedAreMergeable(Reaching(items, merged, fits), Report.AcceptedFrom(p));
  }

  lemma AcceptedPair(x: Report.Tool, y: Report.Tool, results: map<Report.Tool, Report.Persisted>)
    requires x in results && y in results
    ensures Report.Accepted([x, y], results) == Report.AcceptedFrom(results[x]) + Report.AcceptedFrom(results[y])
  {
    hide Report.AcceptedFrom;
    assert [x, y][..1] == [x] && [x][..0] == [];
    assert Report.Accepted([x], results) == Report.Accepted([], results) + Report.AcceptedFrom(results[x]);
  }

  /** The report's findings are a merge of exactly the records of the classes that were read back. */
  lemma ReportMergesReaching(scan: Report.Scan, results: map<Report.Tool, Report.Persisted>, r: Report.Report,
          osv: seq<Vulnerability>, mergedOsv: seq<Vulnerability>, fitsOsv: seq<bool>,
          depscan: seq<Vulnerability>, mergedDepscan: seq<Vulnerability>, fitsDepscan: seq<bool>)
    requires scan.expected == [Records.Osv, Records.DepScan] && Records.Osv in results && Records.DepScan in results
    requires Report.AddsUp(scan, results, r)
    requires IsDelivered(results[Records.Osv], osv, mergedOsv, fitsOsv)
    requires IsDelivered(results[Records.DepScan], depscan, mergedDepscan, fitsDepscan)
    ensures IsMerge(Reaching(osv, mergedOsv, fitsOsv) + Reaching(depscan, mergedDepscan, fitsDepscan), r.merged)
  {
    hide IsMerge, AllMergeable, Reaching, Report.AcceptedFrom, Report.Accounts, Report.Buckets;
    var (a, b) := (Report.AcceptedFrom(results[Records.Osv]), Report.AcceptedFrom(results[Records.DepScan]));
    AcceptedPair(Records.Osv, Records.DepScan, results);
    DeliveredIsMerge(results[Records.Osv], osv, mergedOsv, fitsOsv);
    DeliveredIsMerge(results[Records.DepScan], depscan, mergedDepscan, fitsDepscan);
    StagedIsMerge(Reaching(osv, mergedOsv, fitsOsv), Reaching(depscan, mergedDepscan, fitsDepscan), a, b, r.merged);
  }

  /**
   * The report has the findings of merging at once everything that reaches it; and so of everything both tools found,
   * when every merged record was read back.
   */
  lemma ReportIsOneShot(scan: Report.Scan, results: map<Report.Tool, Report.Persisted>, r: Report.Report,
          osv: seq<Vulnerability>, mergedOsv: seq<Vulnerability>, fitsOsv: seq<bool>,
          depscan: seq<Vulnerability>, mergedDepscan: seq<Vulnerability>, fitsDepscan: seq<bool>,
          once: seq<Vulnerability>)
    requires scan.expected == [Records.Osv, Records.DepScan] && Records.Osv in results && Records.DepScan in results
    requires Report.AddsUp(scan, results, r)
    requires IsDelivered(results[Records.Osv], osv, mergedOsv, fitsOsv)
    requires IsDelivered(results[Records.DepScan], depscan, mergedDepscan, fitsDepscan)
    ensures IsMerge(Reaching(osv, mergedOsv, fitsOsv) + Reaching(depscan, mergedDepscan, fitsDepscan), once) ==>
              Verdicts(r.merged) == Verdicts(once) && |r.merged| == |once|
    ensures (forall g | 0 <= g < |mergedOsv| :: fitsOsv[g] && Revalidates(mergedOsv[g]))
            && (forall g | 0 <= g < |mergedDepscan| :: fitsDepscan[g] && Revalidates(mergedDepscan[g]))
            && IsMerge(osv + depscan, once) ==>
              Verdicts(r.merged) == Verdicts(once) && |r.merged| == |once|
  {
    hide IsMerge, AllMergeable, Reaching, Report.AddsUp, Revalidates, Verdicts;
    ReportMergesReaching(scan, results, r, osv, mergedOsv, fitsOsv, depscan, mergedDepscan, fitsDepscan);
    var x, y := Reaching(osv, mergedOsv, fitsOsv), Reaching(depscan, mergedDepscan, fitsDepscan);
    if IsMerge(x + y, once) { MergeUnique(x + y, r.merged, once); }
    if && (forall g | 0 <= g < |mergedOsv| :: fitsOsv[g] && Revalidates(mergedOsv[g]))
       && (forall g | 0 <= g < |mergedDepscan| :: fitsDepscan[g] && Revalidates(mergedDepscan[g]))
       && IsMerge(osv + depscan, once)
    {
      AllReach(osv, mergedOsv, fitsOsv);
      AllReach(depscan, mergedDepscan, fitsDepscan);
      MergeUnique(osv + depscan, r.merged, once);
    }
  }

  lemma {:induction false} FewerValid(items: seq<Option<Vulnerability>>, g: nat)
    requires g < |items| && items[g].None?
    ensures |Report.Valid(items)| < |items|
    decreases |items|
  {
    if g == |items| - 1 {
    } else {
      FewerValid(items[..|items| - 1], g);
    }
  }

  /** A loss does not go unnoticed: the report counts it, lists it as a gap, and is not complete. */
  lemma LossIsListed(scan: Report.Scan, results: map<Report.Tool, Report.Persisted>, fixtureMode: bool,
          r: Report.Report,
          tool: Report.Tool, items: seq<Vulnerability>, merged: seq<Vulnerability>, fits: seq<bool>, g: nat)
    requires tool in scan.expected && forall t | t in scan.expected :: t in results
    requires Report.AddsUp(scan, results, r) && Report.SaysSo(scan, results, fixtureMode, r)
    requires IsDelivered(results[tool], items, merged, fits) && g < |merged| && !(fits[g] && Revalidates(merged[g]))
    ensures tool in r.tools && r.tools[tool].rejected > 0
    ensures Report.RejectedRecords(tool) in r.gaps && !r.complete
  {
    hide IsMerge, AllMergeable, Report.NormalizedStatus, Revalidates, Report.Buckets, Report.FullyDelivered;
    assert Report.Accounts(r.tools[tool], results[tool]);
    assert Report.Placed(r, tool);
    FewerValid(Reload(merged, fits), g);
  }

  // ---------------------------------------------------------------- a finding that is lost

  /** One valid record whose alias comes before its identifier and is not an identifier itself. */
  const FOUND := Vulnerability("b", {"a a"}, "p", None, None, [], [], [], Low, None, None, false, None, 0)
  const FOUND_MERGED := FOUND.(vulnerabilityId := "a a", aliases := {"b"})

  lemma FoundIdentifiers()
    ensures RawIdentifiers(FOUND) == {"b", "a a"} && RawIdentifiers(FOUND_MERGED) == {"b", "a a"}
  {
    assert !Text.IsBlank("b") by { assert !Text.IsSpace("b"[0]); }
    assert !Text.IsBlank("a a") by { assert !Text.IsSpace("a a"[0]); }
  }

  lemma FoundCanonical()
    ensures IsCanonical("a a", {"b", "a a"})
  {
    var (x, y) := (Text.Upper("a a"), Text.Upper("b"));
    assert x[0] == 'A' && y[0] == 'B' && |x| == 3 && |y| == 1;
    assert Class("a a") == 2 && Class("b") == 2;
    Text.LessTrichotomy(x, x);
    Text.LessTrichotomy(x, y);
    assert Text.Less(x, y);
  }

  lemma FoundMembers()
    ensures Members([FOUND], 0) == {EvidenceOf(FOUND)}
  {
    hide EvidenceOf;
    forall e | e in Members([FOUND], 0) ensures e == EvidenceOf(FOUND) {
      var j :| 0 <= j < |[FOUND]| && Connected([FOUND], 0, j) && EvidenceOf([FOUND][j]) == e;
    }
    assert Connected([FOUND], 0, 0) && EvidenceOf([FOUND][0]) in Members([FOUND], 0);
  }

  lemma FoundIsMergeable()
    ensures Mergeable(FOUND) && Mergeable(FOUND_MERGED) && EvidenceOf(FOUND_MERGED) == EvidenceOf(FOUND)
  {
    FoundIdentifiers();
    assert Text.Elements([]) == {};
    assert !Text.IsBlank("b") && !Text.IsBlank("a a");
  }

  lemma FoundClass()
    ensures IsClassMerge([FOUND], 0, FOUND_MERGED)
  {
    FoundIdentifiers();
    FoundCanonical();
    FoundMembers();
    FoundIsMergeable();
    AggregateSingleton(EvidenceOf(FOUND));
    assert {"b", "a a"} - {"a a"} == {"b"} by { assert "b" != "a a"; }
    hide Aggregates, Members, IsCanonical, Mergeable, Identifiers, RawIdentifiers;
  }

  lemma OneRecordMerge(v: Vulnerability, m: Vulnerability)
    requires IsClassMerge([v], 0, m) && Mergeable(m)
    ensures IsMerge([v], [m])
  {
    hide IsMergeOf, Mergeable;
    assert m in [m];
  }

  lemma FoundMerges()
    ensures IsMerge([FOUND], [FOUND_MERGED])
  {
    hide IsClassMerge, Mergeable, IsMerge;
    FoundClass();
    FoundIsMergeable();
    OneRecordMerge(FOUND, FOUND_MERGED);
  }

  /**
   * A tool's only finding, valid as the tool reported it, is refused when it is read back, and no record of it is left.
   */
  lemma FindingIsLost()
    ensures ValidRecord(FOUND) && IsMerge([FOUND], [FOUND_MERGED]) && !Revalidates(FOUND_MERGED)
    ensures Reload([FOUND_MERGED], [true]) == [None] && Report.Valid([None]) == []
  {
    FoundIsMergeable();
    FoundMerges();
    assert !IsIdentifier("a a") by { assert "a a"[1] == ' '; }
    assert IsIdentifier("b");
    var refused: seq<Option<Vulnerability>> := [None];
    assert refused[..0] == [] && Report.Valid(refused) == [];
  }
}
