/**
  Which records `merge_vulnerabilities` must put together: those joined by a chain of records
  that agree on the package and share an identifier from one link to the next.

  Connectedness is stated by colourings: two records are connected when no colouring that
  gives linked records one colour can tell them apart. `ConnectedIffChain` proves that this
  is the same as being joined by a chain.
*/
module Connectivity {
  import opened Prelude
  import Text

  datatype Severity = Info | Low | Medium | High | Critical

  type PackageKey = (string, string, string)

  datatype Vulnerability = Vulnerability(
    vulnerabilityId: string,
    aliases: set<string>,
    packageName: string,
    packageEcosystem: Option<string>,
    installedVersion: Option<string>,
    affectedVersions: seq<string>,
    fixedVersions: seq<string>,
    references: seq<string>,
    severity: Severity,
    cvssScore: Option<real>,
    exploitability: Option<real>,
    knownExploited: bool,
    summary: Option<string>,
    detectedAt: int)

  function OrEmpty(text: Option<string>): string {
    if text.Some? then text.value else ""
  }

  function PackageKeyOf(v: Vulnerability): PackageKey {
    (Text.Strip(Text.Fold(v.packageName)),
     Text.Strip(Text.Fold(OrEmpty(v.packageEcosystem))),
     Text.Strip(Text.Fold(OrEmpty(v.installedVersion))))
  }

  /** The identifiers as written, without blank ones. */
  function RawIdentifiers(v: Vulnerability): set<string> {
    set x | x in {v.vulnerabilityId} + v.aliases && !Text.IsBlank(x)
  }

  function FoldAll(ids: set<string>): set<string> {
    set x | x in ids :: Text.Fold(x)
  }

  /** The identifiers used for matching. */
  function Identifiers(v: Vulnerability): set<string> {
    FoldAll(RawIdentifiers(v))
  }

  ghost predicate Linked(a: Vulnerability, b: Vulnerability) {
    PackageKeyOf(a) == PackageKeyOf(b) && exists x :: x in Identifiers(a) && x in Identifiers(b)
  }

  ghost predicate Respects(items: seq<Vulnerability>, colour: seq<int>) {
    && |colour| == |items|
    && forall i, j | 0 <= i < |items| && 0 <= j < |items| && Linked(items[i], items[j]) :: colour[i] == colour[j]
  }

  ghost predicate Connected(items: seq<Vulnerability>, i: nat, j: nat)
    requires i < |items| && j < |items|
  {
    forall colour | Respects(items, colour) :: colour[i] == colour[j]
  }

  /** A path of records in which every one is linked to the next. */
  ghost predicate IsChain(items: seq<Vulnerability>, path: seq<nat>) {
    && path != []
    && (forall k | 0 <= k < |path| :: path[k] < |items|)
    && (forall k | 0 < k < |path| :: Linked(items[path[k - 1]], items[path[k]]))
  }

  ghost predicate ChainFrom(items: seq<Vulnerability>, i: nat, j: nat) {
    exists path :: IsChain(items, path) && path[0] == i && path[|path| - 1] == j
  }

  lemma {:induction false} ChainKeepsColour(items: seq<Vulnerability>, path: seq<nat>, colour: seq<int>)
    requires IsChain(items, path) && Respects(items, colour)
    ensures colour[path[0]] == colour[path[|path| - 1]]
  {
    if |path| == 1 {
    } else {
      var shorter := path[..|path| - 1];
      ChainKeepsColour(items, shorter, colour);
      var k := |path| - 1;
      assert Linked(items[path[k - 1]], items[path[k]]);
    }
  }

  lemma LinkedIsSymmetric(a: Vulnerability, b: Vulnerability)
    requires Linked(a, b)
    ensures Linked(b, a)
  {
  }

  lemma ExtendChain(items: seq<Vulnerability>, i: nat, j: nat, k: nat)
    requires j < |items| && k < |items| && ChainFrom(items, i, j) && Linked(items[j], items[k])
    ensures ChainFrom(items, i, k)
  {
    hide Linked;
    var path :| IsChain(items, path) && path[0] == i && path[|path| - 1] == j;
    var longer := path + [k];
    assert IsChain(items, longer);
  }

  /** Connectedness is exactly the existence of a chain of linked records. */
  lemma {:induction false} ConnectedIffChain(items: seq<Vulnerability>, i: nat, j: nat)
    requires i < |items| && j < |items|
    ensures Connected(items, i, j) <==> ChainFrom(items, i, j)
  {
    if ChainFrom(items, i, j) {
      var path :| IsChain(items, path) && path[0] == i && path[|path| - 1] == j;
      forall colour | Respects(items, colour) ensures colour[i] == colour[j] {
        ChainKeepsColour(items, path, colour);
      }
    }
    if Connected(items, i, j) {
      var reached := seq(|items|, k requires 0 <= k => if ChainFrom(items, i, k) then 1 else 0);
      assert Respects(items, reached) by {
        forall k, l | 0 <= k < |items| && 0 <= l < |items| && Linked(items[k], items[l])
          ensures reached[k] == reached[l]
        {
          LinkedIsSymmetric(items[k], items[l]);
          if ChainFrom(items, i, k) { ExtendChain(items, i, k, l); }
          if ChainFrom(items, i, l) { ExtendChain(items, i, l, k); }
        }
      }
      assert IsChain(items, [i]);
      assert ChainFrom(items, i, i) by { assert [i][0] == i; }
      assert reached[i] == reached[j];
    }
  }

  /** Connected records agree on the package. */
  lemma ConnectedSamePackage(items: seq<Vulnerability>, i: nat, j: nat)
    requires i < |items| && j < |items| && Connected(items, i, j)
    ensures PackageKeyOf(items[i]) == PackageKeyOf(items[j])
  {
    hide PackageKeyOf, Identifiers;
    var colour := seq(|items|, k requires 0 <= k < |items| =>
        if PackageKeyOf(items[k]) == PackageKeyOf(items[i]) then 1 else 0);
    assert Respects(items, colour);
    assert colour[i] == colour[j];
  }

  lemma LinkedAreConnected(items: seq<Vulnerability>, i: nat, j: nat)
    requires i < |items| && j < |items| && Linked(items[i], items[j])
    ensures Connected(items, i, j)
  {
  }

  lemma ConnectedBack(items: seq<Vulnerability>, i: nat, j: nat)
    requires i < |items| && j < |items| && Connected(items, i, j)
    ensures Connected(items, j, i)
  {
  }

  lemma ConnectedTransitive(items: seq<Vulnerability>, i: nat, j: nat, k: nat)
    requires i < |items| && j < |items| && k < |items| && Connected(items, i, j) && Connected(items, j, k)
    ensures Connected(items, i, k)
  {
  }
}
