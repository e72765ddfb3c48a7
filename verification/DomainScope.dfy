/**
  DNS authorization scope. Membership is decided on strings (`c == d or c.endswith("." + d)`);
  it is proved to be the subdomain relation on part sequences, section 3.1 of RFC 1034.
  The decision is written twice in the system, and the two agree on normalized names.
*/
module DomainScope {
  import opened Prelude
  import Text

  // ---------------------------------------------------------------- labels

  /** A dot starts a new label; any other character extends the first one. */
  function Prepend(c: char, labels: seq<string>): (r: seq<string>)
    requires labels != []
    ensures |r| >= 1
  {
    if c == '.' then [""] + labels else [[c] + labels[0]] + labels[1..]
  }

  /** `name.split(".")` */
  function Labels(name: string): (r: seq<string>)
    ensures |r| >= 1
  {
    if name == "" then [""] else Prepend(name[0], Labels(name[1..]))
  }

  lemma PrependToConcat(c: char, a: seq<string>, b: seq<string>)
    requires a != []
    ensures Prepend(c, a + b) == Prepend(c, a) + b
  {
    assert (a + b)[1..] == a[1..] + b;
  }

  /** `".".join(labels)` */
  function Join(labels: seq<string>): string
    requires labels != []
  {
    if |labels| == 1 then labels[0] else labels[0] + "." + Join(labels[1..])
  }

  lemma JoinPrepend(c: char, labels: seq<string>)
    requires labels != []
    ensures Join(Prepend(c, labels)) == [c] + Join(labels)
  {
    var r := Prepend(c, labels);
    if c == '.' {
      assert r[1..] == labels;
      assert Join(r) == "" + "." + Join(labels);
    } else {
      assert r[0] == [c] + labels[0] && r[1..] == labels[1..];
      if |labels| > 1 {
        assert Join(r) == ([c] + labels[0]) + "." + Join(labels[1..]);
      }
    }
  }

  lemma {:induction false} JoinOfLabels(name: string)
    ensures Join(Labels(name)) == name
  {
    if name == "" {
    } else {
      JoinOfLabels(name[1..]);
      JoinPrepend(name[0], Labels(name[1..]));
      assert name == [name[0]] + name[1..];
    }
  }

  lemma DotStartsLabel(labels: seq<string>)
    requires labels != []
    ensures Prepend('.', labels) == [""] + labels
  {
  }

  lemma {:induction false} LabelsOfDotted(x: string, d: string)
    ensures Labels(x + "." + d) == Labels(x) + Labels(d)
  {
    hide Prepend;
    var whole := x + "." + d;
    if x == "" {
      assert whole == ['.'] + d && whole[1..] == d;
      DotStartsLabel(Labels(d));
    } else {
      assert whole[1..] == x[1..] + "." + d;
      LabelsOfDotted(x[1..], d);
      PrependToConcat(x[0], Labels(x[1..]), Labels(d));
    }
  }

  lemma {:induction false} JoinOfConcat(a: seq<string>, b: seq<string>)
    requires a != [] && b != []
    ensures Join(a + b) == Join(a) + "." + Join(b)
  {
    if |a| == 1 {
      assert (a + b)[1..] == b;
    } else {
      JoinOfConcat(a[1..], b);
      assert (a + b)[1..] == a[1..] + b;
      assert a[0] + "." + (Join(a[1..]) + "." + Join(b)) == (a[0] + "." + Join(a[1..])) + "." + Join(b);
    }
  }

  predicate EndsWith(s: string, suffix: string) {
    |suffix| <= |s| && s[|s| - |suffix|..] == suffix
  }

  /** The test written in the source. */
  predicate Matches(candidate: string, domain: string) {
    candidate == domain || EndsWith(candidate, "." + domain)
  }

  /** The last labels of `name` are those of `domain`. */
  ghost predicate IsSubdomain(name: string, domain: string) {
    var n, d := Labels(name), Labels(domain);
    |d| <= |n| && n[|n| - |d|..] == d
  }

  ghost predicate IsProperSubdomain(name: string, domain: string) {
    IsSubdomain(name, domain) && |Labels(domain)| < |Labels(name)|
  }

  lemma SuffixGivesLabels(candidate: string, domain: string)
    requires EndsWith(candidate, "." + domain)
    ensures IsProperSubdomain(candidate, domain)
  {
    hide Labels;
    var x := candidate[..|candidate| - |domain| - 1];
    assert candidate == x + ("." + domain) == x + "." + domain;
    LabelsOfDotted(x, domain);
  }

  lemma LabelsGiveSuffix(candidate: string, domain: string)
    requires IsProperSubdomain(candidate, domain)
    ensures EndsWith(candidate, "." + domain)
  {
    hide Labels, Join;
    var n, d := Labels(candidate), Labels(domain);
    var front := n[..|n| - |d|];
    assert n == front + d;
    JoinOfLabels(candidate);
    JoinOfLabels(domain);
    JoinOfConcat(front, d);
    assert candidate == Join(front) + ("." + domain);
  }

  lemma DottedSuffixIsSubdomain(candidate: string, domain: string)
    ensures EndsWith(candidate, "." + domain) <==> IsProperSubdomain(candidate, domain)
  {
    if EndsWith(candidate, "." + domain) {
      SuffixGivesLabels(candidate, domain);
    }
    if IsProperSubdomain(candidate, domain) {
      LabelsGiveSuffix(candidate, domain);
    }
  }

  /** The string test is exactly the subdomain relation of the DNS. */
  lemma MatchesIsSubdomain(candidate: string, domain: string)
    ensures Matches(candidate, domain) <==> IsSubdomain(candidate, domain)
  {
    DottedSuffixIsSubdomain(candidate, domain);
    if IsSubdomain(candidate, domain) && |Labels(candidate)| == |Labels(domain)| {
      JoinOfLabels(candidate);
      JoinOfLabels(domain);
    }
  }

  lemma SubdomainTransitive(a: string, b: string, c: string)
    requires IsSubdomain(a, b) && IsSubdomain(b, c)
    ensures IsSubdomain(a, c)
  {
    var (x, y, z) := (Labels(a), Labels(b), Labels(c));
    assert x[|x| - |y|..][|y| - |z|..] == x[|x| - |z|..];
  }

  // ---------------------------------------------------------------- normalization

  predicate IsLower(c: char) { 'a' <= c <= 'z' }

  predicate IsAlphanumeric(c: char) { IsLower(c) || '0' <= c <= '9' }

  /** `^[a-z0-9](?:[a-z0-9-]{0,61}[a-z0-9])?$` */
  predicate IsLabel(part: string) {
    && 1 <= |part| <= 63
    && IsAlphanumeric(part[0]) && IsAlphanumeric(part[|part| - 1])
    && forall i | 0 <= i < |part| :: IsAlphanumeric(part[i]) || part[i] == '-'
  }

  predicate IsTopLevel(part: string) {
    || (|part| >= 2 && forall i | 0 <= i < |part| :: IsLower(part[i]))
    || "xn--" <= part
  }

  function DropDots(s: string): string {
    if s != "" && s[|s| - 1] == '.' then DropDots(s[..|s| - 1]) else s
  }

  predicate IsNormal(name: string) {
    var labels := Labels(name);
    && 1 <= |name| <= 253
    && |labels| >= 2
    && (forall i | 0 <= i < |labels| :: IsLabel(labels[i]))
    && IsTopLevel(labels[|labels| - 1])
  }

  /** `normalize_domain` on ASCII input; no result stands for its `ValueError`. */
  function Normalize(value: string): Option<string> {
    var candidate := Text.Fold(DropDots(Text.Strip(value)));
    if IsNormal(candidate) then Some(candidate) else None
  }

  lemma JoinNotEmpty(labels: seq<string>)
    requires labels != [] && forall k | 0 <= k < |labels| :: IsLabel(labels[k])
    ensures Join(labels) != ""
  {
  }

  lemma {:induction false} JoinCharacters(labels: seq<string>, i: nat)
    requires labels != [] && (forall k | 0 <= k < |labels| :: IsLabel(labels[k])) && i < |Join(labels)|
    ensures IsAlphanumeric(Join(labels)[i]) || Join(labels)[i] == '-' || Join(labels)[i] == '.'
    ensures i == 0 ==> IsAlphanumeric(Join(labels)[i])
    ensures i == |Join(labels)| - 1 ==> IsAlphanumeric(Join(labels)[i])
  {
    if |labels| == 1 {
      assert Join(labels) == labels[0];
    } else {
      var head, tail := labels[0], Join(labels[1..]);
      assert Join(labels) == head + "." + tail;
      if i > |head| {
        JoinCharacters(labels[1..], i - |head| - 1);
      } else if tail == "" {
        assert |labels[1..]| >= 1;
        JoinNotEmpty(labels[1..]);
      } else {
        JoinNotEmpty(labels[1..]);
      }
    }
  }

  lemma {:induction false} LabelCharacters(name: string, i: nat)
    requires (forall k | 0 <= k < |Labels(name)| :: IsLabel(Labels(name)[k])) && i < |name|
    ensures IsAlphanumeric(name[i]) || name[i] == '-' || name[i] == '.'
  {
    JoinOfLabels(name);
    JoinCharacters(Labels(name), i);
  }

  lemma StripKeeps(s: string)
    requires s != "" && !Text.IsSpace(s[0]) && !Text.IsSpace(s[|s| - 1])
    ensures Text.Strip(s) == s
  {
  }

  lemma NormalCharacters(name: string)
    requires IsNormal(name)
    ensures name != "" && IsAlphanumeric(name[0]) && IsAlphanumeric(name[|name| - 1])
    ensures forall i | 0 <= i < |name| :: IsAlphanumeric(name[i]) || name[i] == '-' || name[i] == '.'
  {
    hide IsLabel, IsTopLevel, IsAlphanumeric;
    JoinOfLabels(name);
    JoinCharacters(Labels(name), 0);
    JoinCharacters(Labels(name), |name| - 1);
    forall i | 0 <= i < |name| ensures IsAlphanumeric(name[i]) || name[i] == '-' || name[i] == '.' {
      LabelCharacters(name, i);
    }
  }

  /** A normalized name is its own normal form. */
  lemma NormalizeIdempotent(name: string)
    requires IsNormal(name)
    ensures Normalize(name) == Some(name)
  {
    NormalCharacters(name);
    hide IsNormal, Labels;
    StripKeeps(name);
    assert DropDots(name) == name;
    assert forall i | 0 <= i < |name| :: Text.FoldChar(name[i]) == name[i];
    assert Text.Fold(name) == name;
  }

  // ---------------------------------------------------------------- the two decisions

  datatype Scope = Scope(allowed: set<string>, excluded: set<string>, allowSubdomains: bool)

  /** `AuthorizationScope.allows_domain`; no result when the name cannot be normalized. */
  function AllowsDomain(scope: Scope, domain: string): Option<bool> {
    var candidate := Normalize(domain);
    if candidate.None? then None
    else if exists denied | denied in scope.excluded ::
        candidate.value == denied || EndsWith(candidate.value, "." + denied) then Some(false)
    else if candidate.value in scope.allowed then Some(true)
    else Some(scope.allowSubdomains && exists a | a in scope.allowed :: EndsWith(candidate.value, "." + a))
  }

  /** The target check of `DeepScanAuditContext.audit_scope_is_consistent`. */
  predicate AuditAccepts(scope: Scope, target: string) {
    var denied := exists domain | domain in scope.excluded :: target == domain || EndsWith(target, "." + domain);
    var directlyAllowed := target in scope.allowed;
    var subdomainAllowed := scope.allowSubdomains && exists domain | domain in scope.allowed ::
        EndsWith(target, "." + domain);
    !(denied || !(directlyAllowed || subdomainAllowed))
  }

  /** What the scope authorizes, said with the subdomain relation. */
  ghost predicate Authorized(scope: Scope, name: string) {
    && (forall denied | denied in scope.excluded :: !IsSubdomain(name, denied))
    && (name in scope.allowed
       || (scope.allowSubdomains && exists a :: a in scope.allowed && IsProperSubdomain(name, a)))
  }

  /** `allows_domain` authorizes exactly the names the scope covers. */
  lemma AllowsDomainDecides(scope: Scope, domain: string)
    ensures AllowsDomain(scope, domain).Some? <==> Normalize(domain).Some?
    ensures AllowsDomain(scope, domain).Some? ==>
              (AllowsDomain(scope, domain).value <==> Authorized(scope, Normalize(domain).value))
  {
    var candidate := Normalize(domain);
    if candidate.Some? {
      var name := candidate.value;
      forall d ensures Matches(name, d) <==> IsSubdomain(name, d) { MatchesIsSubdomain(name, d); }
      forall d ensures EndsWith(name, "." + d) <==> IsProperSubdomain(name, d) { DottedSuffixIsSubdomain(name, d); }
      assert forall d :: Matches(name, d) <==> name == d || EndsWith(name, "." + d);
      hide IsSubdomain, EndsWith;
    }
  }

  /** The scan report's audit takes the same decision as the authorization itself. */
  lemma AuditAgrees(scope: Scope, target: string)
    requires IsNormal(target)
    ensures AllowsDomain(scope, target) == Some(AuditAccepts(scope, target))
  {
    NormalizeIdempotent(target);
    hide EndsWith, Normalize;
  }

  /** An excluded name takes all its subdomains with it, whatever is allowed. */
  lemma ExclusionDominates(scope: Scope, name: string, below: string, denied: string)
    requires denied in scope.excluded && IsSubdomain(name, denied) && IsSubdomain(below, name)
    ensures !Authorized(scope, below)
    ensures Normalize(below) == Some(below) ==> AllowsDomain(scope, below) == Some(false)
  {
    SubdomainTransitive(below, name, denied);
    AllowsDomainDecides(scope, below);
  }
}
