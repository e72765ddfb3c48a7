/**
  String operations the scanner relies on: ordering by code point, case folding,
  stripping, and sorted collections of distinct strings.

  Case folding is that of the ASCII letters; other characters fold to themselves.
*/
module Text {
  /** `a < b` in the order of code points, the order Python gives strings. */
  predicate Less(a: string, b: string) {
    if b == "" then false
    else if a == "" then true
    else a[0] < b[0] || (a[0] == b[0] && Less(a[1..], b[1..]))
  }

  lemma {:induction false} LessTrichotomy(a: string, b: string)
    ensures Less(a, b) || Less(b, a) || a == b
    ensures !(Less(a, b) && Less(b, a))
    ensures !Less(a, a)
  {
    if a == "" || b == "" {
    } else {
      LessTrichotomy(a[1..], b[1..]);
      assert a == [a[0]] + a[1..] && b == [b[0]] + b[1..];
    }
    if a == "" {
    } else {
      LessTrichotomy(a[1..], a[1..]);
    }
  }

  lemma {:induction false} LessTransitive(a: string, b: string, c: string)
    requires Less(a, b) && Less(b, c)
    ensures Less(a, c)
  {
    if a == "" || a[0] != b[0] || b[0] != c[0] {
    } else {
      LessTransitive(a[1..], b[1..], c[1..]);
    }
  }

  function FoldChar(c: char): char {
    if 'A' <= c <= 'Z' then (c as int + 32) as char else c
  }

  function UpperChar(c: char): char {
    if 'a' <= c <= 'z' then (c as int - 32) as char else c
  }

  function Fold(s: string): (r: string)
    ensures |r| == |s| && forall i | 0 <= i < |s| :: r[i] == FoldChar(s[i])
  {
    if s == "" then "" else [FoldChar(s[0])] + Fold(s[1..])
  }

  function Upper(s: string): (r: string)
    ensures |r| == |s| && forall i | 0 <= i < |s| :: r[i] == UpperChar(s[i])
  {
    if s == "" then "" else [UpperChar(s[0])] + Upper(s[1..])
  }

  predicate IsSpace(c: char) {
    c == ' ' || '\t' <= c <= '\r'
  }

  function StripLeft(s: string): string {
    if s != "" && IsSpace(s[0]) then StripLeft(s[1..]) else s
  }

  function StripRight(s: string): string {
    if s != "" && IsSpace(s[|s| - 1]) then StripRight(s[..|s| - 1]) else s
  }

  function Strip(s: string): string {
    StripRight(StripLeft(s))
  }

  predicate IsBlank(s: string) {
    forall i | 0 <= i < |s| :: IsSpace(s[i])
  }

  ghost predicate StrictlySorted(s: seq<string>) {
    forall i, j | 0 <= i < j < |s| :: Less(s[i], s[j])
  }

  /** The distinct strings of `s`. */
  ghost function Elements(s: seq<string>): set<string> {
    set x | x in s
  }

  lemma ElementsOfConcat(a: seq<string>, b: seq<string>)
    ensures Elements(a + b) == Elements(a) + Elements(b)
  {
    forall x | x in Elements(a) + Elements(b) ensures x in a + b {
      if x in a {
        var i :| 0 <= i < |a| && a[i] == x;
        assert (a + b)[i] == x;
      } else {
        var i :| 0 <= i < |b| && b[i] == x;
        assert (a + b)[|a| + i] == x;
      }
    }
  }

  /** Inserts `x` into a strictly sorted sequence unless it is already there. */
  function Insert(x: string, s: seq<string>): (r: seq<string>)
    requires StrictlySorted(s)
    ensures StrictlySorted(r)
    ensures Elements(r) == Elements(s) + {x}
  {
    if s == [] then [x]
    else if x == s[0] then s
    else if Less(x, s[0]) then
      assert forall i | 0 < i < |s| :: Less(x, s[i]) by {
        forall i | 0 < i < |s| ensures Less(x, s[i]) { LessTransitive(x, s[0], s[i]); }
      }
      [x] + s
    else
      var tail := Insert(x, s[1..]);
      assert forall i | 0 <= i < |tail| :: Less(s[0], tail[i]) by {
        LessTrichotomy(x, s[0]);
        forall i | 0 <= i < |tail| ensures Less(s[0], tail[i]) {
          assert tail[i] in Elements(s[1..]) + {x};
        }
      }
      assert s == [s[0]] + s[1..];
      ElementsOfConcat([s[0]], s[1..]);
      ElementsOfConcat([s[0]], tail);
      [s[0]] + tail
  }

  /** `sorted(set(xs) | set(s))` for a strictly sorted `s`. */
  function InsertAll(xs: seq<string>, s: seq<string>): (r: seq<string>)
    requires StrictlySorted(s)
    ensures StrictlySorted(r)
    ensures Elements(r) == Elements(s) + Elements(xs)
  {
    if xs == [] then s
    else
      assert xs == [xs[0]] + xs[1..];
      InsertAll(xs[1..], Insert(xs[0], s))
  }

  function Take<T>(s: seq<T>, n: nat): seq<T> {
    if |s| <= n then s else s[..n]
  }

  ghost predicate Above(n: nat, x: string, kept: set<string>) {
    |kept| >= n && forall y | y in kept :: Less(y, x)
  }

  /** Every member of `all` is in `kept`, or lies above a `kept` that is full. */
  ghost predicate Covers(n: nat, all: set<string>, kept: set<string>) {
    forall x | x in all :: x in kept || Above(n, x, kept)
  }

  /** `kept` holds the `n` smallest members of `all`, or all of them if there are no more. */
  ghost predicate Smallest(n: nat, kept: set<string>, all: set<string>) {
    && kept <= all
    && |kept| <= n
    && Covers(n, all, kept)
  }

  lemma {:induction false} StrictlySortedSize(s: seq<string>)
    requires StrictlySorted(s)
    ensures |Elements(s)| == |s|
  {
    if s == [] {
    } else {
      var head, tail := s[0], s[1..];
      StrictlySortedSize(tail);
      assert head !in Elements(tail) by {
        forall i | 0 <= i < |tail| ensures tail[i] != head { LessTrichotomy(head, tail[i]); }
      }
      assert s == [head] + tail;
      assert Elements(s) == {head} + Elements(tail);
    }
  }

  /** The first `n` of a strictly sorted sequence are its `n` smallest strings. */
  lemma TakeIsSmallest(s: seq<string>, n: nat)
    requires StrictlySorted(s)
    ensures Smallest(n, Elements(Take(s, n)), Elements(s))
  {
    var t := Take(s, n);
    StrictlySortedSize(t);
    forall x | x in Elements(s) ensures x in Elements(t) || Above(n, x, Elements(t)) {
      var i :| 0 <= i < |s| && s[i] == x;
      if i < |t| {
        assert t[i] == x;
      }
    }
  }

  lemma {:induction false} SubsetIsSmaller<T>(b: set<T>, c: set<T>)
    requires b <= c
    ensures |b| <= |c|
  {
    if x :| x in b {
      SubsetIsSmaller(b - {x}, c - {x});
    }
  }

  lemma {:induction false} SubsetOfEqualSize<T>(b: set<T>, c: set<T>)
    requires b <= c && |b| >= |c|
    ensures b == c
  {
    if x :| x in c && x !in b {
      SubsetIsSmaller(b, c - {x});
    }
  }

  lemma CoversTransitive(n: nat, a: set<string>, b: set<string>, c: set<string>)
    requires Covers(n, a, b) && Covers(n, b, c) && |c| <= n
    ensures Covers(n, a, c)
  {
    forall x | x in a ensures x in c || Above(n, x, c) {
      if x !in b {
        if b <= c {
          SubsetOfEqualSize(b, c);
        } else {
          var y :| y in b && y !in c;
          assert Less(y, x);
          forall z | z in c ensures Less(z, x) { LessTransitive(z, y, x); }
        }
      }
    }
  }

  lemma CoversContained(n: nat, a: set<string>, b: set<string>)
    requires Covers(n, a, b) && Covers(n, b, a) && |a| <= n && |b| <= n
    ensures a <= b
  {
    if x :| x in a && x !in b {
      forall y | y in b ensures y in a {
        LessTrichotomy(x, y);
      }
      SubsetOfEqualSize(b, a);
      assert false;
    }
  }

  lemma CoversAntisymmetric(n: nat, a: set<string>, b: set<string>)
    requires Covers(n, a, b) && Covers(n, b, a) && |a| <= n && |b| <= n
    ensures a == b
  {
    CoversContained(n, a, b);
    CoversContained(n, b, a);
  }
}
