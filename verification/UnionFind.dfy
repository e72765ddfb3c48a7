/**
  The disjoint-set forest of `merge_vulnerabilities`: a list of parent indices updated in
  place, searched with path halving, and joined by making the larger root a child of the
  smaller one. A forest never points upwards, so every root is the least index of its tree.
*/
module UnionFind {
  ghost predicate Forest(p: seq<nat>) {
    forall i | 0 <= i < |p| :: p[i] <= i
  }

  /** The root reached from `i` by following parents. */
  ghost function Root(p: seq<nat>, i: nat): (r: nat)
    requires Forest(p) && i < |p|
    ensures r <= i && p[r] == r
    decreases i
  {
    if p[i] == i then i else Root(p, p[i])
  }

  lemma {:induction false} RootIsRoot(p: seq<nat>, i: nat)
    requires Forest(p) && i < |p|
    ensures Root(p, Root(p, i)) == Root(p, i)
  {
    var r := Root(p, i);
    assert p[r] == r;
  }

  /** `i` may be made to point at any proper ancestor: no root changes. */
  lemma {:induction false} ShortcutKeepsRoots(p: seq<nat>, i: nat, k: nat)
    requires Forest(p) && i < |p| && k < |p|
    ensures Forest(p[i := p[p[i]]])
    ensures Root(p[i := p[p[i]]], k) == Root(p, k)
    decreases k
  {
    var q := p[i := p[p[i]]];
    assert Forest(q) by {
      assert p[p[i]] <= p[i] <= i;
    }
    if k == i {
      if p[i] != i {
        assert Root(p, i) == Root(p, p[i]);
        assert Root(p, p[i]) == Root(p, p[p[i]]);
        if p[p[i]] != i {
          ShortcutKeepsRoots(p, i, p[p[i]]);
        }
      }
    } else if p[k] != k {
      ShortcutKeepsRoots(p, i, p[k]);
    }
  }

  /** Hanging root `high` below the smaller root `low` redirects exactly its own tree. */
  lemma {:induction false} LinkRoots(p: seq<nat>, low: nat, high: nat, k: nat)
    requires Forest(p) && low < high < |p| && k < |p|
    requires p[low] == low && p[high] == high
    ensures Forest(p[high := low])
    ensures Root(p[high := low], k) == if Root(p, k) == high then low else Root(p, k)
    decreases k
  {
    var q := p[high := low];
    if k == high {
      assert Root(q, high) == Root(q, low) == low;
    } else if p[k] != k {
      LinkRoots(p, low, high, p[k]);
    }
  }

  /** Path-halving search. It may rewrite parents but never moves an element to another root. */
  method Find(parents: array<nat>, start: nat) returns (root: nat)
    requires Forest(parents[..]) && start < parents.Length
    modifies parents
    ensures Forest(parents[..])
    ensures forall k | 0 <= k < parents.Length :: Root(parents[..], k) == old(Root(parents[..], k))
    ensures root == old(Root(parents[..], start))
  {
    var index: nat := start;
    ghost var before := parents[..];
    while parents[index] != index
      invariant index <= start && Forest(parents[..])
      invariant forall k | 0 <= k < parents.Length :: Root(parents[..], k) == Root(before, k)
      invariant Root(parents[..], index) == Root(before, start)
      decreases index
    {
      ghost var p := parents[..];
      forall k | 0 <= k < |p|
        ensures Forest(p[index := p[p[index]]])
        ensures Root(p[index := p[p[index]]], k) == Root(p, k)
      {
        ShortcutKeepsRoots(p, index, k);
      }
      parents[index] := parents[parents[index]];
      assert parents[..] == p[index := p[p[index]]];
      assert Root(parents[..], index) == Root(parents[..], parents[index]);
      index := parents[index];
    }
    root := index;
  }

  /** Where the root of an element ends up when the trees of roots `l` and `r` are joined. */
  ghost function Joined(l: nat, r: nat, root: nat): nat {
    if root == l || root == r then (if l < r then l else r) else root
  }

  /** Joins two trees under the smaller of their roots and leaves all other trees alone. */
  method Union(parents: array<nat>, left: nat, right: nat)
    requires Forest(parents[..]) && left < parents.Length && right < parents.Length
    modifies parents
    ensures Forest(parents[..])
    ensures forall k | 0 <= k < parents.Length ::
              Root(parents[..], k)
                  == Joined(old(Root(parents[..], left)), old(Root(parents[..], right)), old(Root(parents[..], k)))
  {
    var leftRoot := Find(parents, left);
    var rightRoot := Find(parents, right);
    if leftRoot != rightRoot {
      var low: nat, high: nat := leftRoot, rightRoot;
      if rightRoot < leftRoot {
        low, high := rightRoot, leftRoot;
      }
      ghost var p := parents[..];
      forall k | 0 <= k < |p|
        ensures Forest(p[high := low])
        ensures Root(p[high := low], k) == if Root(p, k) == high then low else Root(p, k)
      {
        LinkRoots(p, low, high, k);
      }
      parents[high] := low;
      assert parents[..] == p[high := low];
    }
  }
}
