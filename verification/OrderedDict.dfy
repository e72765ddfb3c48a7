/** Dictionaries that remember the order in which keys were first inserted, and stable sorting of their keys. */
module OrderedDict {
  import opened Prelude

  ghost predicate Differ(order: seq<string>) {
    forall i, j | 0 <= i < j < |order| :: order[i] != order[j]
  }

  datatype Dict<V> = Dict(rows: map<string, V>, order: seq<string>) {
    function Get(k: string): Option<V> {
      if k in rows then Some(rows[k]) else None
    }

    /** `self[k] = v`: a known key keeps its place. */
    function Put(k: string, v: V): (d: Dict<V>)
      ensures Valid() ==> d.Valid()
    {
      Dict(rows[k := v], if k in rows then order else order + [k])
    }

    ghost predicate Valid() {
      && (forall k :: k in rows <==> k in order)
      && Differ(order)
    }
  }

  /** Every key has a row and a place, and no key has two. */
  type Table<V> = d: Dict<V> | d.Valid() witness Dict(map[], [])

  /** Inserts `k` after every key that does not come later, keeping a sorted list sorted. */
  function InsertAfter(k: string, sorted: seq<string>, at: map<string, int>): (r: seq<string>)
    requires k in at && forall x | x in sorted :: x in at
    ensures multiset(r) == multiset(sorted) + multiset{k}
    ensures forall x :: x in r <==> x == k || x in sorted
  {
    if sorted == [] || at[sorted[|sorted| - 1]] <= at[k] then sorted + [k]
    else
      assert sorted == sorted[..|sorted| - 1] + [sorted[|sorted| - 1]];
      InsertAfter(k, sorted[..|sorted| - 1], at) + [sorted[|sorted| - 1]]
  }

  /** `sorted(order, key=at)`, which is stable. */
  function SortBy(order: seq<string>, at: map<string, int>): (r: seq<string>)
    requires forall x | x in order :: x in at
    ensures multiset(r) == multiset(order)
    ensures forall x :: x in r <==> x in order
  {
    if order == [] then []
    else
      assert order == order[..|order| - 1] + [order[|order| - 1]];
      InsertAfter(order[|order| - 1], SortBy(order[..|order| - 1], at), at)
  }

  ghost predicate InsertedBefore(order: seq<string>, a: string, b: string) {
    exists i, j :: 0 <= i < j < |order| && order[i] == a && order[j] == b
  }

  /** The earlier of two keys is the one with the smaller value, or the one inserted first. */
  ghost predicate Earlier(order: seq<string>, at: map<string, int>, a: string, b: string)
    requires a in at && b in at
  {
    at[a] < at[b] || (at[a] == at[b] && InsertedBefore(order, a, b))
  }

  ghost predicate SortedFor(order: seq<string>, at: map<string, int>, r: seq<string>) {
    && (forall x | x in r :: x in at)
    && (forall i, j | 0 <= i < j < |r| :: Earlier(order, at, r[i], r[j]))
  }

  lemma LongerOrder(order: seq<string>, k: string, at: map<string, int>, r: seq<string>)
    requires SortedFor(order, at, r)
    ensures SortedFor(order + [k], at, r)
  {
    forall i, j | 0 <= i < j < |r| ensures Earlier(order + [k], at, r[i], r[j]) {
      if at[r[i]] == at[r[j]] {
        var m, n :| 0 <= m < n < |order| && order[m] == r[i] && order[n] == r[j];
        assert (order + [k])[m] == r[i] && (order + [k])[n] == r[j];
      }
    }
  }

  lemma {:induction false} InsertSorted(order: seq<string>, k: string, sorted: seq<string>, at: map<string, int>)
    requires k in at && SortedFor(order, at, sorted) && forall x | x in sorted :: x in order
    ensures SortedFor(order + [k], at, InsertAfter(k, sorted, at))
  {
    LongerOrder(order, k, at, sorted);
    var r := InsertAfter(k, sorted, at);
    if sorted == [] || at[sorted[|sorted| - 1]] <= at[k] {
      forall i | 0 <= i < |sorted| ensures Earlier(order + [k], at, sorted[i], k) {
        if i < |sorted| - 1 { assert Earlier(order, at, sorted[i], sorted[|sorted| - 1]); }
        assert sorted[i] in sorted;
        var m :| 0 <= m < |order| && order[m] == sorted[i];
        assert (order + [k])[m] == sorted[i] && (order + [k])[|order|] == k;
      }
    } else {
      var front, last := sorted[..|sorted| - 1], sorted[|sorted| - 1];
      InsertSorted(order, k, front, at);
      var r' := InsertAfter(k, front, at);
      forall i | 0 <= i < |r'| ensures Earlier(order + [k], at, r'[i], last) {
        assert r'[i] in r';
        if r'[i] != k {
          var j :| 0 <= j < |front| && front[j] == r'[i];
          assert Earlier(order + [k], at, sorted[j], sorted[|sorted| - 1]);
        }
      }
    }
  }

  /** Sorting puts every key before all later ones: by value first, and by insertion among equals. */
  lemma {:induction false} SortByIsSorted(order: seq<string>, at: map<string, int>)
    requires forall x | x in order :: x in at
    ensures SortedFor(order, at, SortBy(order, at))
  {
    if order == [] {
    } else {
      var front := order[..|order| - 1];
      SortByIsSorted(front, at);
      InsertSorted(front, order[|order| - 1], SortBy(front, at), at);
      assert front + [order[|order| - 1]] == order;
    }
  }

  /** Sorting different keys repeats none. */
  lemma SortedDiffer(order: seq<string>, at: map<string, int>, r: seq<string>)
    requires SortedFor(order, at, r) && Differ(order)
    ensures Differ(r)
  {
  }
}
