/**
  The algebra of the inventory merge, validation aside: `Overlay` is what a merge gives if every
  merged row validates. For values whose lists hold no identity twice and whose
  shapes agree, the position index is exact throughout the list loop, merging keeps values
  well formed, merging again adds nothing, and the grouping of contributions does not matter.
*/
module InventoryLaws {
  import opened Prelude
  import opened InventoryMerge

  // ---------------------------------------------------------------- the merge without validation

  ghost function OverlayItem(p: Progress, item: Value): (q: Progress)
    requires InBounds(p)
    ensures InBounds(q)
    decreases item, 2, 0
  {
    var identity := IdentityOf(item);
    if identity !in p.positions then Progress(p.result + [item], p.positions[identity := |p.result|])
    else
      var position := p.positions[identity];
      if SameModel(p.result[position], item) then
        p.(result := p.result[position := Overlay(p.result[position], item)])
      else p
  }

  /** The list loop after `n` incoming items. */
  ghost function OverlayItems(current: seq<Value>, incoming: Value, n: nat): (p: Progress)
    requires incoming.List? && n <= |incoming.items|
    ensures InBounds(p)
    decreases incoming, 0, n
  {
    if n == 0 then Progress(current, IndexOf(current))
    else OverlayItem(OverlayItems(current, incoming, n - 1), incoming.items[n - 1])
  }

  ghost function Overlay(current: Value, incoming: Value): Value
    decreases incoming, 1, 0
  {
    match incoming
    case Null => current
    case Scalar(_) => incoming
    case Number(_) => incoming
    case Object(_) => if current.Object? then Object(OverlayFields(current.fields, incoming)) else incoming
    case Model(_, _) => if SameModel(current, incoming)
        then Model(current.kind, OverlayFields(current.fields, incoming))
        else incoming
    case List(items) => if current.List? then List(OverlayItems(current.items, incoming, |items|).result) else incoming
  }

  /** Merges the fields of `incoming` into `base`; absent information is skipped. */
  ghost function OverlayFields(base: Fields, incoming: Value): Fields
    requires incoming.Object? || incoming.Model?
    decreases incoming, 0, 0
  {
    map k | k in base.Keys + incoming.fields.Keys && (k in base || incoming.fields[k] != Null) ::
      if k in incoming.fields then Overlay(Get(base, k), incoming.fields[k]) else base[k]
  }

  // ---------------------------------------------------------------- identity is preserved

  predicate PlainText(v: Value) {
    v.Null? || v.Scalar? || v.Number?
  }

  /** Identifying fields hold text or nothing. */
  predicate PlainKeys(v: Value) {
    v.Model? && Components(v.kind).Some? ==>
      forall c, i | 0 <= c < |Components(v.kind).value| && 0 <= i < |Components(v.kind).value[c]| ::
        PlainText(Get(v.fields, Components(v.kind).value[c][i].0))
  }

  /**
    The one way a merge can change a row's identity: an empty thumbprint replaces a certificate's
    thumbprint while the incoming row has no serial number, so that the current serial number,
    which was not part of the identity, becomes it.
   */
  predicate UncoversSerial(current: Value, incoming: Value)
    requires current.Model? && incoming.Model?
  {
    && current.kind == CertificateInfo
    && Get(incoming.fields, "thumbprint") != Null && !IsTruthy(Get(incoming.fields, "thumbprint"))
    && Get(incoming.fields, "serial_number") == Null
    && IsTruthy(Get(current.fields, "thumbprint"))
    && IsTruthy(Get(current.fields, "serial_number"))
    && Read(Get(current.fields, "serial_number"), Folded) != Read(Get(current.fields, "thumbprint"), Folded)
  }

  lemma OverlaidField(current: Value, incoming: Value, name: string)
    requires SameModel(current, incoming)
    requires PlainText(Get(current.fields, name)) && PlainText(Get(incoming.fields, name))
    ensures Get(Overlay(current, incoming).fields, name) ==
            if Get(incoming.fields, name) == Null then Get(current.fields, name) else Get(incoming.fields, name)
  {
    var merged := OverlayFields(current.fields, incoming);
    assert Overlay(current, incoming) == Model(current.kind, merged);
    if name in incoming.fields {
      assert name in merged ==> merged[name] == Overlay(Get(current.fields, name), incoming.fields[name]);
    }
  }

  lemma ReadOne(fields: Fields, a: (string, Reading))
    ensures ReadComponent(fields, [a]) == Read(Get(fields, a.0), a.1)
  {
  }

  lemma ReadTwo(fields: Fields, a: (string, Reading), b: (string, Reading))
    ensures ReadComponent(fields, [a, b]) == if IsTruthy(Get(fields, a.0)) then Read(Get(fields, a.0), a.1)
            else Read(Get(fields, b.0), b.1)
  {
    assert [a, b][1..] == [b];
    ReadOne(fields, b);
  }

  lemma ReadThree(fields: Fields, a: (string, Reading), b: (string, Reading), c: (string, Reading))
    ensures ReadComponent(fields, [a, b, c]) ==
            if IsTruthy(Get(fields, a.0)) then Read(Get(fields, a.0), a.1)
            else if IsTruthy(Get(fields, b.0)) then Read(Get(fields, b.0), b.1)
            else Read(Get(fields, c.0), c.1)
  {
    assert [a, b, c][1..] == [b, c];
    ReadTwo(fields, b, c);
  }

  /** Merging one component keeps its reading, the certificate case apart. */
  lemma ComponentKept(current: Value, incoming: Value, c: nat)
    requires SameModel(current, incoming) && Components(current.kind).Some? && PlainKeys(current) && PlainKeys(incoming)
    requires c < |Components(current.kind).value|
    requires ReadComponent(current.fields, Components(current.kind).value[c])
             == ReadComponent(incoming.fields, Components(current.kind).value[c])
    ensures ReadComponent(Overlay(current, incoming).fields, Components(current.kind).value[c])
            == ReadComponent(current.fields, Components(current.kind).value[c])
            <==> !(UncoversSerial(current, incoming) && c == 1)
  {
    var choices := Components(current.kind).value[c];
    var merged := Overlay(current, incoming).fields;
    forall i | 0 <= i < |choices|
      ensures Get(merged, choices[i].0) ==
              if Get(incoming.fields, choices[i].0) == Null then Get(current.fields, choices[i].0)
                  else Get(incoming.fields, choices[i].0)
    {
      OverlaidField(current, incoming, choices[i].0);
    }
    if |choices| == 1 {
      assert choices == [choices[0]];
    } else if |choices| == 2 {
      ReadTwo(current.fields, choices[0], choices[1]);
      ReadTwo(incoming.fields, choices[0], choices[1]);
      ReadTwo(merged, choices[0], choices[1]);
    } else {
      ReadThree(current.fields, choices[0], choices[1], choices[2]);
      ReadThree(incoming.fields, choices[0], choices[1], choices[2]);
      ReadThree(merged, choices[0], choices[1], choices[2]);
    }
  }

  /** `_merge_model` keeps the identity of the rows it merges exactly when no serial is uncovered. */
  lemma IdentityKept(current: Value, incoming: Value)
    requires SameModel(current, incoming) && Components(current.kind).Some? && PlainKeys(current) && PlainKeys(incoming)
    requires IdentityOf(current) == IdentityOf(incoming)
    ensures IdentityOf(Overlay(current, incoming)) == IdentityOf(current) <==> !UncoversSerial(current, incoming)
  {
    var components := Components(current.kind).value;
    var before, after := IdentityOf(current), IdentityOf(Overlay(current, incoming));
    forall c | 0 <= c < |components|
      ensures before.parts[c] == after.parts[c] <==> !(UncoversSerial(current, incoming) && c == 1)
    {
      assert IdentityOf(incoming).parts[c] == before.parts[c];
      ComponentKept(current, incoming, c);
    }
    if UncoversSerial(current, incoming) {
      assert before.parts[1] != after.parts[1];
    }
  }

  // ---------------------------------------------------------------- well-formed and compatible values

  ghost predicate Distinct(items: seq<Value>) {
    forall i, j | 0 <= i < j < |items| :: IdentityOf(items[i]) != IdentityOf(items[j])
  }

  /** No list repeats an identity, identifying fields are plain text, and no thumbprint is empty. */
  ghost predicate WellFormed(v: Value)
    decreases v
  {
    match v
    case Null => true
    case Scalar(_) => true
    case Number(_) => true
    case Object(fields) => forall k | k in fields :: WellFormed(fields[k])
    case Model(kind, fields) =>
      && (forall k | k in fields :: WellFormed(fields[k]))
      && PlainKeys(v)
      && (kind == CertificateInfo ==> Get(fields, "thumbprint") == Null || IsTruthy(Get(fields, "thumbprint")))
    case List(items) => Distinct(items) && forall i | 0 <= i < |items| :: WellFormed(items[i])
  }

  predicate IsAtom(v: Value) {
    v.Scalar? || v.Number?
  }

  /** The two values have one shape wherever both say something. */
  ghost predicate Compatible(a: Value, b: Value)
    decreases b
  {
    || a.Null? || b.Null?
    || (IsAtom(a) && IsAtom(b))
    || (a.Object? && b.Object? && CompatibleFields(a.fields, b))
    || (SameModel(a, b) && CompatibleFields(a.fields, b))
    || (a.List? && b.List? && forall i, j | 0 <= i < |a.items| && 0 <= j < |b.items|
       && IdentityOf(a.items[i]) == IdentityOf(b.items[j]) ::
          Compatible(a.items[i], b.items[j]))
  }

  ghost predicate CompatibleFields(a: Fields, b: Value)
    requires b.Object? || b.Model?
    decreases b, 0
  {
    forall k | k in a && k in b.fields :: Compatible(a[k], b.fields[k])
  }

  function Ids(items: seq<Value>): seq<Identity> {
    seq(|items|, i requires 0 <= i < |items| => IdentityOf(items[i]))
  }

  /** Every item is found at its position, and nothing else is. */
  ghost predicate ExactIndex(p: Progress) {
    && (forall i | 0 <= i < |p.result| ::
          IdentityOf(p.result[i]) in p.positions && p.positions[IdentityOf(p.result[i])] == i)
    && (forall d | d in p.positions :: p.positions[d] < |p.result| && IdentityOf(p.result[p.positions[d]]) == d)
  }

  ghost function Find(items: seq<Value>, d: Identity): (r: Option<Value>)
    ensures r.None? <==> d !in Ids(items)
    ensures r.Some? ==> r.value in items && IdentityOf(r.value) == d
  {
    if i :| 0 <= i < |items| && IdentityOf(items[i]) == d then
      assert Ids(items)[i] == d;
      Some(items[i])
    else None
  }

  lemma FindAt(items: seq<Value>, i: nat)
    requires Distinct(items) && i < |items|
    ensures Find(items, IdentityOf(items[i])) == Some(items[i])
  {
    assert Ids(items)[i] == IdentityOf(items[i]);
  }

  /** A list without repeated identities is determined by its identities and what is found under them. */
  lemma SameList(xs: seq<Value>, ys: seq<Value>)
    requires Distinct(xs) && Distinct(ys) && Ids(xs) == Ids(ys)
    requires forall d :: Find(xs, d) == Find(ys, d)
    ensures xs == ys
  {
    assert |xs| == |Ids(xs)| == |ys|;
    forall i | 0 <= i < |xs| ensures xs[i] == ys[i] {
      FindAt(xs, i);
      FindAt(ys, i);
      assert Ids(xs)[i] == Ids(ys)[i];
    }
  }

  lemma ExactAfter(front: seq<Value>, positions: map<Identity, nat>, item: Value)
    requires Distinct(front + [item]) && ExactIndex(Progress(front, positions))
    ensures ExactIndex(Progress(front + [item], positions[IdentityOf(item) := |front|]))
  {
    hide IdentityOf;
    var items := front + [item];
    forall k | 0 <= k < |front| ensures IdentityOf(front[k]) != IdentityOf(item) {
      assert items[k] == front[k] && items[|front|] == item;
    }
  }

  lemma NothingIndexed()
    ensures ExactIndex(Progress([], map[]))
  {
  }

  lemma {:induction false} IndexIsExact(items: seq<Value>)
    requires Distinct(items)
    ensures ExactIndex(Progress(items, IndexOf(items)))
  {
    hide ExactIndex, IdentityOf;
    if items == [] {
      NothingIndexed();
    } else {
      var front, last := items[..|items| - 1], items[|items| - 1];
      IndexIsExact(front);
      assert front + [last] == items;
      ExactAfter(front, IndexOf(front), last);
    }
  }

  /** What a row becomes when a row of the same identity comes in. */
  ghost function Combine(x: Value, y: Value): Value {
    if SameModel(x, y) then Overlay(x, y) else x
  }

  ghost function CombineFound(x: Option<Value>, y: Option<Value>): Option<Value> {
    if x.None? then y else if y.None? then x else Some(Combine(x.value, y.value))
  }

  /** A well-formed value merged into itself is unchanged. */
  lemma {:induction false} SelfOverlay(v: Value)
    requires WellFormed(v)
    ensures Overlay(v, v) == v
    decreases v, 1
  {
    match v
    case Null =>
    case Scalar(_) =>
    case Number(_) =>
    case Object(fields) =>
      forall k | k in fields ensures Overlay(fields[k], fields[k]) == fields[k] { SelfOverlay(fields[k]); }
      assert OverlayFields(fields, v) == fields;
    case Model(_, fields) =>
      forall k | k in fields ensures Overlay(fields[k], fields[k]) == fields[k] { SelfOverlay(fields[k]); }
      assert OverlayFields(fields, v) == fields;
    case List(items) =>
      SelfOverlayItems(v, |items|);
  }

  lemma {:induction false} SelfOverlayItems(v: Value, n: nat)
    requires WellFormed(v) && v.List? && n <= |v.items|
    ensures OverlayItems(v.items, v, n) == Progress(v.items, IndexOf(v.items))
    decreases v, 0, n
  {
    assert Distinct(v.items) && (n > 0 ==> WellFormed(v.items[n - 1]));
    hide WellFormed, IdentityOf, SameModel, Overlay, Distinct;
    if n == 0 {
    } else {
      var item := v.items[n - 1];
      SelfOverlayItems(v, n - 1);
      SelfOverlay(item);
      IndexIsExact(v.items);
      assert v.items[n - 1 := item] == v.items;
    }
  }

  /** Rows of one identity combine to a row of that identity. */
  lemma CombineKeepsIdentity(x: Value, y: Value)
    requires WellFormed(x) && WellFormed(y) && IdentityOf(x) == IdentityOf(y)
    ensures IdentityOf(Combine(x, y)) == IdentityOf(x)
  {
    if x == y {
      SelfOverlay(x);
    } else if SameModel(x, y) {
      IdentityKept(x, y);
    }
  }

  /** The members of `xs` that are not `known`, in order. */
  function New(known: seq<Identity>, xs: seq<Identity>): seq<Identity> {
    if xs == [] then []
    else New(known, xs[..|xs| - 1]) + if xs[|xs| - 1] in known then [] else [xs[|xs| - 1]]
  }

  /** The state of the list loop after `n` incoming rows. */
  ghost predicate OverlaidRows(current: seq<Value>, incoming: seq<Value>, p: Progress) {
    && Distinct(p.result) && ExactIndex(p)
    && Ids(p.result) == Ids(current) + New(Ids(current), Ids(incoming))
    && (forall d :: Find(p.result, d) == CombineFound(Find(current, d), Find(incoming, d)))
  }

  lemma {:induction false} NewMembers(known: seq<Identity>, xs: seq<Identity>, d: Identity)
    ensures d in New(known, xs) <==> d in xs && d !in known
  {
    if xs == [] {
    } else {
      NewMembers(known, xs[..|xs| - 1], d);
      assert xs == xs[..|xs| - 1] + [xs[|xs| - 1]];
    }
  }

  lemma FindStep(items: seq<Value>, n: nat, d: Identity)
    requires 0 < n <= |items| && Distinct(items)
    ensures Find(items[..n], d) == if d == IdentityOf(items[n - 1]) then Some(items[n - 1]) else Find(items[..n - 1], d)
  {
    assert Ids(items[..n]) == Ids(items[..n - 1]) + [IdentityOf(items[n - 1])];
    assert Distinct(items[..n]);
    if d == IdentityOf(items[n - 1]) {
      FindAt(items[..n], n - 1);
    } else if d in Ids(items[..n - 1]) {
      var i :| 0 <= i < n - 1 && IdentityOf(items[i]) == d;
      FindAt(items[..n], i);
      FindAt(items[..n - 1], i);
    }
  }

  lemma NotBefore(items: seq<Value>, n: nat)
    requires 0 < n <= |items| && Distinct(items)
    ensures IdentityOf(items[n - 1]) !in Ids(items[..n - 1])
  {
  }

  lemma NoRowsYet(current: seq<Value>, incoming: Value)
    requires incoming.List? && Distinct(current)
    ensures OverlaidRows(current, incoming.items[..0], OverlayItems(current, incoming, 0))
  {
    IndexIsExact(current);
    assert Ids(current) + [] == Ids(current);
  }

  lemma InPositions(p: Progress, d: Identity)
    requires ExactIndex(p)
    ensures d in p.positions <==> d in Ids(p.result)
  {
    if d in p.positions {
      assert Ids(p.result)[p.positions[d]] == d;
    }
  }

  lemma AppendRow(current: seq<Value>, items: seq<Value>, n: nat, p: Progress)
    requires 0 < n <= |items| && Distinct(items) && OverlaidRows(current, items[..n - 1], p)
    requires IdentityOf(items[n - 1]) !in p.positions
    requires Ids(items[..n]) == Ids(items[..n - 1]) + [IdentityOf(items[n - 1])]
    ensures OverlaidRows(current, items[..n],
            Progress(p.result + [items[n - 1]], p.positions[IdentityOf(items[n - 1]) := |p.result|]))
  {
    var item := items[n - 1];
    var identity := IdentityOf(item);
    var q := Progress(p.result + [item], p.positions[identity := |p.result|]);
    InPositions(p, identity);
    assert Ids(q.result) == Ids(p.result) + [identity];
    assert Distinct(q.result) by {
      forall i | 0 <= i < |p.result| ensures IdentityOf(p.result[i]) != identity {
        assert Ids(p.result)[i] in Ids(p.result);
      }
    }
    assert identity !in Ids(current) by {
      assert forall d | d in Ids(current) :: d in Ids(p.result);
    }
    forall d ensures Find(q.result, d) == CombineFound(Find(current, d), Find(items[..n], d)) {
      FindStep(items, n, d);
      assert q.result[..|q.result|] == q.result && q.result[..|p.result|] == p.result;
      FindStep(q.result, |q.result|, d);
      assert Find(p.result, d) == CombineFound(Find(current, d), Find(items[..n - 1], d));
    }
    assert ExactIndex(q);
  }

  lemma FindAfterReplace(items: seq<Value>, i: nat, v: Value, d: Identity)
    requires Distinct(items) && i < |items| && IdentityOf(v) == IdentityOf(items[i])
    ensures Ids(items[i := v]) == Ids(items) && Distinct(items[i := v])
    ensures Find(items[i := v], d) == if d == IdentityOf(v) then Some(v) else Find(items, d)
  {
    var replaced := items[i := v];
    assert Ids(replaced) == Ids(items);
    assert Distinct(replaced) by {
      forall j, k | 0 <= j < k < |replaced| ensures IdentityOf(replaced[j]) != IdentityOf(replaced[k]) {
        assert Ids(replaced)[j] == Ids(items)[j] && Ids(replaced)[k] == Ids(items)[k];
      }
    }
    assert Ids(items)[i] == IdentityOf(v);
    if d in Ids(items) {
      var j :| 0 <= j < |items| && Ids(items)[j] == d;
      FindAt(replaced, j);
      FindAt(items, j);
    }
  }

  lemma ExactAfterReplace(p: Progress, position: nat, v: Value)
    requires ExactIndex(p) && position < |p.result| && IdentityOf(v) == IdentityOf(p.result[position])
    ensures ExactIndex(p.(result := p.result[position := v]))
  {
    hide IdentityOf;
  }

  lemma ReplaceRow(current: seq<Value>, items: seq<Value>, n: nat, p: Progress)
    requires 0 < n <= |items| && WellFormed(List(items)) && WellFormed(List(current))
             && OverlaidRows(current, items[..n - 1], p)
    requires IdentityOf(items[n - 1]) in p.positions
    requires Ids(items[..n]) == Ids(items[..n - 1]) + [IdentityOf(items[n - 1])]
    ensures var position := p.positions[IdentityOf(items[n - 1])];
            position < |p.result|
            && OverlaidRows(current, items[..n],
               p.(result := p.result[position := Combine(p.result[position], items[n - 1])]))
  {
    hide Combine, IdentityOf;
    var item := items[n - 1];
    var identity := IdentityOf(item);
    var position := p.positions[identity];
    var row := p.result[position];
    NotBefore(items, n);
    FindAt(p.result, position);
    InPositions(p, identity);
    NewMembers(Ids(current), Ids(items[..n - 1]), identity);
    assert Find(current, identity) == Some(row);
    assert row in current && WellFormed(row) && WellFormed(item);
    CombineKeepsIdentity(row, item);
    hide WellFormed, New, ExactIndex;
    var q := p.(result := p.result[position := Combine(row, item)]);
    assert Ids(items[..n])[..n - 1] == Ids(items[..n - 1]);
    forall d ensures Find(q.result, d) == CombineFound(Find(current, d), Find(items[..n], d)) {
      FindStep(items, n, d);
      FindAfterReplace(p.result, position, Combine(row, item), d);
      assert Find(p.result, d) == CombineFound(Find(current, d), Find(items[..n - 1], d));
    }
    FindAfterReplace(p.result, position, Combine(row, item), identity);
    ExactAfterReplace(p, position, Combine(row, item));
  }

  lemma TurnOverlays(p: Progress, item: Value)
    requires InBounds(p)
    ensures OverlayItem(p, item) ==
            if IdentityOf(item) !in p.positions then
              Progress(p.result + [item], p.positions[IdentityOf(item) := |p.result|])
            else
              var position := p.positions[IdentityOf(item)];
              p.(result := p.result[position := Combine(p.result[position], item)])
  {
    hide Overlay, IdentityOf;
    if IdentityOf(item) in p.positions {
      var position := p.positions[IdentityOf(item)];
      assert p.result[position := p.result[position]] == p.result;
    }
  }

  lemma TurnKeepsRows(current: seq<Value>, items: seq<Value>, n: nat, p: Progress)
    requires 0 < n <= |items| && WellFormed(List(items)) && WellFormed(List(current))
    requires OverlaidRows(current, items[..n - 1], p) && InBounds(p)
    ensures OverlaidRows(current, items[..n], OverlayItem(p, items[n - 1]))
  {
    assert Distinct(items);
    hide OverlaidRows, IdentityOf, OverlayItem, Combine, Distinct, WellFormed;
    var item := items[n - 1];
    TurnOverlays(p, item);
    assert Ids(items[..n]) == Ids(items[..n - 1]) + [IdentityOf(item)];
    if IdentityOf(item) !in p.positions {
      AppendRow(current, items, n, p);
    } else {
      ReplaceRow(current, items, n, p);
    }
  }

  /** The list loop: the index stays exact and the rows are merged by identity, base order first. */
  lemma {:induction false} RowsAreOverlaid(current: seq<Value>, incoming: Value, n: nat)
    requires incoming.List? && n <= |incoming.items| && WellFormed(List(current)) && WellFormed(incoming)
    ensures OverlaidRows(current, incoming.items[..n], OverlayItems(current, incoming, n))
    decreases n
  {
    assert Distinct(current);
    hide OverlaidRows, Distinct, OverlayItem, WellFormed;
    if n == 0 {
      NoRowsYet(current, incoming);
    } else {
      RowsAreOverlaid(current, incoming, n - 1);
      TurnKeepsRows(current, incoming.items, n, OverlayItems(current, incoming, n - 1));
    }
  }

  /**
   * `merge_inventory` of two lists: base rows first, each merged with the incoming row of its identity, then the new
   * rows.
   */
  lemma OverlaidList(a: seq<Value>, b: seq<Value>)
    requires WellFormed(List(a)) && WellFormed(List(b))
    ensures Overlay(List(a), List(b)).List?
    ensures var m := Overlay(List(a), List(b)).items;
            && Distinct(m) && Ids(m) == Ids(a) + New(Ids(a), Ids(b))
            && (forall d :: Find(m, d) == CombineFound(Find(a, d), Find(b, d)))
  {
    RowsAreOverlaid(a, List(b), |b|);
    assert b[..|b|] == b;
  }

  /** Absent information on either side leaves the other side as it is. */
  lemma OverlayAbsent(v: Value, w: Value)
    ensures Overlay(Null, v) == v && Overlay(v, Null) == v
    ensures Overlay(v, w) == Null <==> v == Null && w == Null
  {
  }

  ghost predicate SameRecord(a: Value, b: Value) {
    (a.Object? && b.Object?) || SameModel(a, b)
  }

  lemma FieldOfOverlay(a: Value, b: Value, k: string)
    requires SameRecord(a, b)
    ensures SameRecord(Overlay(a, b), a)
    ensures Get(Overlay(a, b).fields, k) == Overlay(Get(a.fields, k), Get(b.fields, k))
    ensures k in Overlay(a, b).fields <==> k in a.fields || Get(b.fields, k) != Null
  {
    OverlayAbsent(Get(a.fields, k), Null);
    if k in b.fields { OverlayAbsent(b.fields[k], Null); }
  }

  // ---------------------------------------------------------------- closure

  lemma {:induction false} CompatibleSymmetric(a: Value, b: Value)
    requires Compatible(a, b)
    ensures Compatible(b, a)
    decreases b
  {
    if (a.Object? && b.Object?) || SameModel(a, b) {
      forall k | k in b.fields && k in a.fields ensures Compatible(b.fields[k], a.fields[k]) {
        CompatibleSymmetric(a.fields[k], b.fields[k]);
      }
    } else if a.List? && b.List? {
      forall i, j | 0 <= i < |b.items| && 0 <= j < |a.items| && IdentityOf(b.items[i]) == IdentityOf(a.items[j])
        ensures Compatible(b.items[i], a.items[j])
      {
        CompatibleSymmetric(a.items[j], b.items[i]);
      }
    }
  }

  /** A row is compatible with itself and with equal rows. */
  lemma {:induction false} CompatibleReflexive(v: Value)
    requires WellFormed(v)
    ensures Compatible(v, v)
    decreases v
  {
    match v
    case Null =>
    case Scalar(_) =>
    case Number(_) =>
    case Object(fields) =>
      forall k | k in fields ensures Compatible(fields[k], fields[k]) { CompatibleReflexive(fields[k]); }
    case Model(_, fields) =>
      forall k | k in fields ensures Compatible(fields[k], fields[k]) { CompatibleReflexive(fields[k]); }
    case List(items) =>
      forall i, j | 0 <= i < |items| && 0 <= j < |items| && IdentityOf(items[i]) == IdentityOf(items[j])
        ensures Compatible(items[i], items[j])
      {
        assert i == j;
        CompatibleReflexive(items[i]);
      }
  }

  lemma CompatibleFound(a: seq<Value>, b: seq<Value>, d: Identity)
    requires Compatible(List(a), List(b)) && Find(a, d).Some? && Find(b, d).Some?
    ensures Compatible(Find(a, d).value, Find(b, d).value)
  {
    var i :| 0 <= i < |a| && a[i] == Find(a, d).value;
    var j :| 0 <= j < |b| && b[j] == Find(b, d).value;
  }

  lemma WellFormedFound(a: seq<Value>, d: Identity)
    requires WellFormed(List(a)) && Find(a, d).Some?
    ensures WellFormed(Find(a, d).value) && Find(a, d).value in a
  {
    var i :| 0 <= i < |a| && a[i] == Find(a, d).value;
  }

  /** The row of a merged list under an identity, by the rows it came from. */
  lemma RowAt(m: seq<Value>, i: nat)
    requires Distinct(m) && i < |m|
    ensures Find(m, IdentityOf(m[i])) == Some(m[i])
  {
    FindAt(m, i);
  }

  lemma OverlayKeepsPlainKeys(a: Value, b: Value)
    requires SameModel(a, b) && WellFormed(a) && WellFormed(b)
    ensures PlainKeys(Overlay(a, b))
    ensures a.kind == CertificateInfo ==>
              Get(Overlay(a, b).fields, "thumbprint") == Null || IsTruthy(Get(Overlay(a, b).fields, "thumbprint"))
  {
    if Components(a.kind).Some? {
      var components: seq<Component> := Components(a.kind).value;
      forall c, i | 0 <= c < |components| && 0 <= i < |components[c]|
        ensures PlainText(Get(Overlay(a, b).fields, components[c][i].0))
      {
        OverlaidField(a, b, components[c][i].0);
      }
      if a.kind == CertificateInfo {
        assert components[1][0].0 == "thumbprint";
        OverlaidField(a, b, "thumbprint");
      }
    }
  }

  /** Merging compatible well-formed values gives a well-formed value. */
  lemma {:induction false} OverlayClosed(a: Value, b: Value)
    requires WellFormed(a) && WellFormed(b) && Compatible(a, b)
    ensures WellFormed(Overlay(a, b))
    decreases b, 1
  {
    if a.Null? || b.Null? || IsAtom(b) {
    } else if b.List? {
      OverlayClosedList(a.items, b);
    } else {
      var m := OverlayFields(a.fields, b);
      forall k | k in m ensures WellFormed(m[k]) {
        FieldOfOverlay(a, b, k);
        OverlayAbsent(Get(a.fields, k), Get(b.fields, k));
        OverlayAbsent(Get(b.fields, k), Null);
        if k in a.fields && k in b.fields { OverlayClosed(a.fields[k], b.fields[k]); }
      }
      if b.Model? {
        OverlayKeepsPlainKeys(a, b);
      }
    }
  }

  lemma {:induction false} OverlayClosedList(a: seq<Value>, b: Value)
    requires b.List? && WellFormed(List(a)) && WellFormed(b) && Compatible(List(a), b)
    ensures WellFormed(Overlay(List(a), b))
    decreases b, 0
  {
    OverlaidList(a, b.items);
    var m := Overlay(List(a), b).items;
    forall i | 0 <= i < |m| ensures WellFormed(m[i]) {
      var d := IdentityOf(m[i]);
      RowAt(m, i);
      var x, y := Find(a, d), Find(b.items, d);
      if x.Some? { WellFormedFound(a, d); }
      if y.Some? { WellFormedFound(b.items, d); }
      if x.Some? && y.Some? {
        CompatibleFound(a, b.items, d);
        OverlayClosed(x.value, y.value);
      }
    }
  }

  /** What is compatible with both parts is compatible with their merge. */
  lemma {:induction false} OverlayCompatible(a: Value, b: Value, c: Value)
    requires WellFormed(a) && WellFormed(b) && WellFormed(c)
    requires Compatible(a, b) && Compatible(a, c) && Compatible(b, c)
    ensures Compatible(Overlay(a, b), c)
    decreases c, 1
  {
    if a.Null? || b.Null? || c.Null? || IsAtom(b) {
    } else if c.List? {
      OverlayCompatibleList(a.items, b.items, c);
    } else {
      var m := OverlayFields(a.fields, b);
      forall k | k in m && k in c.fields ensures Compatible(m[k], c.fields[k]) {
        FieldOfOverlay(a, b, k);
        OverlayAbsent(Get(a.fields, k), Null);
        OverlayAbsent(Get(b.fields, k), Null);
        if k in a.fields && k in b.fields { OverlayCompatible(a.fields[k], b.fields[k], c.fields[k]); }
      }
    }
  }

  lemma {:induction false} OverlayCompatibleList(a: seq<Value>, b: seq<Value>, c: Value)
    requires c.List? && WellFormed(List(a)) && WellFormed(List(b)) && WellFormed(c)
    requires Compatible(List(a), List(b)) && Compatible(List(a), c) && Compatible(List(b), c)
    ensures Compatible(Overlay(List(a), List(b)), c)
    decreases c, 0
  {
    OverlaidList(a, b);
    var m := Overlay(List(a), List(b)).items;
    forall i, j | 0 <= i < |m| && 0 <= j < |c.items| && IdentityOf(m[i]) == IdentityOf(c.items[j])
      ensures Compatible(m[i], c.items[j])
    {
      var d := IdentityOf(m[i]);
      RowAt(m, i);
      RowAt(c.items, j);
      var x, y := Find(a, d), Find(b, d);
      if x.Some? { WellFormedFound(a, d); CompatibleFound(a, c.items, d); }
      if y.Some? { WellFormedFound(b, d); CompatibleFound(b, c.items, d); }
      if x.Some? && y.Some? {
        CompatibleFound(a, b, d);
        OverlayCompatible(x.value, y.value, c.items[j]);
      }
    }
  }

  // ---------------------------------------------------------------- associativity

  lemma NewConcat(known: seq<Identity>, xs: seq<Identity>, ys: seq<Identity>)
    ensures New(known, xs + ys) == New(known, xs) + New(known, ys)
    decreases |ys|
  {
    if ys == [] {
      assert xs + ys == xs;
    } else {
      var front := ys[..|ys| - 1];
      NewConcat(known, xs, front);
      assert (xs + ys)[..|xs + ys| - 1] == xs + front;
    }
  }

  lemma NewOfNew(a: seq<Identity>, b: seq<Identity>, c: seq<Identity>)
    ensures New(a, New(b, c)) == New(a + New(a, b), c)
    decreases |c|
  {
    if c == [] {
    } else {
      var front, last := c[..|c| - 1], c[|c| - 1];
      NewOfNew(a, b, front);
      NewMembers(a, b, last);
      NewConcat(a, New(b, front), [last]);
      assert New(b, c) == New(b, front) + if last in b then [] else [last];
      assert [last][..0] == [];
      assert New(a, [last]) == if last in a then [] else [last];
      assert New(b, front) + [] == New(b, front);
    }
  }

  lemma {:induction false} FoundAssociative(a: seq<Value>, b: seq<Value>, c: Value, d: Identity)
    requires c.List? && WellFormed(List(a)) && WellFormed(List(b)) && WellFormed(c)
    requires Compatible(List(a), List(b)) && Compatible(List(a), c) && Compatible(List(b), c)
    ensures CombineFound(CombineFound(Find(a, d), Find(b, d)), Find(c.items, d))
            == CombineFound(Find(a, d), CombineFound(Find(b, d), Find(c.items, d)))
    decreases c, 0, 0
  {
    var x, y, z := Find(a, d), Find(b, d), Find(c.items, d);
    if x.Some? && y.Some? && z.Some? {
      WellFormedFound(a, d);
      WellFormedFound(b, d);
      WellFormedFound(c.items, d);
      CompatibleFound(a, b, d);
      CompatibleFound(a, c.items, d);
      CompatibleFound(b, c.items, d);
      OverlayAssociative(x.value, y.value, z.value);
    }
  }

  lemma {:induction false} OverlayAssociativeList(a: seq<Value>, b: seq<Value>, c: Value)
    requires c.List? && WellFormed(List(a)) && WellFormed(List(b)) && WellFormed(c)
    requires Compatible(List(a), List(b)) && Compatible(List(a), c) && Compatible(List(b), c)
    ensures Overlay(Overlay(List(a), List(b)), c) == Overlay(List(a), Overlay(List(b), c))
    decreases c, 0
  {
    hide Compatible, Ids, Find, New;
    OverlaidList(a, b);
    OverlaidList(b, c.items);
    OverlayClosedList(a, List(b));
    OverlayClosedList(b, c);
    var ab, bc := Overlay(List(a), List(b)).items, Overlay(List(b), c).items;
    OverlaidList(ab, c.items);
    OverlaidList(a, bc);
    var left, right := Overlay(List(ab), c).items, Overlay(List(a), List(bc)).items;
    var (ia, ib, ic) := (Ids(a), Ids(b), Ids(c.items));
    calc {
      Ids(left);
      (ia + New(ia, ib)) + New(ia + New(ia, ib), ic);
      { NewOfNew(ia, ib, ic); }
      (ia + New(ia, ib)) + New(ia, New(ib, ic));
      { NewConcat(ia, ib, New(ib, ic)); assert (ia + New(ia, ib)) + New(ia, New(ib, ic)) == ia
          + (New(ia, ib) + New(ia, New(ib, ic))); }
      ia + New(ia, ib + New(ib, ic));
      Ids(right);
    }
    forall d ensures Find(left, d) == Find(right, d) {
      FoundAssociative(a, b, c, d);
    }
    SameList(left, right);
  }

  /** Contributions may be merged in any grouping. */
  lemma {:induction false} OverlayAssociative(a: Value, b: Value, c: Value)
    requires WellFormed(a) && WellFormed(b) && WellFormed(c)
    requires Compatible(a, b) && Compatible(a, c) && Compatible(b, c)
    ensures Overlay(Overlay(a, b), c) == Overlay(a, Overlay(b, c))
    decreases c, 1
  {
    if a.Null? || b.Null? || c.Null? || IsAtom(c) {
    } else if c.List? {
      OverlayAssociativeList(a.items, b.items, c);
    } else {
      OverlayAssociativeFields(a, b, c);
    }
  }

  lemma {:induction false} OverlayAssociativeFields(a: Value, b: Value, c: Value)
    requires WellFormed(a) && WellFormed(b) && WellFormed(c)
    requires Compatible(a, b) && Compatible(a, c) && Compatible(b, c)
    requires (a.Object? && b.Object? && c.Object?) || (SameModel(a, b) && SameModel(b, c))
    ensures Overlay(Overlay(a, b), c) == Overlay(a, Overlay(b, c))
    decreases c, 0
  {
    var ab, bc := Overlay(a, b), Overlay(b, c);
    var left, right := Overlay(ab, c).fields, Overlay(a, bc).fields;
    forall k ensures (k in left <==> k in right) && Get(left, k) == Get(right, k) {
      var (x, y, z) := (Get(a.fields, k), Get(b.fields, k), Get(c.fields, k));
      FieldOfOverlay(a, b, k);
      FieldOfOverlay(b, c, k);
      FieldOfOverlay(ab, c, k);
      FieldOfOverlay(a, bc, k);
      OverlayAbsent(y, z);
      OverlayAbsent(x, y);
      OverlayAbsent(Overlay(x, y), Null);
      if z != Null && k in c.fields {
        assert Compatible(x, y) && Compatible(x, z) && Compatible(y, z);
        OverlayAssociative(x, y, z);
      }
    }
    assert left == right by {
      forall k | k in left ensures left[k] == right[k] { assert Get(left, k) == Get(right, k); }
    }
  }

  /** Merging a contribution a second time changes nothing. */
  lemma OverlayAbsorbs(a: Value, b: Value)
    requires WellFormed(a) && WellFormed(b) && Compatible(a, b)
    ensures Overlay(Overlay(a, b), b) == Overlay(a, b)
  {
    CompatibleReflexive(b);
    OverlayAssociative(a, b, b);
    SelfOverlay(b);
  }
}
