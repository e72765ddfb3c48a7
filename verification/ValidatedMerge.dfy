/**
 * `merge_inventory` with the validation of merged rows: exactly when it fails, and what remains of the algebra. A merge
 * that does not fail gives the overlay of `InventoryLaws`.
 */
module ValidatedMerge {
  import opened Prelude
  import opened InventoryMerge
  import opened InventoryLaws
  import Text

  // ---------------------------------------------------------------- exactly when a merge fails

  /** Every row in the value passes validation. */
  ghost predicate AllValid(v: Value)
    decreases v
  {
    match v
    case Object(fields) => forall k | k in fields :: AllValid(fields[k])
    case Model(kind, fields) => ValidRow(kind, fields) && forall k | k in fields :: AllValid(fields[k])
    case List(items) => forall i | 0 <= i < |items| :: AllValid(items[i])
    case _ => true
  }

  /** What the merged row holds in a field of plain values. */
  function Latest(a: Fields, b: Fields, name: string): Value {
    if Get(b, name) != Null then Get(b, name) else Get(a, name)
  }

  /** How many items the merged row holds in a list field: those of the first row, and the new ones of the second. */
  function JointLength(x: Value, y: Value): nat {
    if x.List? && y.List? then |x.items| + |New(Ids(x.items), Ids(y.items))|
    else if y.List? then |y.items|
    else if y.Null? && x.List? then |x.items|
    else 0
  }

  /** The two rows together break the rule, whatever each does on its own. */
  predicate Breaks(rule: Rule, a: Fields, b: Fields) {
    match rule
    case NotAbove(low, high) => !InOrder(Latest(a, b, low), Latest(a, b, high))
    case AtMost(field, limit) => JointLength(Get(a, field), Get(b, field)) > limit
  }

  predicate RowsClash(kind: Kind, a: Fields, b: Fields) {
    exists rule | rule in RulesOf(kind) :: Breaks(rule, a, b)
  }

  /** Somewhere in the two values, two rows of one identity and class together break a rule. */
  ghost predicate Clash(a: Value, b: Value)
    decreases b, 1
  {
    || (SameRecord(a, b) && FieldsClash(a, b))
    || (SameModel(a, b) && RowsClash(a.kind, a.fields, b.fields))
    || (a.List? && b.List?
        && exists i, j :: 0 <= i < |a.items| && 0 <= j < |b.items|
                          && IdentityOf(a.items[i]) == IdentityOf(b.items[j]) && SameModel(a.items[i], b.items[j])
                          && Clash(a.items[i], b.items[j]))
  }

  ghost predicate FieldsClash(a: Value, b: Value)
    requires SameRecord(a, b)
    decreases b, 0
  {
    exists k :: k in a.fields && k in b.fields && Clash(a.fields[k], b.fields[k])
  }

  lemma OverlayNumber(x: Value, y: Value)
    ensures Overlay(x, y).Number? == (if y != Null then y else x).Number?
    ensures Overlay(x, y).Number? ==> Overlay(x, y) == if y != Null then y else x
  {
  }

  lemma OverlayLength(x: Value, y: Value)
    requires WellFormed(x) && WellFormed(y)
    ensures JointLength(x, y) == if Overlay(x, y).List? then |Overlay(x, y).items| else 0
  {
    if x.List? && y.List? {
      OverlaidList(x.items, y.items);
      assert |Ids(Overlay(x, y).items)| == |Overlay(x, y).items|;
    }
  }

  lemma WellFormedField(v: Value, name: string)
    requires (v.Object? || v.Model?) && WellFormed(v)
    ensures WellFormed(Get(v.fields, name))
  {
  }

  /** The merged fields obey a rule exactly when the two rows do not break it together. */
  lemma RuleKept(a: Value, b: Value, rule: Rule)
    requires SameRecord(a, b) && WellFormed(a) && WellFormed(b)
    ensures Obeys(Overlay(a, b).fields, rule) <==> !Breaks(rule, a.fields, b.fields)
  {
    hide Overlay, WellFormed;
    match rule
    case NotAbove(low, high) =>
      FieldOfOverlay(a, b, low);
      FieldOfOverlay(a, b, high);
      OverlayNumber(Get(a.fields, low), Get(b.fields, low));
      OverlayNumber(Get(a.fields, high), Get(b.fields, high));
    case AtMost(field, limit) =>
      FieldOfOverlay(a, b, field);
      WellFormedField(a, field);
      WellFormedField(b, field);
      OverlayLength(Get(a.fields, field), Get(b.fields, field));
  }

  lemma RowKept(a: Value, b: Value)
    requires SameModel(a, b) && WellFormed(a) && WellFormed(b)
    ensures ValidRow(a.kind, OverlayFields(a.fields, b)) <==> !RowsClash(a.kind, a.fields, b.fields)
  {
    hide WellFormed, Breaks, Obeys, RulesOf;
    assert Overlay(a, b) == Model(a.kind, OverlayFields(a.fields, b));
    forall rule | rule in RulesOf(a.kind)
      ensures Obeys(OverlayFields(a.fields, b), rule) <==> !Breaks(rule, a.fields, b.fields)
    {
      RuleKept(a, b, rule);
    }
  }

  lemma {:induction false} RowsMerge(a: Value, b: Value)
    requires SameModel(a, b) && WellFormed(a) && WellFormed(b)
    ensures MergeRow(a, b) == if Clash(a, b) then None else Some(Overlay(a, b))
    decreases b, 1
  {
    FieldsMerge(a, b);
    RowKept(a, b);
  }

  ghost predicate ClashBefore(current: seq<Value>, incoming: seq<Value>, n: nat)
    requires n <= |incoming|
  {
    exists i, j :: 0 <= i < |current| && 0 <= j < n
                   && IdentityOf(current[i]) == IdentityOf(incoming[j]) && SameModel(current[i], incoming[j])
                   && Clash(current[i], incoming[j])
  }

  /** The row an incoming item meets is the current one of its identity, as it was before the loop. */
  lemma RowIsCurrent(current: seq<Value>, items: seq<Value>, n: nat, p: Progress)
    requires 0 < n <= |items| && Distinct(current) && Distinct(items) && OverlaidRows(current, items[..n - 1], p)
    requires IdentityOf(items[n - 1]) in p.positions
    ensures p.positions[IdentityOf(items[n - 1])] < |p.result|
    ensures exists i :: 0 <= i < |current| && current[i] == p.result[p.positions[IdentityOf(items[n - 1])]]
                        && IdentityOf(current[i]) == IdentityOf(items[n - 1])
  {
    hide IdentityOf;
    var identity := IdentityOf(items[n - 1]);
    var position := p.positions[identity];
    NotBefore(items, n);
    FindAt(p.result, position);
    assert Find(p.result, identity) == CombineFound(Find(current, identity), Find(items[..n - 1], identity));
    var row := p.result[position];
    assert Find(current, identity) == Some(row);
    assert row in current;
  }

  lemma NotClashing(current: seq<Value>, items: seq<Value>, n: nat, p: Progress)
    requires 0 < n <= |items| && OverlaidRows(current, items[..n - 1], p) && !ClashBefore(current, items, n - 1)
    requires IdentityOf(items[n - 1]) !in p.positions
    ensures !ClashBefore(current, items, n)
  {
    hide Clash, IdentityOf;
    InPositions(p, IdentityOf(items[n - 1]));
    forall i | 0 <= i < |current| ensures IdentityOf(current[i]) != IdentityOf(items[n - 1]) {
      assert Ids(current)[i] in Ids(p.result);
    }
  }

  lemma OnlyClash(current: seq<Value>, items: seq<Value>, n: nat, i: nat)
    requires 0 < n <= |items| && Distinct(current) && !ClashBefore(current, items, n - 1)
    requires i < |current| && IdentityOf(current[i]) == IdentityOf(items[n - 1])
    ensures ClashBefore(current, items, n) <==> SameModel(current[i], items[n - 1]) && Clash(current[i], items[n - 1])
  {
    hide Clash, IdentityOf;
    if ClashBefore(current, items, n) {
      var k, j :| 0 <= k < |current| && 0 <= j < n
                  && IdentityOf(current[k]) == IdentityOf(items[j]) && SameModel(current[k], items[j])
                  && Clash(current[k], items[j]);
      assert j == n - 1;
      assert k == i;
    }
  }

  lemma NewItem(p: Progress, item: Value)
    requires InBounds(p) && IdentityOf(item) !in p.positions
    ensures MergeItem(p, item) == Some(OverlayItem(p, item))
  {
    hide IdentityOf;
  }

  lemma KnownItem(p: Progress, item: Value, clash: bool)
    requires InBounds(p) && IdentityOf(item) in p.positions
    requires var row := p.result[p.positions[IdentityOf(item)]];
             SameModel(row, item) ==> MergeRow(row, item) == if clash then None else Some(Overlay(row, item))
    ensures MergeItem(p, item)
            == if SameModel(p.result[p.positions[IdentityOf(item)]], item) && clash then None
               else Some(OverlayItem(p, item))
  {
    hide IdentityOf, MergeRow, Overlay;
  }

  lemma WellFormedItem(items: seq<Value>, i: nat)
    requires WellFormed(List(items)) && i < |items|
    ensures WellFormed(items[i])
  {
  }

  /** One turn of the list loop. */
  lemma {:induction false} ItemMerges(current: seq<Value>, incoming: Value, n: nat)
    requires incoming.List? && 0 < n <= |incoming.items| && WellFormed(List(current)) && WellFormed(incoming)
    requires !ClashBefore(current, incoming.items, n - 1)
    ensures MergeItem(OverlayItems(current, incoming, n - 1), incoming.items[n - 1])
            == if ClashBefore(current, incoming.items, n) then None
               else Some(OverlayItem(OverlayItems(current, incoming, n - 1), incoming.items[n - 1]))
    decreases incoming, 0, n, 0
  {
    var p, item := OverlayItems(current, incoming, n - 1), incoming.items[n - 1];
    RowsAreOverlaid(current, incoming, n - 1);
    assert WellFormed(item) && Distinct(current) && Distinct(incoming.items);
    hide Clash, IdentityOf, OverlayItems, WellFormed, Distinct, ClashBefore, OverlaidRows, MergeItem, OverlayItem;
    if IdentityOf(item) in p.positions {
      RowIsCurrent(current, incoming.items, n, p);
      var row := p.result[p.positions[IdentityOf(item)]];
      var i :| 0 <= i < |current| && current[i] == row && IdentityOf(current[i]) == IdentityOf(item);
      WellFormedItem(current, i);
      OnlyClash(current, incoming.items, n, i);
      if SameModel(row, item) { RowsMerge(row, item); }
      KnownItem(p, item, Clash(row, item));
    } else {
      NotClashing(current, incoming.items, n, p);
      NewItem(p, item);
    }
  }

  lemma {:induction false} ItemsMerge(current: seq<Value>, incoming: Value, n: nat)
    requires incoming.List? && n <= |incoming.items| && WellFormed(List(current)) && WellFormed(incoming)
    ensures MergeItems(current, incoming, n)
            == if ClashBefore(current, incoming.items, n) then None else Some(OverlayItems(current, incoming, n))
    decreases incoming, 0, n
  {
    hide Clash, Overlay, MergeItem, OverlayItem, IdentityOf, WellFormed;
    if n == 0 {
    } else {
      ItemsMerge(current, incoming, n - 1);
      if !ClashBefore(current, incoming.items, n - 1) {
        ItemMerges(current, incoming, n);
      }
    }
  }

  /**
   * A merge fails exactly when two rows of one identity clash, which is said on the fields of those two rows; otherwise
   * it gives the overlay.
   */
  lemma {:induction false} MergeFailsExactly(a: Value, b: Value)
    requires WellFormed(a) && WellFormed(b)
    ensures Merge(a, b) == if Clash(a, b) then None else Some(Overlay(a, b))
    decreases b, 2
  {
    if SameModel(a, b) {
      RowsMerge(a, b);
    } else if SameRecord(a, b) {
      FieldsMerge(a, b);
    } else if a.List? && b.List? {
      ItemsMerge(a.items, b, |b.items|);
    }
  }

  /** Fields merge to their overlay, or clash. */
  lemma {:induction false} FieldsMerge(a: Value, b: Value)
    requires SameRecord(a, b) && WellFormed(a) && WellFormed(b)
    ensures MergeFields(a.fields, b) == if FieldsClash(a, b) then None else Some(OverlayFields(a.fields, b))
    decreases b, 0
  {
    forall k | k in b.fields
      ensures Merge(Get(a.fields, k), b.fields[k])
              == if k in a.fields && Clash(a.fields[k], b.fields[k]) then None
                 else Some(Overlay(Get(a.fields, k), b.fields[k]))
    {
      if k in a.fields {
        MergeFailsExactly(a.fields[k], b.fields[k]);
      }
    }
    hide Merge, Overlay, WellFormed, Clash;
    if FieldsClash(a, b) {
      var k :| k in a.fields && k in b.fields && Clash(a.fields[k], b.fields[k]);
      assert Merge(Get(a.fields, k), b.fields[k]).None?;
    } else {
      assert MergeFields(a.fields, b).Some?;
      assert MergeFields(a.fields, b).value == OverlayFields(a.fields, b);
    }
  }

  lemma ValidCombined(x: Option<Value>, y: Option<Value>)
    requires x.Some? ==> AllValid(x.value)
    requires y.Some? ==> AllValid(y.value)
    requires x.Some? && y.Some? ==> (AllValid(Overlay(x.value, y.value)) <==> !Clash(x.value, y.value))
    requires x.Some? || y.Some?
    ensures AllValid(CombineFound(x, y).value) <==>
              !(x.Some? && y.Some? && SameModel(x.value, y.value) && Clash(x.value, y.value))
  {
    hide AllValid, Clash, Overlay;
  }

  lemma AllValidFound(items: seq<Value>, d: Identity)
    requires WellFormed(List(items)) && AllValid(List(items)) && Find(items, d).Some?
    ensures WellFormed(Find(items, d).value) && AllValid(Find(items, d).value)
    ensures Find(items, d).value in items && IdentityOf(Find(items, d).value) == d
  {
    var i :| 0 <= i < |items| && items[i] == Find(items, d).value;
  }

  /** Both lists have a row of the identity, of one class, and the two clash. */
  ghost predicate ClashAt(a: seq<Value>, b: seq<Value>, d: Identity) {
    && Find(a, d).Some? && Find(b, d).Some? && SameModel(Find(a, d).value, Find(b, d).value)
    && Clash(Find(a, d).value, Find(b, d).value)
  }

  /** The rows of one identity in two lists are the ones found under it. */
  lemma ClashFound(a: seq<Value>, b: seq<Value>)
    requires Distinct(a) && Distinct(b)
    ensures Clash(List(a), List(b)) <==> exists d :: ClashAt(a, b, d)
  {
    hide IdentityOf;
    if Clash(List(a), List(b)) {
      var i, j :| 0 <= i < |a| && 0 <= j < |b| && IdentityOf(a[i]) == IdentityOf(b[j]) && SameModel(a[i], b[j])
                  && Clash(a[i], b[j]);
      FindAt(a, i);
      FindAt(b, j);
      assert ClashAt(a, b, IdentityOf(a[i]));
    }
    if d :| ClashAt(a, b, d) {
      var i :| 0 <= i < |a| && a[i] == Find(a, d).value;
      var j :| 0 <= j < |b| && b[j] == Find(b, d).value;
      assert IdentityOf(a[i]) == IdentityOf(b[j]);
    }
  }

  lemma AllValidByFinding(m: seq<Value>)
    requires Distinct(m)
    ensures AllValid(List(m)) <==> forall d | Find(m, d).Some? :: AllValid(Find(m, d).value)
  {
    hide IdentityOf;
    if AllValid(List(m)) {
      forall d | Find(m, d).Some? ensures AllValid(Find(m, d).value) {
        var i :| 0 <= i < |m| && m[i] == Find(m, d).value;
      }
    } else {
      var i :| 0 <= i < |m| && !AllValid(m[i]);
      FindAt(m, i);
    }
  }

  lemma FoundOrNot(a: seq<Value>, b: seq<Value>, d: Identity)
    ensures CombineFound(Find(a, d), Find(b, d)).Some? <==> Find(a, d).Some? || Find(b, d).Some?
    ensures ClashAt(a, b, d) ==> CombineFound(Find(a, d), Find(b, d)).Some?
  {
    hide Clash, IdentityOf, Overlay;
  }

  lemma {:induction false} ListValid(a: seq<Value>, b: Value)
    requires b.List? && WellFormed(List(a)) && WellFormed(b) && AllValid(List(a)) && AllValid(b)
    ensures AllValid(Overlay(List(a), b)) <==> !Clash(List(a), b)
    decreases b, 1
  {
    OverlaidList(a, b.items);
    ClashFound(a, b.items);
    hide Clash, Overlay, IdentityOf, WellFormed, AllValid, Ids, New, ClashAt, Find, CombineFound;
    var m := Overlay(List(a), b).items;
    AllValidByFinding(m);
    forall d ensures Find(m, d).Some? && !AllValid(Find(m, d).value) <==> ClashAt(a, b.items, d) {
      FoundOrNot(a, b.items, d);
      if Find(m, d).Some? { FoundValid(a, b, d); }
    }
    assert Overlay(List(a), b) == List(m);
  }

  lemma {:induction false} FieldValid(a: Value, b: Value, k: string)
    requires SameRecord(a, b) && WellFormed(a) && WellFormed(b) && AllValid(a) && AllValid(b)
    requires k in OverlayFields(a.fields, b)
    ensures AllValid(OverlayFields(a.fields, b)[k]) <==>
              !(k in a.fields && k in b.fields && Clash(a.fields[k], b.fields[k]))
    decreases b, 0
  {
    if k in a.fields && k in b.fields {
      ValidExactly(a.fields[k], b.fields[k]);
    } else if k in b.fields {
      OverlayAbsent(b.fields[k], Null);
    }
    hide Clash, Overlay, WellFormed;
  }

  lemma {:induction false} RecordValid(a: Value, b: Value)
    requires SameRecord(a, b) && WellFormed(a) && WellFormed(b) && AllValid(a) && AllValid(b)
    ensures AllValid(Overlay(a, b)) <==> !Clash(a, b)
    decreases b, 1
  {
    var m := OverlayFields(a.fields, b);
    forall k | k in m
      ensures AllValid(m[k]) <==> !(k in a.fields && k in b.fields && Clash(a.fields[k], b.fields[k]))
    {
      FieldValid(a, b, k);
    }
    assert forall k | k in a.fields && k in b.fields :: k in m;
    if SameModel(a, b) { RowKept(a, b); }
    hide WellFormed, RowsClash, ValidRow;
  }

  /** Two values whose rows are all valid merge to one whose rows are all valid exactly when no rows clash. */
  lemma {:induction false} ValidExactly(a: Value, b: Value)
    requires WellFormed(a) && WellFormed(b) && AllValid(a) && AllValid(b)
    ensures AllValid(Overlay(a, b)) <==> !Clash(a, b)
    decreases b, 2
  {
    if SameRecord(a, b) {
      RecordValid(a, b);
    } else if a.List? && b.List? {
      ListValid(a.items, b);
    }
  }

  lemma {:induction false} FoundValid(a: seq<Value>, b: Value, d: Identity)
    requires b.List? && WellFormed(List(a)) && WellFormed(b) && AllValid(List(a)) && AllValid(b)
    requires Find(a, d).Some? || Find(b.items, d).Some?
    ensures AllValid(CombineFound(Find(a, d), Find(b.items, d)).value) <==> !ClashAt(a, b.items, d)
    decreases b, 0
  {
    hide Clash, Overlay, IdentityOf;
    var x, y := Find(a, d), Find(b.items, d);
    if x.Some? { AllValidFound(a, d); }
    if y.Some? { AllValidFound(b.items, d); }
    if x.Some? && y.Some? { ValidExactly(x.value, y.value); }
    ValidCombined(x, y);
  }

  // ---------------------------------------------------------------- lists and identities

  lemma {:induction false} FieldsSucceed(a: Value, b: Value)
    requires SameRecord(a, b) && MergeFields(a.fields, b).Some?
    ensures MergeFields(a.fields, b).value == OverlayFields(a.fields, b)
    decreases b, 0
  {
    forall k | k in b.fields
      ensures Merge(Get(a.fields, k), b.fields[k]) == Some(Overlay(Get(a.fields, k), b.fields[k]))
    {
      SuccessIsOverlay(Get(a.fields, k), b.fields[k]);
    }
    hide Merge, Overlay;
    assert MergeFields(a.fields, b).value == OverlayFields(a.fields, b);
  }

  lemma {:induction false} ItemSucceeds(p: Progress, item: Value)
    requires InBounds(p) && MergeItem(p, item).Some?
    ensures MergeItem(p, item).value == OverlayItem(p, item)
    decreases item, 2
  {
    if IdentityOf(item) in p.positions {
      var row := p.result[p.positions[IdentityOf(item)]];
      if SameModel(row, item) {
        SuccessIsOverlay(row, item);
        KnownItem(p, item, false);
      }
    }
  }

  lemma {:induction false} ItemsSucceed(current: seq<Value>, incoming: Value, n: nat)
    requires incoming.List? && n <= |incoming.items| && MergeItems(current, incoming, n).Some?
    ensures MergeItems(current, incoming, n).value == OverlayItems(current, incoming, n)
    decreases incoming, 0, n
  {
    if n == 0 {
    } else {
      ItemsSucceed(current, incoming, n - 1);
      ItemSucceeds(OverlayItems(current, incoming, n - 1), incoming.items[n - 1]);
    }
  }

  /** A merge that does not fail gives the overlay, whatever the values look like. */
  lemma {:induction false} SuccessIsOverlay(a: Value, b: Value)
    requires Merge(a, b).Some?
    ensures Merge(a, b).value == Overlay(a, b)
    decreases b, 1
  {
    if SameRecord(a, b) {
      FieldsSucceed(a, b);
    } else if a.List? && b.List? {
      ItemsSucceed(a.items, b, |b.items|);
    }
  }

  /**
   * The list loop: as long as no row fails, the index is exact and the rows are merged by identity, base order first.
   */
  lemma RowsAreMerged(current: seq<Value>, incoming: Value, n: nat)
    requires incoming.List? && n <= |incoming.items| && WellFormed(List(current)) && WellFormed(incoming)
    requires MergeItems(current, incoming, n).Some?
    ensures OverlaidRows(current, incoming.items[..n], MergeItems(current, incoming, n).value)
  {
    hide OverlaidRows, WellFormed;
    ItemsSucceed(current, incoming, n);
    RowsAreOverlaid(current, incoming, n);
  }

  /**
   * `merge_inventory` of two lists: it fails exactly when two rows of one identity clash, and otherwise has the base
   * rows first, each merged with the incoming row of its identity, then the new rows.
   */
  lemma MergedList(a: seq<Value>, b: seq<Value>)
    requires WellFormed(List(a)) && WellFormed(List(b))
    ensures Merge(List(a), List(b)).None? <==> exists d :: ClashAt(a, b, d)
    ensures Merge(List(a), List(b)).Some? ==>
              var m := Merge(List(a), List(b)).value;
              && m.List? && Distinct(m.items) && Ids(m.items) == Ids(a) + New(Ids(a), Ids(b))
              && forall d :: Find(m.items, d) == CombineFound(Find(a, d), Find(b, d))
  {
    MergeFailsExactly(List(a), List(b));
    ClashFound(a, b);
    OverlaidList(a, b);
    hide Clash, Merge, Overlay, Find, IdentityOf, CombineFound;
  }

  /** A merged row keeps the identity of the two rows exactly when no serial number is uncovered. */
  lemma MergedIdentityKept(current: Value, incoming: Value)
    requires SameModel(current, incoming) && Components(current.kind).Some? && PlainKeys(current) && PlainKeys(incoming)
    requires IdentityOf(current) == IdentityOf(incoming) && Merge(current, incoming).Some?
    ensures IdentityOf(Merge(current, incoming).value) == IdentityOf(current) <==> !UncoversSerial(current, incoming)
  {
    hide IdentityOf, PlainKeys, UncoversSerial, Merge, Overlay;
    SuccessIsOverlay(current, incoming);
    IdentityKept(current, incoming);
  }

  // ---------------------------------------------------------------- the algebra of merges

  /** Values as the collectors produce them: no identity twice in a list, and every row valid. */
  ghost predicate Sound(v: Value) {
    WellFormed(v) && AllValid(v)
  }

  /** A sound value merged into itself is unchanged. */
  lemma SelfMerge(v: Value)
    requires Sound(v)
    ensures Merge(v, v) == Some(v)
  {
    hide WellFormed, AllValid, Clash, Merge, Overlay;
    SelfOverlay(v);
    ValidExactly(v, v);
    MergeFailsExactly(v, v);
  }

  /** What compatible sound values merge to, if they do, is sound. */
  lemma MergeClosed(a: Value, b: Value)
    requires Sound(a) && Sound(b) && Compatible(a, b)
    ensures Merge(a, b) == if AllValid(Overlay(a, b)) then Some(Overlay(a, b)) else None
    ensures Merge(a, b).Some? ==> Sound(Merge(a, b).value)
  {
    hide WellFormed, AllValid, Clash, Merge, Overlay, Compatible;
    ValidExactly(a, b);
    MergeFailsExactly(a, b);
    OverlayClosed(a, b);
  }

  /** What is compatible with both parts is compatible with their merge. */
  lemma MergeCompatible(a: Value, b: Value, c: Value)
    requires Sound(a) && Sound(b) && Sound(c) && Merge(a, b).Some?
    requires Compatible(a, b) && Compatible(a, c) && Compatible(b, c)
    ensures Compatible(Merge(a, b).value, c)
  {
    hide WellFormed, AllValid, Merge, Overlay, Compatible;
    SuccessIsOverlay(a, b);
    OverlayCompatible(a, b, c);
  }

  function MergeInto(a: Option<Value>, b: Option<Value>): Option<Value> {
    if a.None? || b.None? then None else Merge(a.value, b.value)
  }

  function FromLeft(a: Value, b: Value, c: Value): Option<Value> {
    MergeInto(Merge(a, b), Some(c))
  }

  function FromRight(a: Value, b: Value, c: Value): Option<Value> {
    MergeInto(Some(a), Merge(b, c))
  }

  /** What three values merge to if no merge fails. */
  ghost function Together(a: Value, b: Value, c: Value): Value {
    Overlay(Overlay(a, b), c)
  }

  lemma FromLeftExactly(a: Value, b: Value, c: Value)
    requires Sound(a) && Sound(b) && Sound(c)
    requires Compatible(a, b) && Compatible(a, c) && Compatible(b, c)
    ensures FromLeft(a, b, c) == if !Clash(a, b) && AllValid(Together(a, b, c)) then Some(Together(a, b, c)) else None
  {
    hide WellFormed, AllValid, Clash, Merge, Overlay, Compatible;
    MergeFailsExactly(a, b);
    if !Clash(a, b) {
      MergeClosed(a, b);
      MergeCompatible(a, b, c);
      MergeClosed(Merge(a, b).value, c);
    }
  }

  lemma FromRightExactly(a: Value, b: Value, c: Value)
    requires Sound(a) && Sound(b) && Sound(c)
    requires Compatible(a, b) && Compatible(a, c) && Compatible(b, c)
    ensures FromRight(a, b, c) == if !Clash(b, c) && AllValid(Together(a, b, c)) then Some(Together(a, b, c)) else None
  {
    hide WellFormed, AllValid, Clash, Merge, Overlay, Compatible;
    OverlayAssociative(a, b, c);
    MergeFailsExactly(b, c);
    if !Clash(b, c) {
      MergeClosed(b, c);
      CompatibleSymmetric(a, b);
      CompatibleSymmetric(a, c);
      MergeCompatible(b, c, a);
      CompatibleSymmetric(Merge(b, c).value, a);
      MergeClosed(a, Merge(b, c).value);
    }
  }

  /**
   * Three contributions merged in two groupings: each grouping succeeds exactly when its first merge has no clash and
   * all three together are valid; when both succeed they agree; and they end alike exactly when all three together are
   * invalid, or the first two clash just when the last two do.
   */
  lemma MergeAssociative(a: Value, b: Value, c: Value)
    requires Sound(a) && Sound(b) && Sound(c)
    requires Compatible(a, b) && Compatible(a, c) && Compatible(b, c)
    ensures FromLeft(a, b, c).Some? <==> !Clash(a, b) && AllValid(Together(a, b, c))
    ensures FromRight(a, b, c).Some? <==> !Clash(b, c) && AllValid(Together(a, b, c))
    ensures FromLeft(a, b, c).Some? && FromRight(a, b, c).Some? ==> FromLeft(a, b, c) == FromRight(a, b, c)
    ensures FromLeft(a, b, c) == FromRight(a, b, c) <==>
              !AllValid(Together(a, b, c)) || (Clash(a, b) <==> Clash(b, c))
  {
    hide AllValid, Clash, FromLeft, FromRight, Together, Sound, Compatible;
    FromLeftExactly(a, b, c);
    FromRightExactly(a, b, c);
  }

  /** Merging a contribution a second time changes nothing. */
  lemma MergeAbsorbs(a: Value, b: Value)
    requires Sound(a) && Sound(b) && Compatible(a, b) && Merge(a, b).Some?
    ensures Merge(Merge(a, b).value, b) == Merge(a, b)
  {
    hide WellFormed, AllValid, Clash, Merge, Overlay, Compatible;
    SuccessIsOverlay(a, b);
    OverlayAbsorbs(a, b);
    MergeClosed(a, b);
    MergeFailsExactly(Merge(a, b).value, b);
    ValidExactly(Merge(a, b).value, b);
  }

  // ---------------------------------------------------------------- rows that should merge and do not

  function Lease(obtained: Value, expires: Value): Value {
    Model(NetworkInterface,
          map["name" := Scalar("e"), "dhcp_lease_obtained" := obtained, "dhcp_lease_expires" := expires])
  }

  predicate PlainNumber(v: Value) {
    v.Null? || v.Number?
  }

  lemma LeaseRules()
    ensures NotAbove("dhcp_lease_obtained", "dhcp_lease_expires") in RulesOf(NetworkInterface)
    ensures forall rule | rule in RulesOf(NetworkInterface) ::
              rule == NotAbove("dhcp_lease_obtained", "dhcp_lease_expires") || rule.AtMost?
    ensures forall rule | rule in RulesOf(NetworkInterface) && rule.AtMost? ::
              rule.field == "addresses" || rule.field == "gateways" || rule.field == "dns_servers"
  {
  }

  lemma LeaseFields(obtained: Value, expires: Value)
    ensures Get(Lease(obtained, expires).fields, "dhcp_lease_obtained") == obtained
    ensures Get(Lease(obtained, expires).fields, "dhcp_lease_expires") == expires
    ensures Get(Lease(obtained, expires).fields, "name") == Scalar("e")
    ensures forall field | field == "addresses" || field == "gateways" || field == "dns_servers" ::
              Get(Lease(obtained, expires).fields, field) == Null
  {
  }

  lemma LeaseSound(obtained: Value, expires: Value)
    requires PlainNumber(obtained) && PlainNumber(expires)
    ensures WellFormed(Lease(obtained, expires))
    ensures AllValid(Lease(obtained, expires)) <==> InOrder(obtained, expires)
  {
    LeaseFields(obtained, expires);
    LeaseRules();
    hide RulesOf;
  }

  lemma LeasesCompatible(a: Value, b: Value, c: Value, d: Value)
    requires PlainNumber(a) && PlainNumber(b) && PlainNumber(c) && PlainNumber(d)
    ensures Compatible(Lease(a, b), Lease(c, d))
  {
    var x, y := Lease(a, b), Lease(c, d);
    forall k | k in x.fields && k in y.fields ensures Compatible(x.fields[k], y.fields[k]) {
      if k == "dhcp_lease_obtained" {
      } else if k == "dhcp_lease_expires" {
      } else {
        assert k == "name";
      }
    }
  }

  lemma IsLease(v: Value, obtained: Value, expires: Value)
    requires v.Model? && v.kind == NetworkInterface
    requires v.fields.Keys == {"name", "dhcp_lease_obtained", "dhcp_lease_expires"}
    requires v.fields["name"] == Scalar("e")
    requires v.fields["dhcp_lease_obtained"] == obtained && v.fields["dhcp_lease_expires"] == expires
    ensures v == Lease(obtained, expires)
  {
    assert v.fields == Lease(obtained, expires).fields;
  }

  lemma LeaseKeys(obtained: Value, expires: Value)
    ensures Lease(obtained, expires).fields.Keys == {"name", "dhcp_lease_obtained", "dhcp_lease_expires"}
  {
  }

  lemma OverlayPlain(x: Value, y: Value)
    requires PlainText(y)
    ensures Overlay(x, y) == if y == Null then x else y
  {
  }

  /** Leases merge field by field. */
  lemma LeasesOverlay(a: Value, b: Value, c: Value, d: Value)
    requires PlainNumber(a) && PlainNumber(b) && PlainNumber(c) && PlainNumber(d)
    ensures Overlay(Lease(a, b), Lease(c, d)) == Lease(if c == Null then a else c, if d == Null then b else d)
  {
    var x, y := Lease(a, b), Lease(c, d);
    LeaseFields(a, b);
    LeaseFields(c, d);
    LeaseKeys(a, b);
    LeaseKeys(c, d);
    assert SameModel(x, y);
    hide Lease, Overlay;
    var m := Overlay(x, y);
    forall k ensures k in m.fields <==> k in x.fields { FieldOfOverlay(x, y, k); }
    assert m.fields.Keys == x.fields.Keys;
    FieldOfOverlay(x, y, "name");
    FieldOfOverlay(x, y, "dhcp_lease_obtained");
    FieldOfOverlay(x, y, "dhcp_lease_expires");
    OverlayPlain(Scalar("e"), Scalar("e"));
    OverlayPlain(a, c);
    OverlayPlain(b, d);
    IsLease(m, if c == Null then a else c, if d == Null then b else d);
  }

  lemma LeasesClash(a: Value, b: Value, c: Value, d: Value)
    requires PlainNumber(a) && PlainNumber(b) && PlainNumber(c) && PlainNumber(d) && InOrder(a, b) && InOrder(c, d)
    ensures Clash(Lease(a, b), Lease(c, d)) <==> !InOrder(if c == Null then a else c, if d == Null then b else d)
  {
    LeaseSound(a, b);
    LeaseSound(c, d);
    LeasesOverlay(a, b, c, d);
    LeaseSound(if c == Null then a else c, if d == Null then b else d);
    hide Lease, WellFormed, AllValid, Clash, Overlay, Compatible;
    ValidExactly(Lease(a, b), Lease(c, d));
  }

  /**
   * Three sound contributions about one interface: the first knows when its lease was obtained, the others when it
   * expires. From the left the merge fails, from the right it succeeds.
   */
  lemma GroupingMatters()
    ensures var (a, b, c) := (Lease(Number(2), Null), Lease(Null, Number(1)), Lease(Null, Number(3)));
            && Sound(a) && Sound(b) && Sound(c) && Compatible(a, b) && Compatible(a, c) && Compatible(b, c)
            && FromLeft(a, b, c).None? && FromRight(a, b, c) == Some(Lease(Number(2), Number(3)))
  {
    var (a, b, c) := (Lease(Number(2), Null), Lease(Null, Number(1)), Lease(Null, Number(3)));
    LeaseSound(Number(2), Null);
    LeaseSound(Null, Number(1));
    LeaseSound(Null, Number(3));
    LeaseSound(Number(2), Number(3));
    LeasesClash(Number(2), Null, Null, Number(1));
    LeasesClash(Null, Number(1), Null, Number(3));
    LeasesCompatible(Number(2), Null, Null, Number(1));
    LeasesCompatible(Number(2), Null, Null, Number(3));
    LeasesCompatible(Null, Number(1), Null, Number(3));
    LeasesOverlay(Number(2), Null, Null, Number(1));
    LeasesOverlay(Null, Number(1), Null, Number(3));
    LeasesOverlay(Number(2), Number(1), Null, Number(3));
    hide Lease, WellFormed, AllValid, Clash, Overlay, Compatible, Merge, FromLeft, FromRight;
    FromLeftExactly(a, b, c);
    FromRightExactly(a, b, c);
  }

  function CertificateRow(thumbprint: Value, serial: Value, subject: Value): Value {
    Model(CertificateInfo,
        map["store" := Scalar("root"), "thumbprint" := thumbprint, "serial_number" := serial, "subject" := subject])
  }

  lemma CertificateComponents()
    ensures Components(CertificateInfo)
            == Some([[("store", Folded)], [("thumbprint", Folded), ("serial_number", Folded), ("subject", Folded)]])
  {
  }

  lemma CertificateIdentity(row: Value, thumbprint: Value, serial: Value, subject: Value)
    requires row == CertificateRow(thumbprint, serial, subject)
    ensures PlainText(thumbprint) && PlainText(serial) && PlainText(subject) ==> PlainKeys(row)
    ensures IdentityOf(row) == Keyed(CertificateInfo, [Read(Scalar("root"), Folded),
              if IsTruthy(thumbprint) then Read(thumbprint, Folded) else if IsTruthy(serial) then Read(serial, Folded)
                  else Read(subject, Folded)])
  {
    hide ReadText, Components;
    CertificateComponents();
    var components := Components(CertificateInfo).value;
    ReadOne(row.fields, components[0][0]);
    ReadThree(row.fields, components[1][0], components[1][1], components[1][2]);
    assert |IdentityOf(row).parts| == 2;
  }

  lemma StripShort()
    ensures Text.Strip("ab") == "ab" && Text.Strip("7") == "7"
  {
  }

  lemma MergedRow(a: Value, b: Value)
    requires SameModel(a, b)
    ensures Merge(a, b) == MergeRow(a, b)
  {
  }

  /** Rows whose incoming fields are plain merge unless they break a rule. */
  lemma PlainRowsMerge(a: Value, b: Value)
    requires SameModel(a, b) && forall k | k in b.fields :: PlainText(b.fields[k])
    ensures ValidRow(a.kind, OverlayFields(a.fields, b)) ==> Merge(a, b).Some?
  {
    forall k | k in b.fields
      ensures Merge(Get(a.fields, k), b.fields[k]) == Some(Overlay(Get(a.fields, k), b.fields[k]))
    {
    }
    hide Overlay, Merge, PlainText;
    assert MergeFields(a.fields, b).Some?;
    assert MergeFields(a.fields, b).value == OverlayFields(a.fields, b);
    MergedRow(a, b);
  }

  lemma CertificateRules()
    ensures RulesOf(CertificateInfo) == [NotAbove("not_before", "not_after")]
  {
  }

  lemma CertificatesMerge(current: Value, incoming: Value)
    requires current == CertificateRow(Scalar("ab"), Scalar("7"), Scalar("cn"))
    requires incoming == CertificateRow(Scalar(""), Null, Scalar("ab"))
    ensures Merge(current, incoming).Some?
  {
    CertificateRules();
    assert Get(current.fields, "not_before") == Null && Get(incoming.fields, "not_before") == Null;
    OverlayPlain(Null, Null);
    FieldOfOverlay(current, incoming, "not_before");
    assert Overlay(current, incoming) == Model(CertificateInfo, OverlayFields(current.fields, incoming));
    assert forall k | k in incoming.fields :: PlainText(incoming.fields[k]);
    hide Overlay, OverlayFields, CertificateRow, RulesOf, PlainText;
    PlainRowsMerge(current, incoming);
  }

  lemma CertificatesUncover(current: Value, incoming: Value)
    requires current == CertificateRow(Scalar("ab"), Scalar("7"), Scalar("cn"))
    requires incoming == CertificateRow(Scalar(""), Null, Scalar("ab"))
    ensures PlainKeys(current) && PlainKeys(incoming) && IdentityOf(current) == IdentityOf(incoming)
    ensures UncoversSerial(current, incoming)
  {
    CertificateIdentity(current, Scalar("ab"), Scalar("7"), Scalar("cn"));
    CertificateIdentity(incoming, Scalar(""), Null, Scalar("ab"));
    hide IdentityOf, PlainKeys;
    StripShort();
    assert |Text.Fold("7")| != |Text.Fold("ab")|;
  }

  /** Two certificate rows with one identity whose merge has another. */
  lemma EmptyThumbprintChangesIdentity()
    ensures exists current, incoming ::
              && SameModel(current, incoming) && IdentityOf(current) == IdentityOf(incoming)
              && Merge(current, incoming).Some? && IdentityOf(Merge(current, incoming).value) != IdentityOf(current)
  {
    hide IdentityOf, PlainKeys, Merge, UncoversSerial;
    var current := CertificateRow(Scalar("ab"), Scalar("7"), Scalar("cn"));
    var incoming := CertificateRow(Scalar(""), Null, Scalar("ab"));
    CertificatesMerge(current, incoming);
    CertificatesUncover(current, incoming);
    MergedIdentityKept(current, incoming);
  }
}
