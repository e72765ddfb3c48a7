/**
  The two structural limits checks for JSON values and the component counter: an explicit
  stack (`cloud_service/models.py`), a recursive copying walk with a shared node counter
  (`app/models/base.py`), and the stack loop of `_count_components`. Each is proved to decide
  a predicate on the tree, whatever the order in which it visits nodes and finds errors.
*/
module BoundedJson {
  import opened Prelude

  datatype Key = TextKey(text: string) | OtherKey

  /** A tree-shaped Python value; `Foreign` is one JSON has no form for. */
  datatype Json =
    | JNull
    | JBool(value: bool)
    | JInt(number: int)
    | JFloat(finite: bool, digits: string)
    | JString(text: string)
    | JList(items: seq<Json>)
    | JTuple(items: seq<Json>)
    | JObject(members: seq<(Key, Json)>)
    | Foreign

  const MAX_STRING: nat := 1_000_000
  const MAX_KEY: nat := 256

  function Children(v: Json): (r: seq<Json>)
    ensures forall i | 0 <= i < |r| :: r[i] < v
  {
    match v
    case JList(items) => items
    case JTuple(items) => items
    case JObject(members) => seq(|members|, i requires 0 <= i < |members| => members[i].1)
    case _ => []
  }

  ghost function Nodes(v: Json): (n: nat)
    ensures n >= 1
    decreases v, 1, 0
  {
    1 + NodesIn(v, |Children(v)|)
  }

  /** The nodes below the first `n` children. */
  ghost function NodesIn(v: Json, n: nat): nat
    requires n <= |Children(v)|
    decreases v, 0, n
  {
    if n == 0 then 0 else NodesIn(v, n - 1) + Nodes(Children(v)[n - 1])
  }

  /** The depth of the deepest node, the root being at depth 0. */
  ghost function Height(v: Json): nat
    decreases v, 1, 0
  {
    HeightIn(v, |Children(v)|)
  }

  ghost function HeightIn(v: Json, n: nat): nat
    requires n <= |Children(v)|
    decreases v, 0, n
  {
    if n == 0 then 0
    else
      var before, child := HeightIn(v, n - 1), 1 + Height(Children(v)[n - 1]);
      if before < child then child else before
  }

  /** What the stack loop checks at one node: numbers, string size, key type and key size. */
  predicate StackLegal(v: Json) {
    match v
    case JString(text) => |text| <= MAX_STRING
    case JFloat(finite, _) => finite
    case JObject(members) => forall i | 0 <= i < |members| :: members[i].0.TextKey? && |members[i].0.text| <= MAX_KEY
    case JTuple(_) => false
    case Foreign => false
    case _ => true
  }

  /** What the recursive walk checks at one node: tuples pass, empty keys do not, strings have any size. */
  predicate CopyLegal(v: Json) {
    match v
    case JFloat(finite, _) => finite
    case JObject(members) => forall i | 0 <= i < |members| ::
        members[i].0.TextKey? && 0 < |members[i].0.text| <= MAX_KEY
    case Foreign => false
    case _ => true
  }

  ghost predicate AllLegal(v: Json, legal: Json -> bool)
    decreases v
  {
    legal(v) && forall i | 0 <= i < |Children(v)| :: AllLegal(Children(v)[i], legal)
  }

  ghost predicate WithinLimits(v: Json, maxDepth: nat, maxNodes: nat) {
    Nodes(v) <= maxNodes && Height(v) <= maxDepth
  }

  /** What the two entry points answer. */
  ghost predicate StackAccepts(v: Json, maxDepth: nat, maxNodes: nat) {
    WithinLimits(v, maxDepth, maxNodes) && AllLegal(v, StackLegal)
  }

  ghost predicate CopyAccepts(v: Json, maxDepth: nat, maxNodes: nat) {
    WithinLimits(v, maxDepth, maxNodes) && AllLegal(v, CopyLegal)
  }

  lemma {:induction false} HeightOfChild(v: Json, n: nat, i: nat)
    requires i < n <= |Children(v)|
    ensures HeightIn(v, n) >= 1 + Height(Children(v)[i])
    decreases n
  {
    if i == n - 1 {
    } else {
      HeightOfChild(v, n - 1, i);
    }
  }

  /** `Height` is the least bound: within `limit` exactly when every child is within `limit - 1`. */
  lemma {:induction false} HeightWithin(v: Json, n: nat, limit: int)
    requires n <= |Children(v)| && limit >= 0
    ensures HeightIn(v, n) <= limit <==> forall i | 0 <= i < n :: 1 + Height(Children(v)[i]) <= limit
    decreases n
  {
    if n == 0 {
    } else {
      HeightWithin(v, n - 1, limit);
    }
  }

  // ---------------------------------------------------------------- the explicit stack

  type Stack = seq<(Json, nat)>

  ghost function StackNodes(stack: Stack): nat {
    if stack == [] then 0 else StackNodes(stack[..|stack| - 1]) + Nodes(stack[|stack| - 1].0)
  }

  ghost predicate EntryFine(entry: (Json, nat), maxDepth: nat) {
    entry.1 + Height(entry.0) <= maxDepth && AllLegal(entry.0, StackLegal)
  }

  /** Everything still on the stack is legal and deep enough below the limit. */
  ghost predicate StackFine(stack: Stack, maxDepth: nat) {
    forall i | 0 <= i < |stack| :: EntryFine(stack[i], maxDepth)
  }

  function Entries(v: Json, depth: nat): Stack {
    var children := Children(v);
    seq(|children|, i requires 0 <= i < |children| => (children[i], depth + 1))
  }

  lemma PushNode(stack: Stack, v: Json, depth: nat)
    ensures StackNodes(stack + [(v, depth)]) == StackNodes(stack) + Nodes(v)
  {
    assert (stack + [(v, depth)])[..|stack|] == stack;
    hide Nodes;
  }

  lemma {:induction false} PushedNodes(stack: Stack, v: Json, depth: nat, n: nat)
    requires n <= |Children(v)|
    ensures StackNodes(stack + Entries(v, depth)[..n]) == StackNodes(stack) + NodesIn(v, n)
    decreases n
  {
    hide StackNodes, Nodes, Children;
    var pushed := stack + Entries(v, depth)[..n];
    if n == 0 {
      assert pushed == stack;
    } else {
      var front := stack + Entries(v, depth)[..n - 1];
      PushedNodes(stack, v, depth, n - 1);
      assert pushed == front + [(Children(v)[n - 1], depth + 1)];
      PushNode(front, Children(v)[n - 1], depth + 1);
    }
  }

  lemma EntryExpands(v: Json, depth: nat, maxDepth: nat)
    ensures EntryFine((v, depth), maxDepth) <==>
              depth <= maxDepth && StackLegal(v) && StackFine(Entries(v, depth), maxDepth)
  {
    var children, entries := Children(v), Entries(v, depth);
    if depth <= maxDepth {
      HeightWithin(v, |children|, maxDepth - depth);
      forall i | 0 <= i < |children|
        ensures EntryFine(entries[i], maxDepth) <==>
                  1 + Height(children[i]) <= maxDepth - depth && AllLegal(children[i], StackLegal)
      {
      }
    }
  }

  lemma PoppedFine(stack: Stack, maxDepth: nat)
    requires stack != []
    ensures StackFine(stack, maxDepth) <==>
              StackFine(stack[..|stack| - 1], maxDepth) && EntryFine(stack[|stack| - 1], maxDepth)
  {
  }

  lemma PushedFine(stack: Stack, pushed: Stack, maxDepth: nat)
    ensures StackFine(stack + pushed, maxDepth) <==> StackFine(stack, maxDepth) && StackFine(pushed, maxDepth)
  {
    var all := stack + pushed;
    if StackFine(all, maxDepth) {
      forall i | 0 <= i < |stack| ensures EntryFine(stack[i], maxDepth) { assert all[i] == stack[i]; }
      forall i | 0 <= i < |pushed| ensures EntryFine(pushed[i], maxDepth) { assert all[|stack| + i] == pushed[i]; }
    }
  }

  /** `bounded_json` of the cloud service: false stands for its `ValueError`. */
  method CheckWithStack(value: Json, maxDepth: nat, maxNodes: nat) returns (accepted: bool)
    ensures accepted <==> StackAccepts(value, maxDepth, maxNodes)
  {
    var nodes := 0;
    var stack: Stack := [(value, 0)];
    ghost var fine := AllLegal(value, StackLegal) && Height(value) <= maxDepth;
    assert StackNodes(stack) == Nodes(value) by { assert stack[..0] == []; }
    assert EntryFine(stack[0], maxDepth) <==> fine;
    while stack != []
      invariant nodes + StackNodes(stack) == Nodes(value) && nodes <= maxNodes
      invariant fine <==> StackFine(stack, maxDepth)
      decreases StackNodes(stack)
    {
      var (item, depth) := stack[|stack| - 1];
      PoppedFine(stack, maxDepth);
      EntryExpands(item, depth, maxDepth);
      stack := stack[..|stack| - 1];
      nodes := nodes + 1;
      if nodes > maxNodes || depth > maxDepth || !StackLegal(item) {
        return false;
      }
      PushedNodes(stack, item, depth, |Children(item)|);
      PushedFine(stack, Entries(item, depth), maxDepth);
      assert Entries(item, depth)[..|Children(item)|] == Entries(item, depth);
      stack := stack + Entries(item, depth);
    }
    return true;
  }

  // ---------------------------------------------------------------- the recursive copy

  function CopiedMembers(v: Json, n: nat): (r: seq<(Key, Json)>)
    requires v.JObject? && n <= |v.members|
    ensures |r| == n
    decreases v, 0, n
  {
    if n == 0 then [] else CopiedMembers(v, n - 1) + [(v.members[n - 1].0, Copied(v.members[n - 1].1))]
  }

  /** The copy: the same value with tuples turned into lists. */
  function Copied(v: Json): Json
    decreases v, 1, 0
  {
    match v
    case JList(items) => JList(CopiedItems(v, |items|))
    case JTuple(items) => JList(CopiedItems(v, |items|))
    case JObject(members) => JObject(CopiedMembers(v, |members|))
    case _ => v
  }

  function CopiedItems(v: Json, n: nat): (r: seq<Json>)
    requires (v.JList? || v.JTuple?) && n <= |v.items|
    ensures |r| == n
    decreases v, 0, n
  {
    if n == 0 then [] else CopiedItems(v, n - 1) + [Copied(v.items[n - 1])]
  }

  ghost predicate NotATuple(v: Json) {
    !v.JTuple?
  }

  /** A value without tuples is copied to an equal value. */
  lemma {:induction false} CopyIsEqual(v: Json)
    requires AllLegal(v, NotATuple)
    ensures Copied(v) == v
    decreases v, 1, 0
  {
    if v.JList? {
      CopyIsEqualIn(v, |v.items|);
    } else if v.JObject? {
      CopyIsEqualIn(v, |v.members|);
    }
  }

  lemma {:induction false} CopyIsEqualIn(v: Json, n: nat)
    requires AllLegal(v, NotATuple) && (v.JList? || v.JObject?) && n <= |Children(v)|
    ensures v.JList? ==> CopiedItems(v, n) == v.items[..n]
    ensures v.JObject? ==> CopiedMembers(v, n) == v.members[..n]
    decreases v, 0, n
  {
    if n == 0 {
    } else {
      CopyIsEqualIn(v, n - 1);
      assert AllLegal(Children(v)[n - 1], NotATuple);
      CopyIsEqual(Children(v)[n - 1]);
    }
  }

  /** The first `n` children keep within the limits when counting starts at `nodes`. */
  ghost predicate ChildrenFit(v: Json, n: nat, depth: nat, nodes: nat, maxDepth: nat, maxNodes: nat)
    requires n <= |Children(v)|
  {
    && nodes + NodesIn(v, n) <= maxNodes
    && forall i | 0 <= i < n :: depth + 1 + Height(Children(v)[i]) <= maxDepth && AllLegal(Children(v)[i], CopyLegal)
  }

  ghost predicate Fits(v: Json, depth: nat, nodes: nat, maxDepth: nat, maxNodes: nat) {
    nodes + Nodes(v) <= maxNodes && depth + Height(v) <= maxDepth && AllLegal(v, CopyLegal)
  }

  lemma FitsByChildren(v: Json, depth: nat, nodes: nat, maxDepth: nat, maxNodes: nat)
    requires depth <= maxDepth
    ensures Fits(v, depth, nodes, maxDepth, maxNodes) <==>
            CopyLegal(v) && ChildrenFit(v, |Children(v)|, depth, nodes + 1, maxDepth, maxNodes)
  {
    HeightWithin(v, |Children(v)|, maxDepth - depth);
  }

  lemma {:induction false} NodesGrow(v: Json, m: nat, n: nat)
    requires m <= n <= |Children(v)|
    ensures NodesIn(v, m) <= NodesIn(v, n)
    decreases n
  {
    if m == n {
    } else {
      NodesGrow(v, m, n - 1);
    }
  }

  lemma NodesStep(v: Json, i: nat)
    requires i < |Children(v)|
    ensures NodesIn(v, i + 1) == NodesIn(v, i) + Nodes(Children(v)[i])
  {
    hide Nodes;
  }

  /** A child that does not fit, or whose key is not legal, keeps the whole value out. */
  lemma ChildMisfit(v: Json, i: nat, depth: nat, nodes: nat, maxDepth: nat, maxNodes: nat)
    requires i < |Children(v)|
    requires !Fits(Children(v)[i], depth + 1, nodes + NodesIn(v, i), maxDepth, maxNodes)
    ensures !ChildrenFit(v, |Children(v)|, depth, nodes, maxDepth, maxNodes)
  {
    hide AllLegal, Height, Nodes, NodesIn, Children;
    NodesGrow(v, i + 1, |Children(v)|);
    NodesStep(v, i);
  }

  lemma ChildFits(v: Json, i: nat, depth: nat, nodes: nat, maxDepth: nat, maxNodes: nat)
    requires i < |Children(v)| && ChildrenFit(v, i, depth, nodes, maxDepth, maxNodes)
    requires Fits(Children(v)[i], depth + 1, nodes + NodesIn(v, i), maxDepth, maxNodes)
    ensures ChildrenFit(v, i + 1, depth, nodes, maxDepth, maxNodes)
    ensures NodesIn(v, i + 1) == NodesIn(v, i) + Nodes(Children(v)[i])
  {
    hide AllLegal, Height, Nodes;
  }

  lemma NoChildrenYet(v: Json, depth: nat, nodes: nat, maxDepth: nat, maxNodes: nat)
    requires nodes <= maxNodes
    ensures ChildrenFit(v, 0, depth, nodes, maxDepth, maxNodes) && NodesIn(v, 0) == 0
  {
  }

  method WalkMembers(item: Json, depth: nat, nodes: nat, maxDepth: nat, maxNodes: nat) returns (copy: Option<Json>,
          counted: nat)
    requires item.JObject? && nodes <= maxNodes
    ensures copy.Some? <==> CopyLegal(item) && ChildrenFit(item, |item.members|, depth, nodes, maxDepth, maxNodes)
    ensures copy.Some? ==> copy.value == Copied(item) && counted == nodes + NodesIn(item, |item.members|)
    decreases item, 0
  {
    hide ChildrenFit, Fits, NodesIn;
    counted := nodes;
    var result: seq<(Key, Json)> := [];
    NoChildrenYet(item, depth, nodes, maxDepth, maxNodes);
    for i := 0 to |item.members|
      invariant forall j | 0 <= j < i :: item.members[j].0.TextKey? && 0 < |item.members[j].0.text| <= MAX_KEY
      invariant ChildrenFit(item, i, depth, nodes, maxDepth, maxNodes)
      invariant result == CopiedMembers(item, i) && counted == nodes + NodesIn(item, i)
    {
      var (key, value) := item.members[i];
      if key.OtherKey? || key.text == "" || |key.text| > MAX_KEY {
        return None, counted;
      }
      var child: Option<Json>;
      assert Children(item)[i] == value;
      child, counted := Walk(value, depth + 1, counted, maxDepth, maxNodes);
      if child.None? {
        ChildMisfit(item, i, depth, nodes, maxDepth, maxNodes);
        return None, counted;
      }
      ChildFits(item, i, depth, nodes, maxDepth, maxNodes);
      result := result + [(key, child.value)];
    }
    copy := Some(JObject(result));
  }

  /** The walk: accepts, counts every node it passes, and builds the copy. */
  method Walk(item: Json, depth: nat, nodes: nat, maxDepth: nat, maxNodes: nat) returns (copy: Option<Json>,
          counted: nat)
    ensures copy.Some? <==> Fits(item, depth, nodes, maxDepth, maxNodes)
    ensures copy.Some? ==> copy.value == Copied(item) && counted == nodes + Nodes(item)
    decreases item, 1
  {
    counted := nodes + 1;
    if counted > maxNodes || depth > maxDepth {
      return None, counted;
    }
    FitsByChildren(item, depth, nodes, maxDepth, maxNodes);
    match item
    case JFloat(finite, _) =>
      copy := if finite then Some(item) else None;
    case Foreign =>
      copy := None;
    case JList(items) =>
      copy, counted := WalkItems(item, depth, counted, maxDepth, maxNodes);
    case JTuple(items) =>
      copy, counted := WalkItems(item, depth, counted, maxDepth, maxNodes);
    case JObject(members) =>
      copy, counted := WalkMembers(item, depth, counted, maxDepth, maxNodes);
    case JNull => copy := Some(item);
    case JBool(_) => copy := Some(item);
    case JInt(_) => copy := Some(item);
    case JString(_) => copy := Some(item);
  }

  method WalkItems(item: Json, depth: nat, nodes: nat, maxDepth: nat, maxNodes: nat) returns (copy: Option<Json>,
          counted: nat)
    requires (item.JList? || item.JTuple?) && nodes <= maxNodes
    ensures copy.Some? <==> ChildrenFit(item, |item.items|, depth, nodes, maxDepth, maxNodes)
    ensures copy.Some? ==> copy.value == Copied(item) && counted == nodes + NodesIn(item, |item.items|)
    decreases item, 0
  {
    hide ChildrenFit, Fits, NodesIn;
    counted := nodes;
    var result: seq<Json> := [];
    NoChildrenYet(item, depth, nodes, maxDepth, maxNodes);
    for i := 0 to |item.items|
      invariant ChildrenFit(item, i, depth, nodes, maxDepth, maxNodes)
      invariant result == CopiedItems(item, i) && counted == nodes + NodesIn(item, i)
    {
      var child: Option<Json>;
      child, counted := Walk(item.items[i], depth + 1, counted, maxDepth, maxNodes);
      if child.None? {
        ChildMisfit(item, i, depth, nodes, maxDepth, maxNodes);
        return None, counted;
      }
      ChildFits(item, i, depth, nodes, maxDepth, maxNodes);
      result := result + [child.value];
    }
    copy := Some(JList(result));
  }

  /** `bounded_json` of the endpoint models. */
  method CheckAndCopy(value: Json, maxDepth: nat, maxNodes: nat) returns (copy: Option<Json>)
    ensures copy.Some? <==> CopyAccepts(value, maxDepth, maxNodes)
    ensures copy.Some? ==> copy.value == Copied(value)
  {
    var counted: nat;
    copy, counted := Walk(value, 0, 0, maxDepth, maxNodes);
  }

  // ---------------------------------------------------------------- agreement

  /** What both checks refuse at a node. */
  predicate Broken(v: Json) {
    match v
    case JFloat(finite, _) => !finite
    case JObject(members) => exists i | 0 <= i < |members| :: members[i].0.OtherKey? || |members[i].0.text| > MAX_KEY
    case Foreign => true
    case _ => false
  }

  /** What only the explicit-stack check refuses. */
  predicate LongStringOrTuple(v: Json) {
    match v
    case JString(text) => |text| > MAX_STRING
    case JTuple(_) => true
    case _ => false
  }

  /** What only the copying walk refuses. */
  predicate EmptyKey(v: Json) {
    match v
    case JObject(members) => exists i | 0 <= i < |members| :: members[i].0 == TextKey("")
    case _ => false
  }

  ghost predicate SomeNode(v: Json, p: Json -> bool)
    decreases v
  {
    p(v) || exists i | 0 <= i < |Children(v)| :: SomeNode(Children(v)[i], p)
  }

  lemma LegalAtNode(v: Json)
    ensures StackLegal(v) <==> !Broken(v) && !LongStringOrTuple(v)
    ensures CopyLegal(v) <==> !Broken(v) && !EmptyKey(v)
  {
  }

  /** What each check decides about a whole value. */
  lemma {:induction false} RefusedExactly(v: Json)
    ensures AllLegal(v, StackLegal) <==> !SomeNode(v, Broken) && !SomeNode(v, LongStringOrTuple)
    ensures AllLegal(v, CopyLegal) <==> !SomeNode(v, Broken) && !SomeNode(v, EmptyKey)
    decreases v
  {
    hide StackLegal, CopyLegal, Broken, LongStringOrTuple, EmptyKey;
    LegalAtNode(v);
    var children := Children(v);
    forall i | 0 <= i < |children|
      ensures AllLegal(children[i], StackLegal) <==>
                !SomeNode(children[i], Broken) && !SomeNode(children[i], LongStringOrTuple)
      ensures AllLegal(children[i], CopyLegal) <==> !SomeNode(children[i], Broken) && !SomeNode(children[i], EmptyKey)
    {
      RefusedExactly(children[i]);
    }
  }

  /**
   * Under the same limits the two decide alike exactly when the limits or a broken node make both refuse, or when the
   * value has both or neither of: a long string or tuple, and an empty key.
   */
  lemma DecisionsAgreeExactly(v: Json, maxDepth: nat, maxNodes: nat)
    ensures (StackAccepts(v, maxDepth, maxNodes) <==> CopyAccepts(v, maxDepth, maxNodes)) <==>
              || !WithinLimits(v, maxDepth, maxNodes) || SomeNode(v, Broken)
              || (SomeNode(v, LongStringOrTuple) <==> SomeNode(v, EmptyKey))
  {
    hide AllLegal, SomeNode, WithinLimits;
    RefusedExactly(v);
  }

  /** They do differ, in both directions. */
  lemma DecisionsDiffer()
    ensures var emptyKey := JObject([(TextKey(""), JNull)]);
            StackAccepts(emptyKey, 1, 2) && !CopyAccepts(emptyKey, 1, 2)
    ensures !StackAccepts(JTuple([]), 0, 1) && CopyAccepts(JTuple([]), 0, 1)
  {
    var emptyKey := JObject([(TextKey(""), JNull)]);
    assert Children(emptyKey) == [JNull] && NodesIn(emptyKey, 0) == 0 && HeightIn(emptyKey, 0) == 0;
    assert NodesIn(JNull, 0) == 0 && HeightIn(JNull, 0) == 0;
    assert !CopyLegal(emptyKey) by { LegalAtNode(emptyKey); assert emptyKey.members[0].0 == TextKey(""); }
    assert !StackLegal(JTuple([]));
  }

  /** The nodes on which the two checks take the same view. */
  predicate BothSee(v: Json) {
    !LongStringOrTuple(v) && !EmptyKey(v)
  }

  lemma {:induction false} SeenHasNoTuple(v: Json)
    requires AllLegal(v, BothSee)
    ensures AllLegal(v, NotATuple)
    decreases v
  {
    forall i | 0 <= i < |Children(v)| ensures AllLegal(Children(v)[i], NotATuple) {
      SeenHasNoTuple(Children(v)[i]);
    }
  }

  /** Two traversals, one predicate, on values without long strings, tuples and empty keys. */
  lemma {:induction false} ChecksAgree(v: Json)
    requires AllLegal(v, BothSee)
    ensures AllLegal(v, StackLegal) <==> AllLegal(v, CopyLegal)
    ensures AllLegal(v, StackLegal) ==> Copied(v) == v
    decreases v
  {
    var children := Children(v);
    forall i | 0 <= i < |children| ensures AllLegal(children[i], StackLegal) <==> AllLegal(children[i], CopyLegal) {
      ChecksAgree(children[i]);
    }
    SeenHasNoTuple(v);
    CopyIsEqual(v);
  }

  // ---------------------------------------------------------------- counting components

  /** `raw.get("components", [])` of a component; nothing when it is not a list of an object. */
  function Nested(v: Json): (r: Option<seq<Json>>)
    ensures r.Some? ==> forall i | 0 <= i < |r.value| :: r.value[i] < v
  {
    if !v.JObject? then None
    else if i :| && 0 <= i < |v.members| && v.members[i].0 == TextKey("components")
                 && (forall j | i < j < |v.members| :: v.members[j].0 != TextKey("components")) then
      if v.members[i].1.JList? then Some(v.members[i].1.items) else None
    else Some([])
  }

  ghost function Components(v: Json): (n: nat)
    ensures n >= 1
    decreases v, 1, 0
  {
    1 + if Nested(v).Some? then ComponentsIn(v, |Nested(v).value|) else 0
  }

  ghost function ComponentsIn(v: Json, n: nat): nat
    requires Nested(v).Some? && n <= |Nested(v).value|
    decreases v, 0, n
  {
    if n == 0 then 0 else ComponentsIn(v, n - 1) + Components(Nested(v).value[n - 1])
  }

  ghost predicate IsComponent(v: Json)
    decreases v
  {
    Nested(v).Some? && forall i | 0 <= i < |Nested(v).value| :: IsComponent(Nested(v).value[i])
  }

  ghost function ComponentsOf(stack: seq<Json>): nat {
    if stack == [] then 0 else ComponentsOf(stack[..|stack| - 1]) + Components(stack[|stack| - 1])
  }

  ghost predicate AllComponents(stack: seq<Json>) {
    forall i | 0 <= i < |stack| :: IsComponent(stack[i])
  }

  lemma {:induction false} ExtendedComponents(stack: seq<Json>, v: Json, n: nat)
    requires Nested(v).Some? && n <= |Nested(v).value|
    ensures ComponentsOf(stack + Nested(v).value[..n]) == ComponentsOf(stack) + ComponentsIn(v, n)
    decreases n
  {
    var extended := stack + Nested(v).value[..n];
    if n == 0 {
      assert extended == stack;
    } else {
      ExtendedComponents(stack, v, n - 1);
      assert extended[..|extended| - 1] == stack + Nested(v).value[..n - 1];
    }
  }

  lemma AllComponentsConcat(a: seq<Json>, b: seq<Json>)
    ensures AllComponents(a + b) <==> AllComponents(a) && AllComponents(b)
  {
    if AllComponents(a + b) {
      forall i | 0 <= i < |a| ensures IsComponent(a[i]) { assert (a + b)[i] == a[i]; }
      forall i | 0 <= i < |b| ensures IsComponent(b[i]) { assert (a + b)[|a| + i] == b[i]; }
    }
  }

  /** The loop of `_count_components` over a document's component list; no result stands for its error. */
  method CountComponents(components: seq<Json>, maximum: nat) returns (count: Option<nat>)
    ensures count.Some? <==> AllComponents(components) && ComponentsOf(components) <= maximum
    ensures count.Some? ==> count.value == ComponentsOf(components)
  {
    var stack := components;
    var seen: nat := 0;
    while stack != []
      invariant seen + ComponentsOf(stack) == ComponentsOf(components) && seen <= maximum
      invariant AllComponents(stack) <==> AllComponents(components)
      decreases ComponentsOf(stack)
    {
      var raw := stack[|stack| - 1];
      var rest := stack[..|stack| - 1];
      assert stack == rest + [raw];
      AllComponentsConcat(rest, [raw]);
      assert AllComponents([raw]) <==> IsComponent(raw) by { assert [raw][0] == raw; }
      var nested := Nested(raw);
      seen := seen + 1;
      if seen > maximum || nested.None? {
        return None;
      }
      ExtendedComponents(rest, raw, |nested.value|);
      assert nested.value[..|nested.value|] == nested.value;
      AllComponentsConcat(rest, nested.value);
      stack := rest + nested.value;
    }
    return Some(seen);
  }
}
