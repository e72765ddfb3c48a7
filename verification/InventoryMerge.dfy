/**
  `merge_inventory`: the index-driven structural merge of collector contributions.

  `Merge` specifies the result, or its failure when a merged row does not validate; the methods
  at the end compute it with the loops, the position index and the in-place list updates of the
  source.
*/
module InventoryMerge {
  import opened Prelude
  import Text

  datatype Kind =
    | Software | Process | Service | User | NetworkInterface | ListeningPort | PersistenceItem
    | BrowserExtension | CertificateInfo | UpdateInfo | Disk | Gpu | IpAddress
    | Hardware | SecurityPosture | Other(name: string)

  /**
   * An inventory value. A scalar carries its text, or, for counts and instants, its amount; `Model` is a row of one of
   * the model classes.
   */
  datatype Value =
    | Null
    | Scalar(text: string)
    | Number(amount: int)
    | Object(fields: map<string, Value>)
    | Model(kind: Kind, fields: map<string, Value>)
    | List(items: seq<Value>)

  type Fields = map<string, Value>

  function Get(fields: Fields, name: string): Value {
    if name in fields then fields[name] else Null
  }

  // ---------------------------------------------------------------- row identity

  datatype Reading = Raw | Stripped | Folded

  /** One component of a row's identity: the first of several fields that is not empty. */
  type Component = seq<(string, Reading)>

  /** The identifying fields of each kind; rows of other kinds are identified by their whole value. */
  function Components(kind: Kind): Option<seq<Component>> {
    match kind
    case Software => Some([[("name", Folded)], [("version", Stripped)], [("architecture", Folded)]])
    case Process => Some([[("pid", Raw)]])
    case Service => Some([[("name", Folded)]])
    case User => Some([[("uid", Raw), ("username", Folded)]])
    case NetworkInterface => Some([[("name", Folded)]])
    case ListeningPort => Some([[("protocol", Raw)], [("address", Raw)], [("port", Raw)]])
    case PersistenceItem => Some([[("kind", Folded)], [("name", Folded)], [("user", Folded)]])
    case BrowserExtension => Some([[("browser", Folded)], [("extension_id", Stripped)]])
    case CertificateInfo =>
        Some([[("store", Folded)], [("thumbprint", Folded), ("serial_number", Folded), ("subject", Folded)]])
    case UpdateInfo => Some([[("update_id", Folded)], [("version", Stripped)], [("installed", Raw)]])
    case Disk => Some([[("name", Folded)], [("mount_point", Raw)]])
    case Gpu => Some([[("model", Folded)], [("memory_bytes", Raw)]])
    case IpAddress => Some([[("address", Raw)]])
    case _ => None
  }

  function ReadText(text: string, reading: Reading): string {
    match reading
    case Raw => text
    case Stripped => Text.Strip(text)
    case Folded => Text.Fold(Text.Strip(text))
  }

  function Read(v: Value, reading: Reading): Value {
    if v.Scalar? then Scalar(ReadText(v.text, reading)) else if v.Number? then v else Null
  }

  predicate IsTruthy(v: Value) {
    (v.Scalar? && v.text != "") || (v.Number? && v.amount != 0)
  }

  /** `a or b or c` over the fields of a component. */
  function ReadComponent(fields: Fields, choices: Component): Value {
    if choices == [] then Null
    else
      var v := Get(fields, choices[0].0);
      if |choices| == 1 || IsTruthy(v) then Read(v, choices[0].1) else ReadComponent(fields, choices[1..])
  }

  datatype Identity = Keyed(kind: Kind, parts: seq<Value>) | Whole(value: Value)

  function IdentityOf(v: Value): Identity {
    if v.Model? && Components(v.kind).Some? then
      var components := Components(v.kind).value;
      Keyed(v.kind, seq(|components|, c requires 0 <= c < |components| => ReadComponent(v.fields, components[c])))
    else Whole(v)
  }

  // ---------------------------------------------------------------- row validation

  /** What validation demands of a row across fields, or of the length of a list field. */
  datatype Rule = NotAbove(low: string, high: string) | AtMost(field: string, limit: nat)

  function RulesOf(kind: Kind): seq<Rule> {
    match kind
    case Disk => [NotAbove("free_bytes", "capacity_bytes")]
    case CertificateInfo => [NotAbove("not_before", "not_after")]
    case NetworkInterface =>
      [NotAbove("dhcp_lease_obtained", "dhcp_lease_expires"),
       AtMost("addresses", 256), AtMost("gateways", 32), AtMost("dns_servers", 32)]
    case BrowserExtension => [AtMost("permissions", 512)]
    case UpdateInfo => [AtMost("kb_ids", 256)]
    case Hardware => [AtMost("disks", 256), AtMost("gpus", 32)]
    case SecurityPosture =>
      [AtMost("firewall_profiles", 32), AtMost("antivirus_products", 64), AtMost("encryption_volumes", 256),
       AtMost("security_agent_names", 64), AtMost("security_agent_running_names", 64),
       AtMost("unexpected_administrator_accounts", 128)]
    case _ => []
  }

  predicate InOrder(low: Value, high: Value) {
    low.Number? && high.Number? ==> low.amount <= high.amount
  }

  predicate NotLonger(v: Value, limit: nat) {
    v.List? ==> |v.items| <= limit
  }

  predicate Obeys(fields: Fields, rule: Rule) {
    match rule
    case NotAbove(low, high) => InOrder(Get(fields, low), Get(fields, high))
    case AtMost(field, limit) => NotLonger(Get(fields, field), limit)
  }

  /** `model_validate` accepts the fields, each of which comes from a valid row. */
  predicate ValidRow(kind: Kind, fields: Fields) {
    forall rule | rule in RulesOf(kind) :: Obeys(fields, rule)
  }

  // ---------------------------------------------------------------- the merge

  predicate SameModel(a: Value, b: Value) {
    a.Model? && b.Model? && a.kind == b.kind
  }

  /** The list built so far and the position of every identity in it. */
  datatype Progress = Progress(result: seq<Value>, positions: map<Identity, nat>)

  predicate InBounds(p: Progress) {
    forall d | d in p.positions :: p.positions[d] < |p.result|
  }

  /** `{identity: index for index, item in enumerate(items)}`: later items win. */
  function IndexOf(items: seq<Value>): (positions: map<Identity, nat>)
    ensures forall d | d in positions :: positions[d] < |items|
  {
    if items == [] then map[]
    else IndexOf(items[..|items| - 1])[IdentityOf(items[|items| - 1]) := |items| - 1]
  }

  function ObjectOf(fields: Option<Fields>): Option<Value> {
    if fields.None? then None else Some(Object(fields.value))
  }

  function ListOf(p: Option<Progress>): Option<Value> {
    if p.None? then None else Some(List(p.value.result))
  }

  /** `_merge_model`: the combined fields are validated. */
  function MergeRow(current: Value, incoming: Value): Option<Value>
    requires SameModel(current, incoming)
    decreases incoming, 0, 1
  {
    var fields := MergeFields(current.fields, incoming);
    if fields.Some? && ValidRow(current.kind, fields.value) then Some(Model(current.kind, fields.value)) else None
  }

  /** One turn of the list loop: a new row is appended, a known one merged if it is of the same class. */
  function MergeItem(p: Progress, item: Value): (q: Option<Progress>)
    requires InBounds(p)
    ensures q.Some? ==> InBounds(q.value)
    decreases item, 0, 2
  {
    var identity := IdentityOf(item);
    if identity !in p.positions then Some(Progress(p.result + [item], p.positions[identity := |p.result|]))
    else
      var position := p.positions[identity];
      if SameModel(p.result[position], item) then
        var row := MergeRow(p.result[position], item);
        if row.None? then None else Some(p.(result := p.result[position := row.value]))
      else Some(p)
  }

  /** The list loop after `n` incoming items. */
  function MergeItems(current: seq<Value>, incoming: Value, n: nat): (p: Option<Progress>)
    requires incoming.List? && n <= |incoming.items|
    ensures p.Some? ==> InBounds(p.value)
    decreases incoming, 0, n
  {
    if n == 0 then Some(Progress(current, IndexOf(current)))
    else
      var before := MergeItems(current, incoming, n - 1);
      if before.None? then None else MergeItem(before.value, incoming.items[n - 1])
  }

  /** One key of `merge_inventory`; no result stands for its `ValidationError`. */
  function Merge(current: Value, incoming: Value): Option<Value>
    decreases incoming, 1, 0
  {
    match incoming
    case Null => Some(current)
    case Object(_) =>
      if current.Object? then ObjectOf(MergeFields(current.fields, incoming)) else Some(incoming)
    case Model(_, _) => if SameModel(current, incoming) then MergeRow(current, incoming) else Some(incoming)
    case List(items) =>
      if current.List? then ListOf(MergeItems(current.items, incoming, |items|)) else Some(incoming)
    case _ => Some(incoming)
  }

  /** Merges the fields of `incoming` into `base`; absent information is skipped, and any failure is a failure. */
  function MergeFields(base: Fields, incoming: Value): Option<Fields>
    requires incoming.Object? || incoming.Model?
    decreases incoming, 0, 0
  {
    if exists k | k in incoming.fields :: Merge(Get(base, k), incoming.fields[k]).None? then None
    else
      Some(map k | k in base.Keys + incoming.fields.Keys && (k in base || incoming.fields[k] != Null) ::
             if k in incoming.fields then Merge(Get(base, k), incoming.fields[k]).value else base[k])
  }

  // ---------------------------------------------------------------- the loops

  lemma MergeAbsent(v: Value)
    ensures Merge(v, Null) == Some(v)
  {
  }

  method MergeModel(current: Value, incoming: Value) returns (row: Option<Value>)
    requires SameModel(current, incoming)
    ensures row == MergeRow(current, incoming)
    decreases incoming, 3
  {
    var combined := MergeInventory(current.fields, incoming);
    if combined.None? || !ValidRow(current.kind, combined.value) {
      return None;
    }
    row := Some(Model(current.kind, combined.value));
  }

  /** Once a row fails, the list fails. */
  lemma {:induction false} FailureStays(current: seq<Value>, incoming: Value, n: nat)
    requires incoming.List? && n <= |incoming.items| && MergeItems(current, incoming, n).None?
    ensures MergeItems(current, incoming, |incoming.items|).None?
    decreases |incoming.items| - n
  {
    hide IdentityOf, MergeRow;
    if n == |incoming.items| {
    } else {
      FailureStays(current, incoming, n + 1);
    }
  }

  /** The list loop, with its position index. */
  method MergeLists(current: seq<Value>, incoming: Value) returns (merged: Option<Value>)
    requires incoming.List?
    ensures merged == ListOf(MergeItems(current, incoming, |incoming.items|))
    decreases incoming, 0
  {
    var result := current;
    var positions: map<Identity, nat> := IndexOf(current);
    for n := 0 to |incoming.items|
      invariant MergeItems(current, incoming, n) == Some(Progress(result, positions))
    {
      var item := incoming.items[n];
      var identity := IdentityOf(item);
      assert InBounds(Progress(result, positions));
      if identity !in positions {
        positions := positions[identity := |result|];
        result := result + [item];
      } else {
        var position := positions[identity];
        if SameModel(result[position], item) {
          var row := MergeModel(result[position], item);
          if row.None? {
            FailureStays(current, incoming, n + 1);
            return None;
          }
          result := result[position := row.value];
        }
      }
    }
    merged := Some(List(result));
  }

  /** The branches of the key loop. */
  method MergeValue(current: Value, patch: Value, key: string) returns (value: Option<Value>)
    requires (patch.Object? || patch.Model?) && key in patch.fields && patch.fields[key] != Null
    ensures value == Merge(current, patch.fields[key])
    decreases patch, 1
  {
    var incoming := patch.fields[key];
    if current.Object? && incoming.Object? {
      var nested := MergeInventory(current.fields, incoming);
      value := ObjectOf(nested);
    } else if SameModel(current, incoming) {
      value := MergeModel(current, incoming);
    } else if current.List? && incoming.List? {
      value := MergeLists(current.items, incoming);
    } else {
      value := Some(incoming);
    }
  }

  /** The key loop. Its result does not depend on the order of the keys. */
  method MergeInventory(base: Fields, patch: Value) returns (result: Option<Fields>)
    requires patch.Object? || patch.Model?
    ensures result == MergeFields(base, patch)
    decreases patch, 2
  {
    hide Merge;
    var merged := base;
    var pending := patch.fields.Keys;
    while pending != {}
      invariant pending <= patch.fields.Keys
      invariant forall k | k in patch.fields && k !in pending :: Merge(Get(base, k), patch.fields[k]).Some?
      invariant forall k ::
                  k in merged <==> k in base || (k in patch.fields && k !in pending && patch.fields[k] != Null)
      invariant forall k | k in merged ::
                  merged[k] == if k in patch.fields && k !in pending then Merge(Get(base, k), patch.fields[k]).value
                               else base[k]
      decreases pending
    {
      var key :| key in pending;
      pending := pending - {key};
      MergeAbsent(Get(base, key));
      if patch.fields[key] != Null {
        assert Get(merged, key) == Get(base, key);
        var value := MergeValue(Get(merged, key), patch, key);
        if value.None? {
          return None;
        }
        merged := merged[key := value.value];
      }
    }
    assert MergeFields(base, patch).Some?;
    ghost var expected := MergeFields(base, patch).value;
    assert merged.Keys == expected.Keys;
    assert merged == expected;
    result := Some(merged);
  }
}
