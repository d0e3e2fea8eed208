/** The log sanitizer of sdk/go/logging/handler.go: rewriting of attribute trees and of possibly cyclic
    values under a shared node budget and a depth bound, with group merging and redaction. */
module LogSanitizer {
  import opened Octets
  import opened Optional
  import opened Utf8

  type Node = nat

  /** A value handed to the logger. Maps and slices are references into a graph, so they may be cyclic;
      groups are finite trees. Wrapped is a LogValuer together with the value it stands for. */
  datatype Value =
    | Null
    | Scalar(n: int)
    | NotFinite
    | Text(text: Bytes)
    | Binary(length: nat)
    | Unsupported
    | NilContainer
    | Ref(node: Node)
    | Wrapped(inner: Value)
    | Group(attrs: seq<Attr>)

  datatype Attr = Attr(key: string, value: Value)

  datatype Entry = Entry(key: string, value: Value)

  datatype Container = Entries(entries: seq<Entry>) | Items(items: seq<Value>)

  type Graph = map<Node, Container>

  /** What is handed to the next handler. */
  datatype Out =
    | ONull
    | OScalar(n: int)
    | OText(text: Bytes)
    | OBinary(length: nat)
    | OMap(entries: seq<OutEntry>)
    | OList(items: seq<Out>)

  datatype OutEntry = OutEntry(key: string, value: Out)

  /** logField: a leaf, or a group that is either open or closed by a placeholder. */
  datatype Field = Leaf(key: string, value: Out) | GroupField(key: string, closed: Option<Out>, children: seq<Field>)

  datatype Config = Config(maxAttributes: nat, maxDepth: nat, maxStringBytes: nat, maxMessageBytes: nat, sensitive: string -> bool)

  /** normalizeOptions: what NewSanitizingHandler accepts. Sensitive names contain a letter or digit, so the
      empty key is never one of them. */
  ghost predicate ProperConfig(c: Config) {
    && c.maxAttributes >= 1 && c.maxDepth >= 1 && !c.sensitive("")
    && c.maxStringBytes >= |TRUNCATED| && c.maxMessageBytes >= |TRUNCATED|
  }

  const REDACTED := OText([91, 82, 69, 68, 65, 67, 84, 69, 68, 93])
  const CUT_OFF := OText(TRUNCATED)
  const UNSERIALIZABLE := OText([91, 85, 78, 83, 69, 82, 73, 65, 76, 73, 90, 65, 66, 76, 69, 93])

  const ZERO_ATTR := Attr("", Null)

  function Shorten(c: Config, text: Bytes): Out {
    OText(Truncate(text, if c.maxStringBytes >= |TRUNCATED| then c.maxStringBytes else |TRUNCATED|))
  }

  /** result[key] = value, keeping the position of a key already present. */
  function Put(entries: seq<OutEntry>, key: string, value: Out): seq<OutEntry> {
    if entries == [] then [OutEntry(key, value)]
    else if entries[0].key == key then [OutEntry(key, value)] + entries[1..]
    else [entries[0]] + Put(entries[1..], key, value)
  }

  function FieldsObject(fields: seq<Field>, result: seq<OutEntry>): seq<OutEntry> {
    if fields == [] then result
    else
      var value := match fields[0]
        case Leaf(_, v) => v
        case GroupField(_, Some(marker), _) => marker
        case GroupField(_, None, children) => OMap(FieldsObject(children, []));
      FieldsObject(fields[1..], Put(result, fields[0].key, value))
  }

  /** How far the depth bound is away. */
  function Room(c: Config, depth: nat): nat {
    if depth <= c.maxDepth then c.maxDepth + 1 - depth else 0
  }

  function FindGroup(fields: seq<Field>, key: string): (i: nat)
    ensures i <= |fields|
    ensures i < |fields| ==> fields[i].GroupField? && fields[i].key == key
    ensures forall j :: 0 <= j < i ==> !(fields[j].GroupField? && fields[j].key == key)
  {
    if fields == [] || (fields[0].GroupField? && fields[0].key == key) then 0 else 1 + FindGroup(fields[1..], key)
  }

  /** sanitizer.placeholder for a group: closed when the key is sensitive or too deep. */
  function Placeholder(c: Config, key: string, depth: nat): Option<Out> {
    if c.sensitive(key) then Some(REDACTED) else if depth > c.maxDepth then Some(CUT_OFF) else None
  }

  /** sanitizer.group: the fields with the group present, its position, and the budget left. */
  function OpenGroup(c: Config, fields: seq<Field>, key: string, depth: nat, budget: nat): (r: (seq<Field>, nat, nat))
    ensures r.1 < |r.0| && r.0[r.1].GroupField? && r.0[r.1].key == key && r.2 <= budget
  {
    var i := FindGroup(fields, key);
    if i < |fields| then (fields, i, budget)
    else (fields + [GroupField(key, Placeholder(c, key, depth), [])], |fields|, if budget == 0 then 0 else budget - 1)
  }

  // ----- values -----

  /** sanitizer.clean, with the remaining budget in and out. */
  function Clean(c: Config, g: Graph, v: Value, depth: nat, budget: nat): (r: (Out, nat))
    ensures r.1 <= budget
    decreases Room(c, depth), v, 1
  {
    if depth > c.maxDepth then (CUT_OFF, budget)
    else match v
      case Null => (ONull, budget)
      case Scalar(n) => (OScalar(n), budget)
      case NotFinite => (UNSERIALIZABLE, budget)
      case Text(text) => (Shorten(c, text), budget)
      case Binary(length) => (OBinary(length), budget)
      case Unsupported => (UNSERIALIZABLE, budget)
      case NilContainer => (ONull, budget)
      case Ref(node) =>
        if node !in g then (UNSERIALIZABLE, budget)
        else (match g[node]
              case Entries(entries) => var r := CleanEntries(c, g, entries, depth + 1, budget, []); (OMap(r.0), r.1)
              case Items(items) => var r := CleanItems(c, g, items, depth + 1, budget); (OList(r.0), r.1))
      case Wrapped(inner) => Clean(c, g, inner, depth, budget)
      case Group(attrs) => var r := AddAll(c, g, [], attrs, depth + 1, budget); (OMap(FieldsObject(r.0, [])), r.1)
  }

  /** The loop over a map: one unit of budget per entry, sensitive values are not even looked at. */
  function CleanEntries(c: Config, g: Graph, entries: seq<Entry>, depth: nat, budget: nat, result: seq<OutEntry>)
    : (r: (seq<OutEntry>, nat))
    ensures r.1 <= budget
    decreases Room(c, depth), entries, 0
  {
    if entries == [] || budget == 0 then (result, budget)
    else if c.sensitive(entries[0].key) then
      CleanEntries(c, g, entries[1..], depth, budget - 1, Put(result, entries[0].key, REDACTED))
    else
      var r := Clean(c, g, entries[0].value, depth, budget - 1);
      CleanEntries(c, g, entries[1..], depth, r.1, Put(result, entries[0].key, r.0))
  }

  /** The loop over a slice. */
  function CleanItems(c: Config, g: Graph, items: seq<Value>, depth: nat, budget: nat): (r: (seq<Out>, nat))
    ensures r.1 <= budget
    decreases Room(c, depth), items, 0
  {
    if items == [] || budget == 0 then ([], budget)
    else
      var head := Clean(c, g, items[0], depth, budget - 1);
      var rest := CleanItems(c, g, items[1..], depth, head.1);
      ([head.0] + rest.0, rest.1)
  }

  // ----- attributes -----

  /** slog.Value.Resolve. */
  function Resolve(v: Value): (r: Value)
    ensures !r.Wrapped? && (r == v || r < v)
  {
    if v.Wrapped? then Resolve(v.inner) else v
  }

  /** sanitizer.add without a WithGroup path. */
  function Add(c: Config, g: Graph, fields: seq<Field>, attr: Attr, depth: nat, budget: nat): (r: (seq<Field>, nat))
    ensures r.1 <= budget
    decreases Room(c, depth), attr, 1
  {
    if budget == 0 || attr == ZERO_ATTR then (fields, budget)
    else if attr.key != "" && (c.sensitive(attr.key) || depth > c.maxDepth) then
      (fields + [Leaf(attr.key, if c.sensitive(attr.key) then REDACTED else CUT_OFF)], budget - 1)
    else
      var v := Resolve(attr.value);
      if !v.Group? then
        var r := Clean(c, g, v, depth, budget - 1);
        (fields + [Leaf(attr.key, r.0)], r.1)
      else if v.attrs == [] then (fields, budget)
      else if attr.key == "" then AddAll(c, g, fields, v.attrs, depth, budget)
      else
        var (present, i, left) := OpenGroup(c, fields, attr.key, depth, budget);
        var r := AddAll(c, g, present[i].children, v.attrs, depth + 1, left);
        (present[i := GroupField(attr.key, present[i].closed, r.0)], r.1)
  }

  function AddAll(c: Config, g: Graph, fields: seq<Field>, attrs: seq<Attr>, depth: nat, budget: nat): (r: (seq<Field>, nat))
    ensures r.1 <= budget
    decreases Room(c, depth), attrs, 0
  {
    if attrs == [] || budget == 0 then (fields, budget)
    else
      var r := Add(c, g, fields, attrs[0], depth, budget);
      AddAll(c, g, r.0, attrs[1..], depth, r.1)
  }

  /** sanitizer.add under a WithGroup path. */
  function AddUnder(c: Config, g: Graph, fields: seq<Field>, path: seq<string>, attr: Attr, depth: nat, budget: nat)
    : (r: (seq<Field>, nat))
    ensures r.1 <= budget
    decreases |path|
  {
    if budget == 0 || attr == ZERO_ATTR then (fields, budget)
    else if path == [] then Add(c, g, fields, attr, depth, budget)
    else
      var (present, i, left) := OpenGroup(c, fields, path[0], depth, budget);
      if present[i].closed.Some? then (present, left)
      else
        var r := AddUnder(c, g, present[i].children, path[1..], attr, depth + 1, left);
        (present[i := GroupField(path[0], None, r.0)], r.1)
  }

  // ----- a whole record -----

  datatype Scoped = Scoped(groups: seq<string>, attr: Attr)

  function AddScoped(c: Config, g: Graph, fields: seq<Field>, attrs: seq<Scoped>, budget: nat): (r: (seq<Field>, nat))
    ensures r.1 <= budget
    decreases |attrs|
  {
    if attrs == [] || budget == 0 then (fields, budget)
    else
      var r := AddUnder(c, g, fields, attrs[0].groups, attrs[0].attr, 1, budget);
      AddScoped(c, g, r.0, attrs[1..], r.1)
  }

  function Under(groups: seq<string>, attrs: seq<Attr>): (r: seq<Scoped>)
    ensures |r| == |attrs|
    ensures forall i :: 0 <= i < |r| ==> r[i] == Scoped(groups, attrs[i])
  {
    seq(|attrs|, i requires 0 <= i < |attrs| => Scoped(groups, attrs[i]))
  }

  /** Handle: static attributes, then context attributes, then the record's own, on one budget. */
  function Record(c: Config, g: Graph, fixed: seq<Scoped>, groups: seq<string>, context: seq<Attr>, own: seq<Attr>)
    : (seq<Field>, nat)
  {
    AddScoped(c, g, [], fixed + Under(groups, context) + Under(groups, own), c.maxAttributes)
  }

  /** renderFields: the attributes passed on; a closed group shows its placeholder. */
  datatype Rendered = RLeaf(key: string, value: Out) | RGroup(key: string, children: seq<Rendered>)

  function Render(fields: seq<Field>): seq<Rendered> {
    if fields == [] then []
    else
      [match fields[0]
       case Leaf(key, v) => RLeaf(key, v)
       case GroupField(key, Some(marker), _) => RLeaf(key, marker)
       case GroupField(key, None, children) => RGroup(key, Render(children))] + Render(fields[1..])
  }
}
