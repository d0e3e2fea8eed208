/** What the sanitizer guarantees of its output: the node budget, the depth bound and redaction. */
module LogSafety {
  import opened Optional
  import opened Utf8
  import opened LogSanitizer

  // ----- nodes emitted -----

  function Size(o: Out): nat {
    match o
    case OMap(entries) => EntriesSize(entries)
    case OList(items) => ItemsSize(items)
    case _ => 0
  }

  function EntriesSize(entries: seq<OutEntry>): nat {
    if entries == [] then 0 else 1 + Size(entries[0].value) + EntriesSize(entries[1..])
  }

  function ItemsSize(items: seq<Out>): nat {
    if items == [] then 0 else 1 + Size(items[0]) + ItemsSize(items[1..])
  }

  /** Closed groups show only their placeholder. */
  function FieldSize(f: Field): nat {
    match f
    case Leaf(_, v) => 1 + Size(v)
    case GroupField(_, Some(marker), _) => 1 + Size(marker)
    case GroupField(_, None, children) => 1 + FieldsSize(children)
  }

  function FieldsSize(fields: seq<Field>): nat {
    if fields == [] then 0 else FieldSize(fields[0]) + FieldsSize(fields[1..])
  }

  lemma {:induction false} FieldsSizeAppend(fields: seq<Field>, f: Field)
    ensures FieldsSize(fields + [f]) == FieldsSize(fields) + FieldSize(f)
  {
    if fields == [] {
      assert fields + [f] == [f] && [f][1..] == [];
    } else {
      FieldsSizeAppend(fields[1..], f);
      assert (fields + [f])[1..] == fields[1..] + [f];
    }
  }

  lemma {:induction false} FieldsSizeUpdate(fields: seq<Field>, i: nat, f: Field)
    requires i < |fields|
    ensures FieldsSize(fields[i := f]) + FieldSize(fields[i]) == FieldsSize(fields) + FieldSize(f)
  {
    if i > 0 {
      FieldsSizeUpdate(fields[1..], i - 1, f);
      assert fields[i := f][1..] == fields[1..][i - 1 := f];
    } else {
      assert fields[0 := f][1..] == fields[1..];
    }
  }

  lemma {:induction false} PutSize(entries: seq<OutEntry>, key: string, value: Out)
    ensures EntriesSize(Put(entries, key, value)) <= EntriesSize(entries) + 1 + Size(value)
  {
    if entries == [] {
      assert [OutEntry(key, value)][1..] == [];
    } else if entries[0].key != key {
      PutSize(entries[1..], key, value);
      assert Put(entries, key, value)[1..] == Put(entries[1..], key, value);
    } else {
      assert Put(entries, key, value)[1..] == entries[1..];
    }
  }

  lemma {:induction false} ObjectSize(fields: seq<Field>, result: seq<OutEntry>)
    ensures EntriesSize(FieldsObject(fields, result)) <= EntriesSize(result) + FieldsSize(fields)
    decreases fields
  {
    if fields != [] {
      var value := match fields[0]
        case Leaf(_, v) => v
        case GroupField(_, Some(marker), _) => marker
        case GroupField(_, None, children) => OMap(FieldsObject(children, []));
      if fields[0].GroupField? && fields[0].closed.None? {
        ObjectSize(fields[0].children, []);
      }
      PutSize(result, fields[0].key, value);
      ObjectSize(fields[1..], Put(result, fields[0].key, value));
    }
  }

  // ----- the budget bounds what is emitted -----

  lemma {:induction false} CleanWithin(c: Config, g: Graph, v: Value, depth: nat, budget: nat)
    ensures Size(Clean(c, g, v, depth, budget).0) + Clean(c, g, v, depth, budget).1 <= budget
    decreases Room(c, depth), v, 1
  {
    if depth <= c.maxDepth {
      match v {
        case Ref(node) =>
          if node in g {
            match g[node] {
              case Entries(entries) => EntriesWithin(c, g, entries, depth + 1, budget, []);
              case Items(items) => ItemsWithin(c, g, items, depth + 1, budget);
            }
          }
        case Wrapped(inner) => CleanWithin(c, g, inner, depth, budget);
        case Group(attrs) =>
          AddAllWithin(c, g, [], attrs, depth + 1, budget);
          ObjectSize(AddAll(c, g, [], attrs, depth + 1, budget).0, []);
        case _ =>
      }
    }
  }

  lemma {:induction false} EntriesWithin(c: Config, g: Graph, entries: seq<Entry>, depth: nat, budget: nat, result: seq<OutEntry>)
    ensures var r := CleanEntries(c, g, entries, depth, budget, result);
            EntriesSize(r.0) + r.1 <= EntriesSize(result) + budget
    decreases Room(c, depth), entries, 0
  {
    hide Clean, EntriesSize, Put;
    if entries != [] && budget > 0 {
      var key := entries[0].key;
      if c.sensitive(key) {
        PutSize(result, key, REDACTED);
        EntriesWithin(c, g, entries[1..], depth, budget - 1, Put(result, key, REDACTED));
      } else {
        var r := Clean(c, g, entries[0].value, depth, budget - 1);
        CleanWithin(c, g, entries[0].value, depth, budget - 1);
        PutSize(result, key, r.0);
        EntriesWithin(c, g, entries[1..], depth, r.1, Put(result, key, r.0));
      }
    }
  }

  lemma {:induction false} ItemsWithin(c: Config, g: Graph, items: seq<Value>, depth: nat, budget: nat)
    ensures var r := CleanItems(c, g, items, depth, budget);
            ItemsSize(r.0) + r.1 <= budget
    decreases Room(c, depth), items, 0
  {
    if items != [] && budget > 0 {
      var head := Clean(c, g, items[0], depth, budget - 1);
      CleanWithin(c, g, items[0], depth, budget - 1);
      ItemsWithin(c, g, items[1..], depth, head.1);
      assert CleanItems(c, g, items, depth, budget).0[1..] == CleanItems(c, g, items[1..], depth, head.1).0;
    }
  }

  lemma OpenGroupWithin(c: Config, fields: seq<Field>, key: string, depth: nat, budget: nat)
    requires budget > 0
    ensures var (present, i, left) := OpenGroup(c, fields, key, depth, budget);
            FieldsSize(present) + left == FieldsSize(fields) + budget
  {
    FieldsSizeAppend(fields, GroupField(key, Placeholder(c, key, depth), []));
  }

  lemma {:induction false} AddWithin(c: Config, g: Graph, fields: seq<Field>, attr: Attr, depth: nat, budget: nat)
    ensures var r := Add(c, g, fields, attr, depth, budget);
            FieldsSize(r.0) + r.1 <= FieldsSize(fields) + budget
    decreases Room(c, depth), attr, 1
  {
    hide Clean, AddAll, FindGroup, OpenGroup, FieldsSize, Placeholder;
    if budget == 0 || attr == ZERO_ATTR {
    } else if attr.key != "" && (c.sensitive(attr.key) || depth > c.maxDepth) {
      FieldsSizeAppend(fields, Leaf(attr.key, if c.sensitive(attr.key) then REDACTED else CUT_OFF));
    } else {
      var v := Resolve(attr.value);
      if !v.Group? {
        CleanWithin(c, g, v, depth, budget - 1);
        FieldsSizeAppend(fields, Leaf(attr.key, Clean(c, g, v, depth, budget - 1).0));
      } else if v.attrs == [] {
      } else if attr.key == "" {
        AddAllWithin(c, g, fields, v.attrs, depth, budget);
      } else {
        OpenGroupWithin(c, fields, attr.key, depth, budget);
        var (present, i, left) := OpenGroup(c, fields, attr.key, depth, budget);
        AddAllWithin(c, g, present[i].children, v.attrs, depth + 1, left);
        var r := AddAll(c, g, present[i].children, v.attrs, depth + 1, left);
        FieldsSizeUpdate(present, i, GroupField(attr.key, present[i].closed, r.0));
      }
    }
  }

  lemma {:induction false} AddAllWithin(c: Config, g: Graph, fields: seq<Field>, attrs: seq<Attr>, depth: nat, budget: nat)
    ensures var r := AddAll(c, g, fields, attrs, depth, budget);
            FieldsSize(r.0) + r.1 <= FieldsSize(fields) + budget
    decreases Room(c, depth), attrs, 0
  {
    if attrs != [] && budget > 0 {
      AddWithin(c, g, fields, attrs[0], depth, budget);
      var r := Add(c, g, fields, attrs[0], depth, budget);
      AddAllWithin(c, g, r.0, attrs[1..], depth, r.1);
    }
  }

  lemma {:induction false} AddUnderWithin(c: Config, g: Graph, fields: seq<Field>, path: seq<string>, attr: Attr, depth: nat, budget: nat)
    ensures var r := AddUnder(c, g, fields, path, attr, depth, budget);
            FieldsSize(r.0) + r.1 <= FieldsSize(fields) + budget
    decreases |path|
  {
    hide Add;
    if budget == 0 || attr == ZERO_ATTR {
    } else if path == [] {
      AddWithin(c, g, fields, attr, depth, budget);
    } else {
      OpenGroupWithin(c, fields, path[0], depth, budget);
      var (present, i, left) := OpenGroup(c, fields, path[0], depth, budget);
      if present[i].closed.None? {
        AddUnderWithin(c, g, present[i].children, path[1..], attr, depth + 1, left);
        var r := AddUnder(c, g, present[i].children, path[1..], attr, depth + 1, left);
        FieldsSizeUpdate(present, i, GroupField(path[0], None, r.0));
      }
    }
  }

  lemma {:induction false} AddScopedWithin(c: Config, g: Graph, fields: seq<Field>, attrs: seq<Scoped>, budget: nat)
    ensures var r := AddScoped(c, g, fields, attrs, budget);
            FieldsSize(r.0) + r.1 <= FieldsSize(fields) + budget
    decreases |attrs|
  {
    hide AddUnder;
    if attrs != [] && budget > 0 {
      AddUnderWithin(c, g, fields, attrs[0].groups, attrs[0].attr, 1, budget);
      var r := AddUnder(c, g, fields, attrs[0].groups, attrs[0].attr, 1, budget);
      AddScopedWithin(c, g, r.0, attrs[1..], r.1);
    }
  }

  /** The nodes of what is handed on: every attribute, group, map entry and sequence element. */
  function RenderedSize(attrs: seq<Rendered>): nat {
    if attrs == [] then 0
    else
      1 + (match attrs[0] case RLeaf(_, v) => Size(v) case RGroup(_, children) => RenderedSize(children))
      + RenderedSize(attrs[1..])
  }

  lemma {:induction false} RenderSize(fields: seq<Field>)
    ensures RenderedSize(Render(fields)) == FieldsSize(fields)
    decreases fields
  {
    if fields != [] {
      RenderSize(fields[1..]);
      assert Render(fields)[1..] == Render(fields[1..]);
      if fields[0].GroupField? && fields[0].closed.None? { RenderSize(fields[0].children); }
    }
  }

  /** Whatever a record holds, cyclic values included, at most MaxAttributes nodes are emitted for it. */
  lemma RecordWithinBudget(c: Config, g: Graph, fixed: seq<Scoped>, groups: seq<string>, context: seq<Attr>, own: seq<Attr>)
    ensures var r := Record(c, g, fixed, groups, context, own);
            RenderedSize(Render(r.0)) + r.1 <= c.maxAttributes
  {
    AddScopedWithin(c, g, [], fixed + Under(groups, context) + Under(groups, own), c.maxAttributes);
    RenderSize(Record(c, g, fixed, groups, context, own).0);
  }

  // ----- depth and redaction -----

  /** Fit to be emitted at this depth: below the bound only markers, and secrets redacted everywhere inside. */
  predicate Safe(c: Config, o: Out, depth: nat)
    decreases o, 0
  {
    (depth > c.maxDepth ==> o == CUT_OFF || o == REDACTED) &&
    match o
    case OMap(entries) => SafeEntries(c, entries, depth + 1)
    case OList(items) => SafeItems(c, items, depth + 1)
    case _ => true
  }

  predicate SafeAs(c: Config, key: string, o: Out, depth: nat)
    decreases o, 1
  {
    if c.sensitive(key) then o == REDACTED else Safe(c, o, depth)
  }

  predicate SafeEntries(c: Config, entries: seq<OutEntry>, depth: nat)
    decreases entries, 0
  {
    forall i :: 0 <= i < |entries| ==> SafeAs(c, entries[i].key, entries[i].value, depth)
  }

  predicate SafeItems(c: Config, items: seq<Out>, depth: nat)
    decreases items, 0
  {
    forall i :: 0 <= i < |items| ==> Safe(c, items[i], depth)
  }

  predicate SafeField(c: Config, f: Field, depth: nat) {
    match f
    case Leaf(key, v) => SafeAs(c, key, v, depth)
    case GroupField(key, closed, children) =>
      closed == Placeholder(c, key, depth) && (closed.None? ==> SafeFields(c, children, depth + 1))
  }

  predicate SafeFields(c: Config, fields: seq<Field>, depth: nat) {
    forall i :: 0 <= i < |fields| ==> SafeField(c, fields[i], depth)
  }

  lemma {:induction false} PutSafe(c: Config, entries: seq<OutEntry>, key: string, value: Out, depth: nat)
    requires SafeEntries(c, entries, depth) && SafeAs(c, key, value, depth)
    ensures SafeEntries(c, Put(entries, key, value), depth)
  {
    if entries != [] && entries[0].key != key {
      PutSafe(c, entries[1..], key, value, depth);
    }
  }

  lemma {:induction false} ObjectSafe(c: Config, fields: seq<Field>, result: seq<OutEntry>, depth: nat)
    requires SafeFields(c, fields, depth) && SafeEntries(c, result, depth)
    ensures SafeEntries(c, FieldsObject(fields, result), depth)
    decreases fields
  {
    if fields != [] {
      var value := match fields[0]
        case Leaf(_, v) => v
        case GroupField(_, Some(marker), _) => marker
        case GroupField(_, None, children) => OMap(FieldsObject(children, []));
      assert SafeField(c, fields[0], depth);
      if fields[0].GroupField? && fields[0].closed.None? {
        ObjectSafe(c, fields[0].children, [], depth + 1);
      }
      PutSafe(c, result, fields[0].key, value, depth);
      ObjectSafe(c, fields[1..], Put(result, fields[0].key, value), depth);
    }
  }

  lemma {:induction false} CleanSafe(c: Config, g: Graph, v: Value, depth: nat, budget: nat)
    requires ProperConfig(c)
    ensures Safe(c, Clean(c, g, v, depth, budget).0, depth)
    decreases Room(c, depth), v, 1
  {
    hide AddAll, CleanEntries, CleanItems, FieldsObject;
    if depth <= c.maxDepth {
      match v {
        case Ref(node) =>
          if node in g {
            match g[node] {
              case Entries(entries) => EntriesSafe(c, g, entries, depth + 1, budget, []);
              case Items(items) => ItemsSafe(c, g, items, depth + 1, budget);
            }
          }
        case Wrapped(inner) => CleanSafe(c, g, inner, depth, budget);
        case Group(attrs) =>
          AddAllSafe(c, g, [], attrs, depth + 1, budget);
          ObjectSafe(c, AddAll(c, g, [], attrs, depth + 1, budget).0, [], depth + 1);
        case _ =>
      }
    }
  }

  lemma {:induction false} EntriesSafe(c: Config, g: Graph, entries: seq<Entry>, depth: nat, budget: nat, result: seq<OutEntry>)
    requires ProperConfig(c) && SafeEntries(c, result, depth)
    ensures SafeEntries(c, CleanEntries(c, g, entries, depth, budget, result).0, depth)
    decreases Room(c, depth), entries, 0
  {
    if entries != [] && budget > 0 {
      var key := entries[0].key;
      if c.sensitive(key) {
        PutSafe(c, result, key, REDACTED, depth);
        EntriesSafe(c, g, entries[1..], depth, budget - 1, Put(result, key, REDACTED));
      } else {
        var r := Clean(c, g, entries[0].value, depth, budget - 1);
        CleanSafe(c, g, entries[0].value, depth, budget - 1);
        PutSafe(c, result, key, r.0, depth);
        EntriesSafe(c, g, entries[1..], depth, r.1, Put(result, key, r.0));
      }
    }
  }

  lemma {:induction false} ItemsSafe(c: Config, g: Graph, items: seq<Value>, depth: nat, budget: nat)
    requires ProperConfig(c)
    ensures SafeItems(c, CleanItems(c, g, items, depth, budget).0, depth)
    decreases Room(c, depth), items, 0
  {
    if items != [] && budget > 0 {
      CleanSafe(c, g, items[0], depth, budget - 1);
      ItemsSafe(c, g, items[1..], depth, Clean(c, g, items[0], depth, budget - 1).1);
    }
  }

  lemma AppendSafe(c: Config, fields: seq<Field>, f: Field, depth: nat)
    requires SafeFields(c, fields, depth) && SafeField(c, f, depth)
    ensures SafeFields(c, fields + [f], depth)
  {
  }

  lemma OpenGroupSafe(c: Config, fields: seq<Field>, key: string, depth: nat, budget: nat)
    requires SafeFields(c, fields, depth)
    ensures SafeFields(c, OpenGroup(c, fields, key, depth, budget).0, depth)
  {
    AppendSafe(c, fields, GroupField(key, Placeholder(c, key, depth), []), depth);
  }

  lemma {:induction false} AddSafe(c: Config, g: Graph, fields: seq<Field>, attr: Attr, depth: nat, budget: nat)
    requires ProperConfig(c) && SafeFields(c, fields, depth)
    ensures SafeFields(c, Add(c, g, fields, attr, depth, budget).0, depth)
    decreases Room(c, depth), attr, 1
  {
    hide Clean, AddAll, FindGroup;
    if budget == 0 || attr == ZERO_ATTR {
    } else if attr.key != "" && (c.sensitive(attr.key) || depth > c.maxDepth) {
      AppendSafe(c, fields, Leaf(attr.key, if c.sensitive(attr.key) then REDACTED else CUT_OFF), depth);
    } else {
      var v := Resolve(attr.value);
      if !v.Group? {
        CleanSafe(c, g, v, depth, budget - 1);
        AppendSafe(c, fields, Leaf(attr.key, Clean(c, g, v, depth, budget - 1).0), depth);
      } else if v.attrs == [] {
      } else if attr.key == "" {
        AddAllSafe(c, g, fields, v.attrs, depth, budget);
      } else {
        OpenGroupSafe(c, fields, attr.key, depth, budget);
        var (present, i, left) := OpenGroup(c, fields, attr.key, depth, budget);
        assert SafeField(c, present[i], depth);
        AddAllSafe(c, g, present[i].children, v.attrs, depth + 1, left);
      }
    }
  }

  lemma {:induction false} AddAllSafe(c: Config, g: Graph, fields: seq<Field>, attrs: seq<Attr>, depth: nat, budget: nat)
    requires ProperConfig(c) && SafeFields(c, fields, depth)
    ensures SafeFields(c, AddAll(c, g, fields, attrs, depth, budget).0, depth)
    decreases Room(c, depth), attrs, 0
  {
    if attrs != [] && budget > 0 {
      AddSafe(c, g, fields, attrs[0], depth, budget);
      var r := Add(c, g, fields, attrs[0], depth, budget);
      AddAllSafe(c, g, r.0, attrs[1..], depth, r.1);
    }
  }

  lemma {:induction false} AddUnderSafe(c: Config, g: Graph, fields: seq<Field>, path: seq<string>, attr: Attr, depth: nat, budget: nat)
    requires ProperConfig(c) && SafeFields(c, fields, depth)
    ensures SafeFields(c, AddUnder(c, g, fields, path, attr, depth, budget).0, depth)
    decreases |path|
  {
    hide Add;
    if budget == 0 || attr == ZERO_ATTR {
    } else if path == [] {
      AddSafe(c, g, fields, attr, depth, budget);
    } else {
      OpenGroupSafe(c, fields, path[0], depth, budget);
      var (present, i, left) := OpenGroup(c, fields, path[0], depth, budget);
      assert SafeField(c, present[i], depth);
      if present[i].closed.None? {
        AddUnderSafe(c, g, present[i].children, path[1..], attr, depth + 1, left);
      }
    }
  }

  lemma {:induction false} AddScopedSafe(c: Config, g: Graph, fields: seq<Field>, attrs: seq<Scoped>, budget: nat)
    requires ProperConfig(c) && SafeFields(c, fields, 1)
    ensures SafeFields(c, AddScoped(c, g, fields, attrs, budget).0, 1)
    decreases |attrs|
  {
    hide AddUnder;
    if attrs != [] && budget > 0 {
      AddUnderSafe(c, g, fields, attrs[0].groups, attrs[0].attr, 1, budget);
      var r := AddUnder(c, g, fields, attrs[0].groups, attrs[0].attr, 1, budget);
      AddScopedSafe(c, g, r.0, attrs[1..], r.1);
    }
  }

  /** The same, said of the attributes handed on. */
  predicate SafeRendered(c: Config, attrs: seq<Rendered>, depth: nat) {
    forall i :: 0 <= i < |attrs| ==>
      match attrs[i]
      case RLeaf(key, v) => SafeAs(c, key, v, depth)
      case RGroup(key, children) => !c.sensitive(key) && depth <= c.maxDepth && SafeRendered(c, children, depth + 1)
  }

  lemma {:induction false} RenderSafe(c: Config, fields: seq<Field>, depth: nat)
    requires SafeFields(c, fields, depth)
    ensures SafeRendered(c, Render(fields), depth)
    decreases fields
  {
    if fields != [] {
      RenderSafe(c, fields[1..], depth);
      assert SafeField(c, fields[0], depth);
      if fields[0].GroupField? && fields[0].closed.None? { RenderSafe(c, fields[0].children, depth + 1); }
    }
  }

  /** Of every record: each entry with a sensitive key shows [REDACTED], even past the depth bound, no group
      opens under a sensitive key or past the bound, and past the bound there are only markers. */
  lemma RecordIsSafe(c: Config, g: Graph, fixed: seq<Scoped>, groups: seq<string>, context: seq<Attr>, own: seq<Attr>)
    requires ProperConfig(c)
    ensures SafeRendered(c, Render(Record(c, g, fixed, groups, context, own).0), 1)
  {
    AddScopedSafe(c, g, [], fixed + Under(groups, context) + Under(groups, own), c.maxAttributes);
    RenderSafe(c, Record(c, g, fixed, groups, context, own).0, 1);
  }
}
