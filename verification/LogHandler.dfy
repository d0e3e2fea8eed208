/** The sanitizer as it runs: one mutable budget, loops over maps, slices and attribute lists. Every method is
    tied to the functions of LogSanitizer. */
module LogHandler {
  import opened Octets
  import opened Optional
  import opened Utf8
  import opened LogSanitizer
  import LogEquivalence

  method RenderFields(fields: seq<Field>) returns (attrs: seq<Rendered>)
    ensures attrs == Render(fields)
    decreases fields
  {
    attrs := [];
    for i := 0 to |fields|
      invariant Render(fields) == attrs + Render(fields[i..])
    {
      var attr;
      match fields[i] {
        case Leaf(key, v) => attr := RLeaf(key, v);
        case GroupField(key, Some(marker), _) => attr := RLeaf(key, marker);
        case GroupField(key, None, children) =>
          var inner := RenderFields(children);
          attr := RGroup(key, inner);
      }
      assert Render(fields[i..]) == [attr] + Render(fields[i..][1..]);
      assert fields[i..][1..] == fields[i + 1..];
      attrs := attrs + [attr];
    }
  }

  class Sanitizer {
    const config: Config
    const graph: Graph
    var remaining: nat

    constructor (config: Config, graph: Graph)
      ensures this.config == config && this.graph == graph && remaining == config.maxAttributes
    {
      this.config := config;
      this.graph := graph;
      remaining := config.maxAttributes;
    }

    method Consume() returns (ok: bool)
      modifies this
      ensures ok <==> old(remaining) > 0
      ensures remaining == if ok then old(remaining) - 1 else 0
    {
      if remaining == 0 { return false; }
      remaining := remaining - 1;
      return true;
    }

    method OpenGroup(fields: seq<Field>, key: string, depth: nat) returns (present: seq<Field>, at: nat)
      modifies this
      ensures (present, at, remaining) == LogSanitizer.OpenGroup(config, fields, key, depth, old(remaining))
    {
      for i := 0 to |fields|
        invariant forall j :: 0 <= j < i ==> !(fields[j].GroupField? && fields[j].key == key)
        invariant remaining == old(remaining)
      {
        if fields[i].GroupField? && fields[i].key == key { return fields, i; }
      }
      var _ := Consume();
      return fields + [GroupField(key, Placeholder(config, key, depth), [])], |fields|;
    }

    method CleanMap(entries: seq<Entry>, depth: nat) returns (result: seq<OutEntry>)
      requires depth <= config.maxDepth
      modifies this
      ensures (result, remaining) == CleanEntries(config, graph, entries, depth + 1, old(remaining), [])
      decreases Room(config, depth + 1), entries, 2
    {
      hide LogSanitizer.Clean, Put;
      result := [];
      var i := 0;
      while remaining > 0 && i < |entries|
        invariant i <= |entries| && remaining <= old(remaining)
        invariant CleanEntries(config, graph, entries, depth + 1, old(remaining), [])
               == CleanEntries(config, graph, entries[i..], depth + 1, remaining, result)
      {
        var rest := entries[i..];
        var e := entries[i];
        assert rest[1..] == entries[i + 1..];
        var _ := Consume();
        if config.sensitive(e.key) {
          result := Put(result, e.key, REDACTED);
        } else {
          var out := Clean(e.value, depth + 1);
          result := Put(result, e.key, out);
        }
        i := i + 1;
      }
    }

    method CleanSlice(items: seq<Value>, depth: nat) returns (result: seq<Out>)
      requires depth <= config.maxDepth
      modifies this
      ensures (result, remaining) == CleanItems(config, graph, items, depth + 1, old(remaining))
      decreases Room(config, depth + 1), items, 2
    {
      hide LogSanitizer.Clean;
      result := [];
      var i := 0;
      assert items[0..] == items;
      ghost var all := CleanItems(config, graph, items, depth + 1, remaining).0;
      assert [] + all == all;
      while i < |items|
        invariant i <= |items| && remaining <= old(remaining)
        invariant var rest := CleanItems(config, graph, items[i..], depth + 1, remaining);
                  CleanItems(config, graph, items, depth + 1, old(remaining)) == (result + rest.0, rest.1)
      {
        var rest := items[i..];
        assert rest[1..] == items[i + 1..];
        var ok := Consume();
        if !ok { break; }
        var out := Clean(items[i], depth + 1);
        ghost var after := CleanItems(config, graph, items[i + 1..], depth + 1, remaining).0;
        assert result + ([out] + after) == result + [out] + after;
        result := result + [out];
        i := i + 1;
      }
      assert result + [] == result;
    }

    method Clean(v: Value, depth: nat) returns (out: Out)
      modifies this
      ensures (out, remaining) == LogSanitizer.Clean(config, graph, v, depth, old(remaining))
      decreases Room(config, depth), v, 1
    {
      hide CleanEntries, CleanItems, LogSanitizer.AddAll, FieldsObject;
      if depth > config.maxDepth { return CUT_OFF; }
      match v {
        case Null => out := ONull;
        case Scalar(n) => out := OScalar(n);
        case NotFinite => out := UNSERIALIZABLE;
        case Text(text) => out := Shorten(config, text);
        case Binary(length) => out := OBinary(length);
        case Unsupported => out := UNSERIALIZABLE;
        case NilContainer => out := ONull;
        case Wrapped(inner) => out := Clean(inner, depth);
        case Group(attrs) =>
          var fields := AddAll([], attrs, depth + 1);
          out := OMap(FieldsObject(fields, []));
        case Ref(node) =>
          if node !in graph { return UNSERIALIZABLE; }
          match graph[node] {
            case Entries(entries) =>
              var result := CleanMap(entries, depth);
              out := OMap(result);
            case Items(items) =>
              var result := CleanSlice(items, depth);
              out := OList(result);
          }
      }
    }

    method AddAll(target: seq<Field>, attrs: seq<Attr>, depth: nat) returns (fields: seq<Field>)
      modifies this
      ensures (fields, remaining) == LogSanitizer.AddAll(config, graph, target, attrs, depth, old(remaining))
      decreases Room(config, depth), attrs, 0
    {
      hide LogSanitizer.Add;
      fields := target;
      var i := 0;
      while i < |attrs| && remaining > 0
        invariant i <= |attrs| && remaining <= old(remaining)
        invariant LogSanitizer.AddAll(config, graph, target, attrs, depth, old(remaining))
               == LogSanitizer.AddAll(config, graph, fields, attrs[i..], depth, remaining)
      {
        var rest := attrs[i..];
        assert rest[1..] == attrs[i + 1..];
        fields := Add(fields, attrs[i], depth);
        i := i + 1;
      }
    }

    method Add(target: seq<Field>, attr: Attr, depth: nat) returns (fields: seq<Field>)
      modifies this
      ensures (fields, remaining) == LogSanitizer.Add(config, graph, target, attr, depth, old(remaining))
      decreases Room(config, depth), attr, 1
    {
      hide LogSanitizer.Add, LogSanitizer.AddAll, LogSanitizer.Clean, LogSanitizer.OpenGroup;
      if remaining == 0 || attr == ZERO_ATTR {
        LogEquivalence.AddNothing(config, graph, target, attr, depth, remaining);
        return target;
      }
      if attr.key != "" && (config.sensitive(attr.key) || depth > config.maxDepth) {
        LogEquivalence.AddMarked(config, graph, target, attr, depth, remaining);
        var _ := Consume();
        return target + [Leaf(attr.key, if config.sensitive(attr.key) then REDACTED else CUT_OFF)];
      }
      var value := Resolve(attr.value);
      if value.Group? {
        var attrs := value.attrs;
        if attrs == [] {
          LogEquivalence.AddNothing(config, graph, target, attr, depth, remaining);
          return target;
        }
        if attr.key == "" {
          LogEquivalence.AddInline(config, graph, target, attr, depth, remaining);
          fields := AddAll(target, attrs, depth);
          return;
        }
        LogEquivalence.AddNested(config, graph, target, attr, depth, remaining);
        var present, i := OpenGroup(target, attr.key, depth);
        var children := AddAll(present[i].children, attrs, depth + 1);
        return present[i := GroupField(attr.key, present[i].closed, children)];
      }
      LogEquivalence.AddLeaf(config, graph, target, attr, depth, remaining);
      var _ := Consume();
      var out := Clean(value, depth);
      return target + [Leaf(attr.key, out)];
    }

    method AddUnder(target: seq<Field>, groups: seq<string>, attr: Attr, depth: nat) returns (fields: seq<Field>)
      modifies this
      ensures (fields, remaining) == LogSanitizer.AddUnder(config, graph, target, groups, attr, depth, old(remaining))
      decreases |groups|
    {
      hide LogSanitizer.Add, LogSanitizer.OpenGroup;
      if remaining == 0 || attr == ZERO_ATTR { return target; }
      if groups == [] {
        fields := Add(target, attr, depth);
        return;
      }
      var present, i := OpenGroup(target, groups[0], depth);
      if present[i].closed.Some? { return present; }
      var children := AddUnder(present[i].children, groups[1..], attr, depth + 1);
      return present[i := GroupField(groups[0], None, children)];
    }

    method AddScoped(target: seq<Field>, attrs: seq<Scoped>) returns (fields: seq<Field>)
      modifies this
      ensures (fields, remaining) == LogSanitizer.AddScoped(config, graph, target, attrs, old(remaining))
    {
      hide LogSanitizer.AddUnder;
      fields := target;
      var i := 0;
      while i < |attrs| && remaining > 0
        invariant i <= |attrs| && remaining <= old(remaining)
        invariant LogSanitizer.AddScoped(config, graph, target, attrs, old(remaining))
               == LogSanitizer.AddScoped(config, graph, fields, attrs[i..], remaining)
      {
        var rest := attrs[i..];
        assert rest[1..] == attrs[i + 1..];
        fields := AddUnder(fields, attrs[i].groups, attrs[i].attr, 1);
        i := i + 1;
      }
    }
  }

  lemma SpentAddsNothing(c: Config, g: Graph, fields: seq<Field>, attrs: seq<Scoped>)
    ensures AddScoped(c, g, fields, attrs, 0) == (fields, 0)
  {
  }

  /** slog.Record. */
  datatype LogRecord = LogRecord(time: int, level: int, message: Bytes, position: nat, attrs: seq<Attr>)

  /** The new record and the attributes added to it. */
  datatype Handed = Handed(record: LogRecord, attrs: seq<Rendered>)

  /** SanitizingHandler; the handlers derived from it are copies. */
  class Handler {
    const config: Config
    const attrs: seq<Scoped>
    const groups: seq<string>

    constructor (config: Config, attrs: seq<Scoped>, groups: seq<string>)
      ensures this.config == config && this.attrs == attrs && this.groups == groups
    {
      this.config := config;
      this.attrs := attrs;
      this.groups := groups;
    }

    method WithAttrs(added: seq<Attr>) returns (h: Handler)
      ensures fresh(h) && h.config == config && h.groups == groups && h.attrs == attrs + Under(groups, added)
    {
      var cloned := attrs;
      for i := 0 to |added|
        invariant cloned == attrs + Under(groups, added)[..i]
      {
        cloned := cloned + [Scoped(groups, added[i])];
      }
      h := new Handler(config, cloned, groups);
    }

    method WithGroup(name: string) returns (h: Handler)
      ensures h.config == config && h.attrs == attrs && h.groups == if name == "" then groups else groups + [name]
    {
      if name == "" { return this; }
      h := new Handler(config, attrs, groups + [name]);
    }

    /** What the next handler receives, if it is enabled for the record's level: the sanitized record; time, level
        and source position are passed on as they are. `fromContext` is what the context callback returns. */
    method Handle(graph: Graph, fromContext: seq<Attr>, record: LogRecord, enabled: bool) returns (out: Option<Handed>)
      requires ProperConfig(config)
      ensures out.Some? <==> enabled
      ensures out.Some? ==>
                && out.value.record == record.(message := Truncate(record.message, config.maxMessageBytes), attrs := [])
                && out.value.attrs == Render(Record(config, graph, attrs, groups, fromContext, record.attrs).0)
    {
      hide LogSanitizer.AddScoped, Render, Truncate;
      if !enabled { return None; }
      var own := record.attrs;
      LogEquivalence.ScopedConcat(config, graph, [], attrs + Under(groups, fromContext), Under(groups, own), config.maxAttributes);
      LogEquivalence.ScopedConcat(config, graph, [], attrs, Under(groups, fromContext), config.maxAttributes);
      var state := new Sanitizer(config, graph);
      var fields := state.AddScoped([], attrs);
      SpentAddsNothing(config, graph, fields, Under(groups, fromContext));
      if state.remaining > 0 { fields := state.AddScoped(fields, Under(groups, fromContext)); }
      fields := state.AddScoped(fields, Under(groups, own));
      var message := GoTruncate(record.message, config.maxMessageBytes);
      var rendered := RenderFields(fields);
      return Some(Handed(LogRecord(record.time, record.level, message, record.position, []), rendered));
    }
  }
}
