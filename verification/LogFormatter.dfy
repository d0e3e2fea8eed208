/** The Python formatter as it runs: the budget and the set of containers being visited are objects shared by
    the whole traversal. Its output keeps the same bounds as the Go one, on cyclic data too. */
module LogFormatter {
  import opened Optional
  import opened Utf8
  import opened LogSanitizer
  import opened LogSafety
  import opened LogPython

  // ----- bounds -----

  lemma {:induction false} SanitizeWithin(c: Config, h: Heap, v: Value, depth: nat, budget: nat, seen: set<Node>)
    ensures var r := Sanitize(c, h, v, depth, budget, seen);
            Size(r.0) + r.1 <= budget
    decreases Room(c, depth), v, 1
  {
    hide SanitizeDict, SanitizeItems;
    if depth <= c.maxDepth {
      match v {
        case Wrapped(inner) => SanitizeWithin(c, h, inner, depth, budget, seen);
        case Ref(node) =>
          if node in h && node !in seen {
            match h[node] {
              case Dict(entries) => DictWithin(c, h, entries, depth + 1, budget, seen + {node}, []);
              case Sequence(items) => SequenceWithin(c, h, items, depth + 1, budget, seen + {node});
            }
          }
        case _ =>
      }
    }
  }

  lemma {:induction false} KeyedWithin(c: Config, h: Heap, key: string, v: Value, depth: nat, budget: nat, seen: set<Node>)
    ensures var r := SanitizeKeyed(c, h, key, v, depth, budget, seen);
            Size(r.0) + r.1 <= budget
    decreases Room(c, depth), v, 2
  {
    if !c.sensitive(key) { SanitizeWithin(c, h, v, depth, budget, seen); }
  }

  lemma {:induction false} DictWithin(c: Config, h: Heap, entries: seq<DictEntry>, depth: nat, budget: nat, seen: set<Node>, result: seq<OutEntry>)
    ensures var r := SanitizeDict(c, h, entries, depth, budget, seen, result);
            match r.0
            case Some(all) => EntriesSize(all) + r.1 <= EntriesSize(result) + budget
            case None => r.1 <= budget
    decreases Room(c, depth), entries, 3
  {
    hide SanitizeKeyed, Put, EntriesSize;
    if entries != [] && budget > 0 && entries[0].key.Some? {
      var e := entries[0];
      var key := e.key.value;
      assert e.value < e;
      KeyedWithin(c, h, key, e.value, depth, budget - 1, seen);
      var r := SanitizeKeyed(c, h, key, e.value, depth, budget - 1, seen);
      PutSize(result, key, r.0);
      DictWithin(c, h, entries[1..], depth, r.1, seen, Put(result, key, r.0));
    }
  }

  lemma {:induction false} SequenceWithin(c: Config, h: Heap, items: seq<Value>, depth: nat, budget: nat, seen: set<Node>)
    ensures var r := SanitizeItems(c, h, items, depth, budget, seen);
            ItemsSize(r.0) + r.1 <= budget
    decreases Room(c, depth), items, 0
  {
    hide Sanitize;
    if items != [] && budget > 0 {
      var head := Sanitize(c, h, items[0], depth, budget - 1, seen);
      SanitizeWithin(c, h, items[0], depth, budget - 1, seen);
      SequenceWithin(c, h, items[1..], depth, head.1, seen);
      var rest := SanitizeItems(c, h, items[1..], depth, head.1, seen);
      assert SanitizeItems(c, h, items, depth, budget, seen).0[1..] == rest.0;
    }
  }

  lemma {:induction false} SanitizeSafe(c: Config, h: Heap, v: Value, depth: nat, budget: nat, seen: set<Node>)
    ensures Safe(c, Sanitize(c, h, v, depth, budget, seen).0, depth)
    decreases Room(c, depth), v, 1
  {
    hide SanitizeDict, SanitizeItems;
    if depth <= c.maxDepth {
      match v {
        case Wrapped(inner) => SanitizeSafe(c, h, inner, depth, budget, seen);
        case Ref(node) =>
          if node in h && node !in seen {
            match h[node] {
              case Dict(entries) => DictSafe(c, h, entries, depth + 1, budget, seen + {node}, []);
              case Sequence(items) => SequenceSafe(c, h, items, depth + 1, budget, seen + {node});
            }
          }
        case _ =>
      }
    }
  }

  lemma {:induction false} KeyedSafe(c: Config, h: Heap, key: string, v: Value, depth: nat, budget: nat, seen: set<Node>)
    ensures SafeAs(c, key, SanitizeKeyed(c, h, key, v, depth, budget, seen).0, depth)
    decreases Room(c, depth), v, 2
  {
    if !c.sensitive(key) { SanitizeSafe(c, h, v, depth, budget, seen); }
  }

  lemma {:induction false} DictSafe(c: Config, h: Heap, entries: seq<DictEntry>, depth: nat, budget: nat, seen: set<Node>, result: seq<OutEntry>)
    requires SafeEntries(c, result, depth)
    ensures var r := SanitizeDict(c, h, entries, depth, budget, seen, result);
            r.0.Some? ==> SafeEntries(c, r.0.value, depth)
    decreases Room(c, depth), entries, 3
  {
    hide SanitizeKeyed, Put, SafeEntries, SafeAs;
    if entries != [] && budget > 0 && entries[0].key.Some? {
      var e := entries[0];
      var key := e.key.value;
      assert e.value < e;
      KeyedSafe(c, h, key, e.value, depth, budget - 1, seen);
      var r := SanitizeKeyed(c, h, key, e.value, depth, budget - 1, seen);
      PutSafe(c, result, key, r.0, depth);
      DictSafe(c, h, entries[1..], depth, r.1, seen, Put(result, key, r.0));
    }
  }

  lemma {:induction false} SequenceSafe(c: Config, h: Heap, items: seq<Value>, depth: nat, budget: nat, seen: set<Node>)
    ensures SafeItems(c, SanitizeItems(c, h, items, depth, budget, seen).0, depth)
    decreases Room(c, depth), items, 0
  {
    hide Sanitize, Safe;
    if items != [] && budget > 0 {
      SanitizeSafe(c, h, items[0], depth, budget - 1, seen);
      SequenceSafe(c, h, items[1..], depth, Sanitize(c, h, items[0], depth, budget - 1, seen).1, seen);
    }
  }

  lemma {:induction false} FixedWithin(c: Config, h: Heap, fields: seq<Entry>, budget: nat, result: seq<OutEntry>)
    requires SafeEntries(c, result, 1)
    ensures var r := FixedFields(c, h, fields, budget, result);
            EntriesSize(r.0) + r.1 <= EntriesSize(result) + budget && SafeEntries(c, r.0, 1)
    decreases |fields|
  {
    hide SanitizeKeyed, Put, EntriesSize, SafeEntries;
    if fields != [] && budget > 0 {
      var key := fields[0].key;
      var r := SanitizeKeyed(c, h, key, fields[0].value, 1, budget - 1, {});
      KeyedWithin(c, h, key, fields[0].value, 1, budget - 1, {});
      KeyedSafe(c, h, key, fields[0].value, 1, budget - 1, {});
      PutSize(result, key, r.0);
      PutSafe(c, result, key, r.0, 1);
      FixedWithin(c, h, fields[1..], r.1, Put(result, key, r.0));
    }
  }

  lemma {:induction false} OwnWithin(c: Config, h: Heap, reserved: string -> bool, fields: seq<Entry>, budget: nat, result: seq<OutEntry>)
    requires SafeEntries(c, result, 1)
    ensures var r := OwnFields(c, h, reserved, fields, budget, result);
            EntriesSize(r.0) + r.1 <= EntriesSize(result) + budget && SafeEntries(c, r.0, 1)
    decreases |fields|
  {
    hide SanitizeKeyed, Put, EntriesSize, SafeEntries, Holds;
    if fields != [] {
      var key := fields[0].key;
      if reserved(key) || Holds(result, key) {
        OwnWithin(c, h, reserved, fields[1..], budget, result);
      } else if budget > 0 {
        var r := SanitizeKeyed(c, h, key, fields[0].value, 1, budget - 1, {});
        KeyedWithin(c, h, key, fields[0].value, 1, budget - 1, {});
        KeyedSafe(c, h, key, fields[0].value, 1, budget - 1, {});
        PutSize(result, key, r.0);
        PutSafe(c, result, key, r.0, 1);
        OwnWithin(c, h, reserved, fields[1..], r.1, Put(result, key, r.0));
      }
    }
  }

  /** Whatever a Python record holds, cyclic data included: at most max_attributes nodes, every sensitive key
      redacted, and only markers past the depth bound. */
  lemma RecordIsBoundedAndSafe(c: Config, h: Heap, reserved: string -> bool, fixed: seq<Entry>, own: seq<Entry>)
    ensures var r := RecordFields(c, h, reserved, fixed, own);
            EntriesSize(r.0) + r.1 <= c.maxAttributes && SafeEntries(c, r.0, 1)
  {
    hide FixedFields, OwnFields;
    FixedWithin(c, h, fixed, c.maxAttributes, []);
    var r := FixedFields(c, h, fixed, c.maxAttributes, []);
    OwnWithin(c, h, reserved, own, r.1, r.0);
  }

  // ----- the running code -----

  /** _Budget. */
  class Budget {
    var remaining: nat

    constructor (remaining: nat)
      ensures this.remaining == remaining
    {
      this.remaining := remaining;
    }

    method Consume() returns (ok: bool)
      modifies this
      ensures ok <==> old(remaining) > 0
      ensures remaining == if ok then old(remaining) - 1 else 0
    {
      if remaining <= 0 { return false; }
      remaining := remaining - 1;
      return true;
    }
  }

  /** The seen set. */
  class Seen {
    var ids: set<Node>

    constructor ()
      ensures ids == {}
    {
      ids := {};
    }
  }

  class Formatter {
    const config: Config
    const heap: Heap

    constructor (config: Config, heap: Heap)
      ensures this.config == config && this.heap == heap
    {
      this.config := config;
      this.heap := heap;
    }

    method SanitizeKeyed(key: string, v: Value, depth: nat, budget: Budget, seen: Seen) returns (out: Out)
      modifies budget, seen
      ensures (out, budget.remaining) == LogPython.SanitizeKeyed(config, heap, key, v, depth, old(budget.remaining), old(seen.ids))
      ensures seen.ids == old(seen.ids)
      decreases Room(config, depth), v, 2
    {
      if config.sensitive(key) { return REDACTED; }
      out := Sanitize(v, depth, budget, seen);
    }

    /** Every container entered is left again: the seen set is as before. */
    method Sanitize(v: Value, depth: nat, budget: Budget, seen: Seen) returns (out: Out)
      modifies budget, seen
      ensures (out, budget.remaining) == LogPython.Sanitize(config, heap, v, depth, old(budget.remaining), old(seen.ids))
      ensures seen.ids == old(seen.ids)
      decreases Room(config, depth), v, 1
    {
      hide SanitizeDict, SanitizeItems;
      if depth > config.maxDepth { return CUT_OFF; }
      match v {
        case Wrapped(inner) => out := Sanitize(inner, depth, budget, seen);
        case Text(text) => out := Shorten(config, text);
        case Binary(length) => out := OBinary(length);
        case Null => out := ONull;
        case Scalar(n) => out := OScalar(n);
        case Ref(node) =>
          if node !in heap || node in seen.ids { return UNSERIALIZABLE; }
          seen.ids := seen.ids + {node};
          match heap[node] {
            case Dict(entries) => out := VisitDict(entries, depth, budget, seen);
            case Sequence(items) => out := VisitSequence(items, depth, budget, seen);
          }
          seen.ids := seen.ids - {node};
        case _ => out := UNSERIALIZABLE;
      }
    }

    method VisitDict(entries: seq<DictEntry>, depth: nat, budget: Budget, seen: Seen) returns (out: Out)
      requires depth <= config.maxDepth
      modifies budget, seen
      ensures var r := SanitizeDict(config, heap, entries, depth + 1, old(budget.remaining), old(seen.ids), []);
              out == (if r.0.Some? then OMap(r.0.value) else UNSERIALIZABLE) && budget.remaining == r.1
      ensures seen.ids == old(seen.ids)
      decreases Room(config, depth + 1), entries, 4
    {
      hide LogPython.SanitizeKeyed, Put;
      var result := [];
      var i := 0;
      while i < |entries|
        invariant i <= |entries| && seen.ids == old(seen.ids)
        invariant SanitizeDict(config, heap, entries, depth + 1, old(budget.remaining), old(seen.ids), [])
               == SanitizeDict(config, heap, entries[i..], depth + 1, budget.remaining, seen.ids, result)
      {
        var rest := entries[i..];
        var e := entries[i];
        assert rest[0] == e && rest[1..] == entries[i + 1..];
        var ok := budget.Consume();
        if !ok { break; }
        if e.key.None? { return UNSERIALIZABLE; }
        assert e.value < e;
        var value := SanitizeKeyed(e.key.value, e.value, depth + 1, budget, seen);
        result := Put(result, e.key.value, value);
        i := i + 1;
      }
      return OMap(result);
    }

    method VisitSequence(items: seq<Value>, depth: nat, budget: Budget, seen: Seen) returns (out: Out)
      requires depth <= config.maxDepth
      modifies budget, seen
      ensures var r := SanitizeItems(config, heap, items, depth + 1, old(budget.remaining), old(seen.ids));
              out == OList(r.0) && budget.remaining == r.1
      ensures seen.ids == old(seen.ids)
      decreases Room(config, depth + 1), items, 2
    {
      hide LogPython.Sanitize;
      var result: seq<Out> := [];
      var i := 0;
      assert items[0..] == items;
      ghost var all := SanitizeItems(config, heap, items, depth + 1, budget.remaining, seen.ids).0;
      assert [] + all == all;
      while i < |items|
        invariant i <= |items| && seen.ids == old(seen.ids)
        invariant var rest := SanitizeItems(config, heap, items[i..], depth + 1, budget.remaining, seen.ids);
                  SanitizeItems(config, heap, items, depth + 1, old(budget.remaining), old(seen.ids)) == (result + rest.0, rest.1)
      {
        var rest := items[i..];
        assert rest[0] == items[i] && rest[1..] == items[i + 1..];
        var ok := budget.Consume();
        if !ok { break; }
        var value := Sanitize(items[i], depth + 1, budget, seen);
        ghost var after := SanitizeItems(config, heap, items[i + 1..], depth + 1, budget.remaining, seen.ids).0;
        assert result + ([value] + after) == result + [value] + after;
        result := result + [value];
        i := i + 1;
      }
      assert result + [] == result;
      return OList(result);
    }

    /** _record_fields, without the fixed header. */
    method RecordFields(reserved: string -> bool, fixed: seq<Entry>, own: seq<Entry>) returns (result: seq<OutEntry>)
      ensures result == LogPython.RecordFields(config, heap, reserved, fixed, own).0
    {
      hide LogPython.SanitizeKeyed, Put, Holds;
      var budget := new Budget(config.maxAttributes);
      result := [];
      var i := 0;
      while i < |fixed|
        invariant i <= |fixed| && fresh(budget)
        invariant FixedFields(config, heap, fixed, config.maxAttributes, [])
               == FixedFields(config, heap, fixed[i..], budget.remaining, result)
      {
        var rest := fixed[i..];
        assert rest[0] == fixed[i] && rest[1..] == fixed[i + 1..];
        var ok := budget.Consume();
        if !ok { break; }
        var seen := new Seen();
        var value := SanitizeKeyed(fixed[i].key, fixed[i].value, 1, budget, seen);
        result := Put(result, fixed[i].key, value);
        i := i + 1;
      }
      assert FixedFields(config, heap, fixed, config.maxAttributes, []) == (result, budget.remaining);
      ghost var first, left := result, budget.remaining;
      i := 0;
      while i < |own|
        invariant i <= |own| && fresh(budget)
        invariant OwnFields(config, heap, reserved, own, left, first)
               == OwnFields(config, heap, reserved, own[i..], budget.remaining, result)
      {
        var rest := own[i..];
        var e := own[i];
        assert rest[0] == e && rest[1..] == own[i + 1..];
        if !(reserved(e.key) || Holds(result, e.key)) {
          var ok := budget.Consume();
          if !ok { break; }
          var seen := new Seen();
          var value := SanitizeKeyed(e.key, e.value, 1, budget, seen);
          result := Put(result, e.key, value);
        }
        i := i + 1;
      }
    }
  }
}
