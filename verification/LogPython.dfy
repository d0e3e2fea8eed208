/** The Python formatter (sdk/python/logging/src/stellarmesh_logging/formatter.py) on the same values, and its
    agreement with the Go sanitizer. */
module LogPython {
  import opened Optional
  import opened Utf8
  import opened LogSanitizer
  import opened LogSafety
  import LogEquivalence

  /** A dict may hold keys that are not strings. */
  datatype DictEntry = DictEntry(key: Option<string>, value: Value)

  datatype Builtin = Dict(entries: seq<DictEntry>) | Sequence(items: seq<Value>)

  type Heap = map<Node, Builtin>

  // ----- _sanitize -----

  /** _sanitize: an Enum stands for its value, and a container met inside itself is not expanded again. */
  function Sanitize(c: Config, h: Heap, v: Value, depth: nat, budget: nat, seen: set<Node>): (r: (Out, nat))
    ensures r.1 <= budget
    decreases Room(c, depth), v, 1
  {
    if depth > c.maxDepth then (CUT_OFF, budget)
    else match v
      case Wrapped(inner) => Sanitize(c, h, inner, depth, budget, seen)
      case Text(text) => (Shorten(c, text), budget)
      case Binary(length) => (OBinary(length), budget)
      case Null => (ONull, budget)
      case Scalar(n) => (OScalar(n), budget)
      case Ref(node) =>
        if node !in h || node in seen then (UNSERIALIZABLE, budget)
        else (match h[node]
              case Dict(entries) =>
                var r := SanitizeDict(c, h, entries, depth + 1, budget, seen + {node}, []);
                (if r.0.Some? then OMap(r.0.value) else UNSERIALIZABLE, r.1)
              case Sequence(items) =>
                var r := SanitizeItems(c, h, items, depth + 1, budget, seen + {node});
                (OList(r.0), r.1))
      case _ => (UNSERIALIZABLE, budget)
  }

  function SanitizeKeyed(c: Config, h: Heap, key: string, v: Value, depth: nat, budget: nat, seen: set<Node>): (r: (Out, nat))
    ensures r.1 <= budget
    decreases Room(c, depth), v, 2
  {
    if c.sensitive(key) then (REDACTED, budget) else Sanitize(c, h, v, depth, budget, seen)
  }

  /** The loop over a dict: None for a dict given up at a key that is not a string. */
  function SanitizeDict(c: Config, h: Heap, entries: seq<DictEntry>, depth: nat, budget: nat, seen: set<Node>, result: seq<OutEntry>)
    : (r: (Option<seq<OutEntry>>, nat))
    ensures r.1 <= budget
    decreases Room(c, depth), entries, 3
  {
    if entries == [] || budget == 0 then (Some(result), budget)
    else if entries[0].key.None? then (None, budget - 1)
    else
      var e := entries[0];
      var key := e.key.value;
      assert e.value < e;
      var r := SanitizeKeyed(c, h, key, e.value, depth, budget - 1, seen);
      SanitizeDict(c, h, entries[1..], depth, r.1, seen, Put(result, key, r.0))
  }

  function SanitizeItems(c: Config, h: Heap, items: seq<Value>, depth: nat, budget: nat, seen: set<Node>): (r: (seq<Out>, nat))
    ensures r.1 <= budget
    decreases Room(c, depth), items, 0
  {
    if items == [] || budget == 0 then ([], budget)
    else
      var head := Sanitize(c, h, items[0], depth, budget - 1, seen);
      var rest := SanitizeItems(c, h, items[1..], depth, head.1, seen);
      ([head.0] + rest.0, rest.1)
  }

  // ----- results as lists of entries -----

  predicate Holds(entries: seq<OutEntry>, key: string) {
    exists i :: 0 <= i < |entries| && entries[i].key == key
  }

  lemma HoldsSplit(entries: seq<OutEntry>, k: string)
    requires entries != []
    ensures Holds(entries, k) <==> entries[0].key == k || Holds(entries[1..], k)
  {
    if Holds(entries, k) && entries[0].key != k {
      var i :| 0 <= i < |entries| && entries[i].key == k;
      assert entries[1..][i - 1].key == k;
    }
    if Holds(entries[1..], k) {
      var i :| 0 <= i < |entries[1..]| && entries[1..][i].key == k;
      assert entries[i + 1].key == k;
    }
  }

  lemma {:induction false} PutHolds(entries: seq<OutEntry>, key: string, value: Out, k: string)
    ensures Holds(Put(entries, key, value), k) <==> k == key || Holds(entries, k)
  {
    var all := Put(entries, key, value);
    if entries == [] {
      assert all[0].key == key;
    } else if entries[0].key == key {
      assert all[0].key == key && forall i :: 0 <= i < |entries| ==> all[i].key == entries[i].key;
      HoldsSplit(entries, k);
      HoldsSplit(all, k);
      assert all[1..] == entries[1..];
    } else {
      PutHolds(entries[1..], key, value, k);
      assert all[1..] == Put(entries[1..], key, value);
      HoldsSplit(entries, k);
      HoldsSplit(all, k);
    }
  }

  lemma {:induction false} PutNew(entries: seq<OutEntry>, key: string, value: Out)
    requires !Holds(entries, key)
    ensures Put(entries, key, value) == entries + [OutEntry(key, value)]
  {
    if entries != [] {
      HoldsSplit(entries, key);
      PutNew(entries[1..], key, value);
      assert entries == [entries[0]] + entries[1..];
    }
  }

  predicate Distinct(entries: seq<Entry>) {
    forall i, j :: 0 <= i < j < |entries| ==> entries[i].key != entries[j].key
  }

  /** The entries bring only keys the result does not hold yet. */
  predicate Fresh(entries: seq<Entry>, result: seq<OutEntry>) {
    Distinct(entries) && forall i :: 0 <= i < |entries| ==> !Holds(result, entries[i].key)
  }

  lemma FreshRest(entries: seq<Entry>, result: seq<OutEntry>, value: Out)
    requires entries != [] && Fresh(entries, result)
    ensures Put(result, entries[0].key, value) == result + [OutEntry(entries[0].key, value)]
    ensures Fresh(entries[1..], Put(result, entries[0].key, value)) && Fresh(entries[1..], result)
  {
    hide Holds, Put;
    var rest := entries[1..];
    assert forall i :: 0 <= i < |rest| ==> rest[i] == entries[i + 1];
    forall i | 0 <= i < |rest| ensures !Holds(Put(result, entries[0].key, value), rest[i].key) {
      PutHolds(result, entries[0].key, value, rest[i].key);
    }
    PutNew(result, entries[0].key, value);
  }

  /** Lists that differ at one place where both have an entry differ. */
  lemma PrefixesDiffer(a: seq<OutEntry>, b: seq<OutEntry>, start: seq<OutEntry>, x: OutEntry, y: OutEntry)
    requires start + [x] <= a && start + [y] <= b && x != y
    ensures a != b
  {
    assert a[|start|] == (start + [x])[|start|] == x && b[|start|] == (start + [y])[|start|] == y;
  }

  // ----- agreement with the Go sanitizer -----

  /** Values both languages have: no slog groups, no typed nil, text that is text. */
  predicate Common(v: Value) {
    match v
    case Text(text) => Valid(text)
    case NilContainer => false
    case Group(_) => false
    case Wrapped(inner) => Common(inner)
    case _ => true
  }

  predicate SameEntries(es: seq<Entry>, ds: seq<DictEntry>) {
    |es| == |ds| && forall i :: 0 <= i < |es| ==>
      ds[i] == DictEntry(Some(es[i].key), es[i].value) && Common(es[i].value)
  }

  predicate SameContainer(a: Container, b: Builtin) {
    match (a, b)
    case (Entries(es), Dict(ds)) => Distinct(es) && SameEntries(es, ds)
    case (Items(xs), Sequence(ys)) => xs == ys && forall i :: 0 <= i < |xs| ==> Common(xs[i])
    case _ => false
  }

  /** The same data in both languages, in the same order; maps and dicts hold each key once. */
  ghost predicate SameData(g: Graph, h: Heap) {
    g.Keys == h.Keys && forall n :: n in g ==> SameContainer(g[n], h[n])
  }

  /** The traversal meets a container it is still inside of, while depth and budget would let it in. */
  predicate Reenters(c: Config, h: Heap, v: Value, depth: nat, budget: nat, seen: set<Node>)
    decreases Room(c, depth), v, 1
  {
    depth <= c.maxDepth &&
    match v
    case Wrapped(inner) => Reenters(c, h, inner, depth, budget, seen)
    case Ref(node) =>
      node in h && (node in seen ||
        match h[node]
        case Dict(entries) => ReentersDict(c, h, entries, depth + 1, budget, seen + {node})
        case Sequence(items) => ReentersItems(c, h, items, depth + 1, budget, seen + {node}))
    case _ => false
  }

  predicate ReentersDict(c: Config, h: Heap, entries: seq<DictEntry>, depth: nat, budget: nat, seen: set<Node>)
    decreases Room(c, depth), entries, 3
  {
    entries != [] && budget > 0 && entries[0].key.Some? &&
    var e := entries[0];
    assert e.value < e;
    || (!c.sensitive(e.key.value) && Reenters(c, h, e.value, depth, budget - 1, seen))
    || ReentersDict(c, h, entries[1..], depth, SanitizeKeyed(c, h, e.key.value, e.value, depth, budget - 1, seen).1, seen)
  }

  predicate ReentersItems(c: Config, h: Heap, items: seq<Value>, depth: nat, budget: nat, seen: set<Node>)
    decreases Room(c, depth), items, 3
  {
    items != [] && budget > 0 &&
    (Reenters(c, h, items[0], depth, budget - 1, seen)
     || ReentersItems(c, h, items[1..], depth, Sanitize(c, h, items[0], depth, budget - 1, seen).1, seen))
  }

  lemma {:induction false} CleanEntriesKeep(c: Config, g: Graph, es: seq<Entry>, depth: nat, budget: nat, result: seq<OutEntry>)
    requires Fresh(es, result)
    ensures result <= CleanEntries(c, g, es, depth, budget, result).0
    decreases |es|
  {
    hide Clean, Put, Fresh;
    if es != [] && budget > 0 {
      var r := if c.sensitive(es[0].key) then (REDACTED, budget - 1) else Clean(c, g, es[0].value, depth, budget - 1);
      FreshRest(es, result, r.0);
      CleanEntriesKeep(c, g, es[1..], depth, r.1, Put(result, es[0].key, r.0));
    }
  }

  lemma {:induction false} DictKeeps(c: Config, h: Heap, es: seq<Entry>, ds: seq<DictEntry>, depth: nat, budget: nat, seen: set<Node>,
                                     result: seq<OutEntry>)
    requires SameEntries(es, ds) && Fresh(es, result)
    ensures var r := SanitizeDict(c, h, ds, depth, budget, seen, result).0;
            r.Some? && result <= r.value
    decreases |es|
  {
    hide SanitizeKeyed, Put, Fresh, Common;
    if es != [] && budget > 0 {
      assert SameEntries(es[1..], ds[1..]);
      assert ds[0] == DictEntry(Some(es[0].key), es[0].value);
      var r := SanitizeKeyed(c, h, es[0].key, es[0].value, depth, budget - 1, seen);
      FreshRest(es, result, r.0);
      DictKeeps(c, h, es[1..], ds[1..], depth, r.1, seen, Put(result, es[0].key, r.0));
    }
  }

  /** On any data, cyclic or not, at every depth and budget: the two sanitizers give the same value and leave the
      same budget, or the Python traversal reenters a container, and then the values differ. */
  lemma {:induction false} AgreesUnlessReenters(c: Config, g: Graph, h: Heap, v: Value, depth: nat, budget: nat, seen: set<Node>)
    requires SameData(g, h) && Common(v)
    ensures Reenters(c, h, v, depth, budget, seen) ==>
              Sanitize(c, h, v, depth, budget, seen).0 != Clean(c, g, v, depth, budget).0
    ensures !Reenters(c, h, v, depth, budget, seen) ==>
              Sanitize(c, h, v, depth, budget, seen) == Clean(c, g, v, depth, budget)
    decreases Room(c, depth), v, 1
  {
    hide CleanEntries, CleanItems, SanitizeDict, SanitizeItems, FieldsObject, AddAll, ReentersDict, ReentersItems;
    if depth <= c.maxDepth {
      match v {
        case Wrapped(inner) => AgreesUnlessReenters(c, g, h, inner, depth, budget, seen);
        case Ref(node) =>
          if node in g && node !in seen {
            assert SameContainer(g[node], h[node]);
            match g[node] {
              case Entries(es) => EntriesAgree(c, g, h, es, h[node].entries, depth + 1, budget, seen + {node}, []);
              case Items(xs) => ItemsAgree(c, g, h, xs, depth + 1, budget, seen + {node});
            }
          } else if node in g {
            assert SameContainer(g[node], h[node]);
          }
        case _ =>
      }
    }
  }

  lemma {:induction false} EntriesAgree(c: Config, g: Graph, h: Heap, es: seq<Entry>, ds: seq<DictEntry>,
                                        depth: nat, budget: nat, seen: set<Node>, result: seq<OutEntry>)
    requires SameData(g, h) && SameEntries(es, ds) && Fresh(es, result)
    ensures var go, py := CleanEntries(c, g, es, depth, budget, result), SanitizeDict(c, h, ds, depth, budget, seen, result);
            && py.0.Some?
            && (ReentersDict(c, h, ds, depth, budget, seen) ==> py.0.value != go.0)
            && (!ReentersDict(c, h, ds, depth, budget, seen) ==> py == (Some(go.0), go.1))
    decreases Room(c, depth), es, 0
  {
    hide Clean, Sanitize, Put, SameData, Fresh, Common, Reenters;
    if es != [] && budget > 0 {
      assert SameEntries(es[1..], ds[1..]);
      assert ds[0] == DictEntry(Some(es[0].key), es[0].value);
      var key, v := es[0].key, es[0].value;
      var go := if c.sensitive(key) then (REDACTED, budget - 1) else Clean(c, g, v, depth, budget - 1);
      var py := SanitizeKeyed(c, h, key, v, depth, budget - 1, seen);
      if !c.sensitive(key) { AgreesUnlessReenters(c, g, h, v, depth, budget - 1, seen); }
      FreshRest(es, result, go.0);
      FreshRest(es, result, py.0);
      if py == go {
        EntriesAgree(c, g, h, es[1..], ds[1..], depth, go.1, seen, Put(result, key, go.0));
      } else {
        CleanEntriesKeep(c, g, es[1..], depth, go.1, Put(result, key, go.0));
        DictKeeps(c, h, es[1..], ds[1..], depth, py.1, seen, Put(result, key, py.0));
        PrefixesDiffer(SanitizeDict(c, h, ds, depth, budget, seen, result).0.value, CleanEntries(c, g, es, depth, budget, result).0,
                       result, OutEntry(key, py.0), OutEntry(key, go.0));
      }
    }
  }

  lemma {:induction false} ItemsAgree(c: Config, g: Graph, h: Heap, items: seq<Value>, depth: nat, budget: nat, seen: set<Node>)
    requires SameData(g, h) && forall i :: 0 <= i < |items| ==> Common(items[i])
    ensures var go, py := CleanItems(c, g, items, depth, budget), SanitizeItems(c, h, items, depth, budget, seen);
            && (ReentersItems(c, h, items, depth, budget, seen) ==> py.0 != go.0)
            && (!ReentersItems(c, h, items, depth, budget, seen) ==> py == go)
    decreases Room(c, depth), items, 0
  {
    hide Clean, Sanitize, SameData, Common, Reenters;
    if items != [] && budget > 0 {
      AgreesUnlessReenters(c, g, h, items[0], depth, budget - 1, seen);
      var go, py := Clean(c, g, items[0], depth, budget - 1), Sanitize(c, h, items[0], depth, budget - 1, seen);
      assert CleanItems(c, g, items, depth, budget).0[0] == go.0;
      assert SanitizeItems(c, h, items, depth, budget, seen).0[0] == py.0;
      if py == go {
        ItemsAgree(c, g, h, items[1..], depth, go.1, seen);
        assert CleanItems(c, g, items, depth, budget).0[1..] == CleanItems(c, g, items[1..], depth, go.1).0;
        assert SanitizeItems(c, h, items, depth, budget, seen).0[1..] == SanitizeItems(c, h, items[1..], depth, go.1, seen).0;
      }
    }
  }

  // ----- acyclic data -----

  /** What a value refers to lies below the given rank. */
  predicate Below(v: Value, rank: Node -> nat, bound: nat) {
    match v
    case Ref(node) => rank(node) < bound
    case Wrapped(inner) => Below(inner, rank, bound)
    case _ => true
  }

  predicate ContainerBelow(a: Builtin, rank: Node -> nat, bound: nat) {
    match a
    case Dict(entries) => forall i :: 0 <= i < |entries| ==> Below(entries[i].value, rank, bound)
    case Sequence(items) => forall i :: 0 <= i < |items| ==> Below(items[i], rank, bound)
  }

  /** No container is reachable from itself: each refers only to containers of lower rank. */
  ghost predicate Acyclic(h: Heap, rank: Node -> nat) {
    forall n :: n in h ==> ContainerBelow(h[n], rank, rank(n))
  }

  predicate Above(seen: set<Node>, rank: Node -> nat, bound: nat) {
    forall n :: n in seen ==> rank(n) >= bound
  }

  lemma {:induction false} AcyclicNeverReenters(c: Config, h: Heap, rank: Node -> nat, bound: nat, v: Value, depth: nat, budget: nat,
                                                seen: set<Node>)
    requires Acyclic(h, rank) && Below(v, rank, bound) && Above(seen, rank, bound)
    ensures !Reenters(c, h, v, depth, budget, seen)
    decreases Room(c, depth), v, 1
  {
    hide ReentersDict, ReentersItems;
    if depth <= c.maxDepth {
      match v {
        case Wrapped(inner) => AcyclicNeverReenters(c, h, rank, bound, inner, depth, budget, seen);
        case Ref(node) =>
          if node in h {
            assert ContainerBelow(h[node], rank, rank(node));
            assert Above(seen + {node}, rank, rank(node));
            match h[node] {
              case Dict(entries) => AcyclicDict(c, h, rank, rank(node), entries, depth + 1, budget, seen + {node});
              case Sequence(items) => AcyclicItems(c, h, rank, rank(node), items, depth + 1, budget, seen + {node});
            }
          }
        case _ =>
      }
    }
  }

  lemma {:induction false} AcyclicDict(c: Config, h: Heap, rank: Node -> nat, bound: nat, entries: seq<DictEntry>, depth: nat, budget: nat,
                                       seen: set<Node>)
    requires Acyclic(h, rank) && Above(seen, rank, bound)
    requires forall i :: 0 <= i < |entries| ==> Below(entries[i].value, rank, bound)
    ensures !ReentersDict(c, h, entries, depth, budget, seen)
    decreases Room(c, depth), entries, 3
  {
    hide Acyclic, Above, Below, Reenters, SanitizeKeyed;
    if entries != [] && budget > 0 && entries[0].key.Some? {
      var e := entries[0];
      assert e.value < e;
      AcyclicNeverReenters(c, h, rank, bound, e.value, depth, budget - 1, seen);
      AcyclicDict(c, h, rank, bound, entries[1..], depth, SanitizeKeyed(c, h, e.key.value, e.value, depth, budget - 1, seen).1, seen);
    }
  }

  lemma {:induction false} AcyclicItems(c: Config, h: Heap, rank: Node -> nat, bound: nat, items: seq<Value>, depth: nat, budget: nat,
                                        seen: set<Node>)
    requires Acyclic(h, rank) && Above(seen, rank, bound) && forall i :: 0 <= i < |items| ==> Below(items[i], rank, bound)
    ensures !ReentersItems(c, h, items, depth, budget, seen)
    decreases Room(c, depth), items, 3
  {
    hide Acyclic, Above, Below, Reenters, Sanitize;
    if items != [] && budget > 0 {
      AcyclicNeverReenters(c, h, rank, bound, items[0], depth, budget - 1, seen);
      AcyclicItems(c, h, rank, bound, items[1..], depth, Sanitize(c, h, items[0], depth, budget - 1, seen).1, seen);
    }
  }

  function Top(v: Value, rank: Node -> nat): nat {
    match v
    case Ref(node) => rank(node) + 1
    case Wrapped(inner) => Top(inner, rank)
    case _ => 0
  }

  lemma {:induction false} BelowTop(v: Value, rank: Node -> nat)
    ensures Below(v, rank, Top(v, rank))
  {
    if v.Wrapped? { BelowTop(v.inner, rank); }
  }

  /** On acyclic data the two sanitizers give the same value and leave the same budget, at every depth. */
  lemma {:induction false} CleanAgrees(c: Config, g: Graph, h: Heap, rank: Node -> nat, v: Value, depth: nat, budget: nat)
    requires SameData(g, h) && Acyclic(h, rank) && Common(v)
    ensures Sanitize(c, h, v, depth, budget, {}) == Clean(c, g, v, depth, budget)
  {
    BelowTop(v, rank);
    AcyclicNeverReenters(c, h, rank, Top(v, rank), v, depth, budget, {});
    AgreesUnlessReenters(c, g, h, v, depth, budget, {});
  }

  /** A list inside itself: the two agree if and only if the depth bound or the budget stops both first. */
  lemma CyclesDiffer(c: Config, g: Graph, h: Heap, depth: nat, budget: nat)
    requires g == map[0 := Items([Ref(0)])] && h == map[0 := Sequence([Ref(0)])]
    ensures Sanitize(c, h, Ref(0), depth, budget, {}) == Clean(c, g, Ref(0), depth, budget)
        <==> depth >= c.maxDepth || budget == 0
  {
    hide Sanitize, Clean;
    AgreesUnlessReenters(c, g, h, Ref(0), depth, budget, {});
    assert [Ref(0)][1..] == [];
    var inside: set<Node> := {} + {0};
    assert ReentersItems(c, h, [Ref(0)], depth + 1, budget, inside)
      <==> budget > 0 && Reenters(c, h, Ref(0), depth + 1, budget - 1, inside);
  }

  // ----- whole records -----

  /** _record_fields: the fixed fields, then the record's own that are neither reserved nor already present. */
  function FixedFields(c: Config, h: Heap, fields: seq<Entry>, budget: nat, result: seq<OutEntry>): (r: (seq<OutEntry>, nat))
    ensures r.1 <= budget
    decreases |fields|
  {
    if fields == [] || budget == 0 then (result, budget)
    else
      var r := SanitizeKeyed(c, h, fields[0].key, fields[0].value, 1, budget - 1, {});
      FixedFields(c, h, fields[1..], r.1, Put(result, fields[0].key, r.0))
  }

  function OwnFields(c: Config, h: Heap, reserved: string -> bool, fields: seq<Entry>, budget: nat, result: seq<OutEntry>)
    : (r: (seq<OutEntry>, nat))
    ensures r.1 <= budget
    decreases |fields|
  {
    if fields == [] then (result, budget)
    else if reserved(fields[0].key) || Holds(result, fields[0].key) then OwnFields(c, h, reserved, fields[1..], budget, result)
    else if budget == 0 then (result, budget)
    else
      var r := SanitizeKeyed(c, h, fields[0].key, fields[0].value, 1, budget - 1, {});
      OwnFields(c, h, reserved, fields[1..], r.1, Put(result, fields[0].key, r.0))
  }

  function RecordFields(c: Config, h: Heap, reserved: string -> bool, fixed: seq<Entry>, own: seq<Entry>): (seq<OutEntry>, nat) {
    var r := FixedFields(c, h, fixed, c.maxAttributes, []);
    OwnFields(c, h, reserved, own, r.1, r.0)
  }

  // ----- records in the two languages -----

  function Attrs(entries: seq<Entry>): (attrs: seq<Attr>)
    ensures |attrs| == |entries|
    ensures forall i :: 0 <= i < |attrs| ==> attrs[i] == Attr(entries[i].key, entries[i].value)
  {
    seq(|entries|, i requires 0 <= i < |entries| => Attr(entries[i].key, entries[i].value))
  }

  lemma {:induction false} CleanResolved(c: Config, g: Graph, v: Value, depth: nat, budget: nat)
    ensures Clean(c, g, Resolve(v), depth, budget) == Clean(c, g, v, depth, budget)
  {
    hide CleanEntries, CleanItems, AddAll, FieldsObject;
    if v.Wrapped? { CleanResolved(c, g, v.inner, depth, budget); }
  }

  lemma {:induction false} CommonResolved(v: Value)
    requires Common(v)
    ensures !Resolve(v).Group?
  {
    if v.Wrapped? { CommonResolved(v.inner); }
  }

  lemma {:induction false} ObjectAppend(fields: seq<Field>, key: string, value: Out, result: seq<OutEntry>)
    ensures FieldsObject(fields + [Leaf(key, value)], result) == Put(FieldsObject(fields, result), key, value)
    decreases |fields|
  {
    var all := fields + [Leaf(key, value)];
    if fields == [] {
      assert all[0] == Leaf(key, value) && all[1..] == [];
      assert FieldsObject([], Put(result, key, value)) == Put(result, key, value);
    } else {
      var v := match fields[0]
        case Leaf(_, v) => v
        case GroupField(_, Some(marker), _) => marker
        case GroupField(_, None, children) => OMap(FieldsObject(children, []));
      assert all[0] == fields[0] && all[1..] == fields[1..] + [Leaf(key, value)];
      ObjectAppend(fields[1..], key, value, Put(result, fields[0].key, v));
    }
  }

  /** What slog drops before it is looked at. */
  predicate Zero(e: Entry) { e.key == "" && e.value == Null }

  /** The Go record of plain fields, as a list of entries. */
  function GoFields(c: Config, g: Graph, fields: seq<Entry>, budget: nat, result: seq<OutEntry>): (r: (seq<OutEntry>, nat))
    ensures r.1 <= budget
    decreases |fields|
  {
    if fields == [] || budget == 0 then (result, budget)
    else
      var e := fields[0];
      if Zero(e) then GoFields(c, g, fields[1..], budget, result)
      else if c.sensitive(e.key) then GoFields(c, g, fields[1..], budget - 1, Put(result, e.key, REDACTED))
      else
        var r := Clean(c, g, e.value, 1, budget - 1);
        GoFields(c, g, fields[1..], r.1, Put(result, e.key, r.0))
  }

  predicate AllCommon(fields: seq<Entry>) {
    forall i :: 0 <= i < |fields| ==> Common(fields[i].value)
  }

  lemma FieldAdded(c: Config, g: Graph, fields: seq<Field>, e: Entry, budget: nat)
    requires ProperConfig(c) && Common(e.value) && budget > 0
    ensures var r := if c.sensitive(e.key) then (REDACTED, budget - 1) else Clean(c, g, e.value, 1, budget - 1);
            var expected := if Zero(e) then (fields, budget) else (fields + [Leaf(e.key, r.0)], r.1);
            AddUnder(c, g, fields, [], Attr(e.key, e.value), 1, budget) == expected
  {
    hide Clean, Common, Resolve;
    var a := Attr(e.key, e.value);
    if Zero(e) {
    } else if c.sensitive(e.key) {
      LogEquivalence.AddMarked(c, g, fields, a, 1, budget);
    } else {
      CommonResolved(e.value);
      LogEquivalence.AddLeaf(c, g, fields, a, 1, budget);
      CleanResolved(c, g, e.value, 1, budget - 1);
    }
  }

  lemma {:induction false} GoFieldsAreGo(c: Config, g: Graph, fields: seq<Field>, entries: seq<Entry>, budget: nat)
    requires ProperConfig(c) && AllCommon(entries)
    ensures var go := AddScoped(c, g, fields, Under([], Attrs(entries)), budget);
            GoFields(c, g, entries, budget, FieldsObject(fields, [])) == (FieldsObject(go.0, []), go.1)
    decreases |entries|
  {
    hide Clean, AddUnder, FieldsObject, Put, Common;
    if entries != [] && budget > 0 {
      var e := entries[0];
      var scoped := Under([], Attrs(entries));
      assert scoped[0] == Scoped([], Attr(e.key, e.value)) && scoped[1..] == Under([], Attrs(entries[1..]));
      FieldAdded(c, g, fields, e, budget);
      if Zero(e) {
        GoFieldsAreGo(c, g, fields, entries[1..], budget);
      } else {
        var r := if c.sensitive(e.key) then (REDACTED, budget - 1) else Clean(c, g, e.value, 1, budget - 1);
        ObjectAppend(fields, e.key, r.0, []);
        GoFieldsAreGo(c, g, fields + [Leaf(e.key, r.0)], entries[1..], r.1);
      }
    }
  }

  lemma {:induction false} GoFieldsKeep(c: Config, g: Graph, fields: seq<Entry>, budget: nat, result: seq<OutEntry>, k: string)
    requires Fresh(fields, result)
    ensures var r := GoFields(c, g, fields, budget, result).0;
            && result <= r
            && (!Holds(result, k) && (forall i :: 0 <= i < |fields| ==> fields[i].key != k) ==> !Holds(r, k))
    decreases |fields|
  {
    hide Clean, Put, Holds, Fresh;
    if fields != [] && budget > 0 {
      var e := fields[0];
      var r := if c.sensitive(e.key) then (REDACTED, budget - 1) else Clean(c, g, e.value, 1, budget - 1);
      FreshRest(fields, result, r.0);
      if Zero(e) {
        GoFieldsKeep(c, g, fields[1..], budget, result, k);
      } else {
        PutHolds(result, e.key, r.0, k);
        GoFieldsKeep(c, g, fields[1..], r.1, Put(result, e.key, r.0), k);
      }
    }
  }

  lemma {:induction false} FixedKeep(c: Config, h: Heap, fields: seq<Entry>, budget: nat, result: seq<OutEntry>)
    requires Fresh(fields, result)
    ensures result <= FixedFields(c, h, fields, budget, result).0
    decreases |fields|
  {
    hide SanitizeKeyed, Put, Fresh;
    if fields != [] && budget > 0 {
      var r := SanitizeKeyed(c, h, fields[0].key, fields[0].value, 1, budget - 1, {});
      FreshRest(fields, result, r.0);
      FixedKeep(c, h, fields[1..], r.1, Put(result, fields[0].key, r.0));
    }
  }

  /** Within the budget a field is met that slog drops, or one whose value reenters a container. */
  predicate Departs(c: Config, h: Heap, fields: seq<Entry>, budget: nat)
    decreases |fields|
  {
    fields != [] && budget > 0 &&
    var e := fields[0];
    || Zero(e)
    || (!c.sensitive(e.key) && Reenters(c, h, e.value, 1, budget - 1, {}))
    || Departs(c, h, fields[1..], SanitizeKeyed(c, h, e.key, e.value, 1, budget - 1, {}).1)
  }

  lemma FreshHead(fields: seq<Entry>, result: seq<OutEntry>)
    requires Fresh(fields, result) && fields != []
    ensures !Holds(result, fields[0].key) && forall i :: 0 <= i < |fields[1..]| ==> fields[1..][i].key != fields[0].key
  {
  }

  lemma ZeroDeparts(c: Config, g: Graph, h: Heap, fields: seq<Entry>, budget: nat, result: seq<OutEntry>)
    requires ProperConfig(c) && Fresh(fields, result) && fields != [] && budget > 0 && Zero(fields[0])
    ensures FixedFields(c, h, fields, budget, result).0 != GoFields(c, g, fields, budget, result).0
  {
    hide SanitizeKeyed, Put, Fresh, Clean;
    var rest := fields[1..];
    var r := SanitizeKeyed(c, h, "", Null, 1, budget - 1, {});
    var py := FixedFields(c, h, fields, budget, result).0;
    FreshRest(fields, result, r.0);
    FixedKeep(c, h, rest, r.1, Put(result, "", r.0));
    assert py[|result|] == (result + [OutEntry("", r.0)])[|result|];
    assert Holds(py, "");
    FreshHead(fields, result);
    GoFieldsKeep(c, g, rest, budget, result, "");
  }

  lemma {:induction false} FieldsAgreeUnlessDeparts(c: Config, g: Graph, h: Heap, fields: seq<Entry>, budget: nat, result: seq<OutEntry>)
    requires ProperConfig(c) && SameData(g, h) && AllCommon(fields) && Fresh(fields, result)
    ensures Departs(c, h, fields, budget) ==> FixedFields(c, h, fields, budget, result).0 != GoFields(c, g, fields, budget, result).0
    ensures !Departs(c, h, fields, budget) ==> FixedFields(c, h, fields, budget, result) == GoFields(c, g, fields, budget, result)
    decreases |fields|
  {
    hide Clean, Sanitize, Put, SameData, Fresh, Common, Reenters;
    if fields != [] && budget > 0 {
      var e, rest := fields[0], fields[1..];
      if Zero(e) {
        ZeroDeparts(c, g, h, fields, budget, result);
      } else {
        var go := if c.sensitive(e.key) then (REDACTED, budget - 1) else Clean(c, g, e.value, 1, budget - 1);
        var py := SanitizeKeyed(c, h, e.key, e.value, 1, budget - 1, {});
        if !c.sensitive(e.key) { AgreesUnlessReenters(c, g, h, e.value, 1, budget - 1, {}); }
        FreshRest(fields, result, go.0);
        FreshRest(fields, result, py.0);
        if py == go {
          FieldsAgreeUnlessDeparts(c, g, h, rest, go.1, Put(result, e.key, go.0));
        } else {
          FixedKeep(c, h, rest, py.1, Put(result, e.key, py.0));
          GoFieldsKeep(c, g, rest, go.1, Put(result, e.key, go.0), e.key);
          PrefixesDiffer(FixedFields(c, h, fields, budget, result).0, GoFields(c, g, fields, budget, result).0,
                         result, OutEntry(e.key, py.0), OutEntry(e.key, go.0));
        }
      }
    }
  }

  /** Keys of a record that are neither reserved nor taken are handled like fixed ones. */
  lemma {:induction false} OwnIsFixed(c: Config, h: Heap, reserved: string -> bool, fields: seq<Entry>, budget: nat, result: seq<OutEntry>)
    requires Distinct(fields) && forall i :: 0 <= i < |fields| ==> !reserved(fields[i].key) && !Holds(result, fields[i].key)
    ensures OwnFields(c, h, reserved, fields, budget, result) == FixedFields(c, h, fields, budget, result)
    decreases |fields|
  {
    hide SanitizeKeyed, Put, Holds;
    if fields != [] && budget > 0 {
      var key := fields[0].key;
      var r := SanitizeKeyed(c, h, key, fields[0].value, 1, budget - 1, {});
      var rest := fields[1..];
      forall i | 0 <= i < |rest| ensures !Holds(Put(result, key, r.0), rest[i].key) {
        PutHolds(result, key, r.0, rest[i].key);
        assert fields[i + 1] == rest[i];
      }
      assert Distinct(rest) by {
        assert forall i :: 0 <= i < |rest| ==> rest[i] == fields[i + 1];
      }
      OwnIsFixed(c, h, reserved, rest, r.1, Put(result, key, r.0));
    }
  }

  lemma {:induction false} FixedHolds(c: Config, h: Heap, fields: seq<Entry>, budget: nat, result: seq<OutEntry>, k: string)
    requires !Holds(result, k) && forall i :: 0 <= i < |fields| ==> fields[i].key != k
    ensures !Holds(FixedFields(c, h, fields, budget, result).0, k)
    decreases |fields|
  {
    hide SanitizeKeyed, Put, Holds;
    if fields != [] && budget > 0 {
      var r := SanitizeKeyed(c, h, fields[0].key, fields[0].value, 1, budget - 1, {});
      PutHolds(result, fields[0].key, r.0, k);
      FixedHolds(c, h, fields[1..], r.1, Put(result, fields[0].key, r.0), k);
    }
  }

  lemma {:induction false} FixedConcat(c: Config, h: Heap, a: seq<Entry>, b: seq<Entry>, budget: nat, result: seq<OutEntry>)
    ensures var r := FixedFields(c, h, a, budget, result);
            FixedFields(c, h, a + b, budget, result) == FixedFields(c, h, b, r.1, r.0)
    decreases |a|
  {
    hide SanitizeKeyed, Put;
    if a == [] {
      assert a + b == b;
    } else if budget > 0 {
      assert (a + b)[0] == a[0] && (a + b)[1..] == a[1..] + b;
      var r := SanitizeKeyed(c, h, a[0].key, a[0].value, 1, budget - 1, {});
      FixedConcat(c, h, a[1..], b, r.1, Put(result, a[0].key, r.0));
    }
  }

  lemma PythonRecord(c: Config, h: Heap, reserved: string -> bool, fixed: seq<Entry>, own: seq<Entry>)
    requires Distinct(fixed + own) && forall i :: 0 <= i < |own| ==> !reserved(own[i].key)
    ensures RecordFields(c, h, reserved, fixed, own) == FixedFields(c, h, fixed + own, c.maxAttributes, [])
  {
    assert forall k :: !Holds([], k);
    hide FixedFields, OwnFields, Holds;
    var py := FixedFields(c, h, fixed, c.maxAttributes, []);
    var all := fixed + own;
    assert forall i :: 0 <= i < |fixed| ==> all[i] == fixed[i];
    assert forall i :: 0 <= i < |own| ==> all[|fixed| + i] == own[i];
    forall i | 0 <= i < |own| ensures !Holds(py.0, own[i].key) {
      FixedHolds(c, h, fixed, c.maxAttributes, [], own[i].key);
    }
    OwnIsFixed(c, h, reserved, own, py.1, py.0);
    FixedConcat(c, h, fixed, own, c.maxAttributes, []);
  }

  lemma GoRecord(c: Config, g: Graph, fixed: seq<Entry>, own: seq<Entry>)
    requires ProperConfig(c) && AllCommon(fixed + own)
    ensures var go := Record(c, g, Under([], Attrs(fixed)), [], [], Attrs(own));
            (FieldsObject(go.0, []), go.1) == GoFields(c, g, fixed + own, c.maxAttributes, [])
  {
    assert FieldsObject([], []) == [];
    hide AddScoped, GoFields, FieldsObject, AllCommon;
    assert Under([], Attrs(fixed)) + Under([], []) + Under([], Attrs(own)) == Under([], Attrs(fixed + own));
    GoFieldsAreGo(c, g, [], fixed + own, c.maxAttributes);
  }

  /** Records of plain fields, with cyclic values or without: the Python record and the Go record are the same and
      leave the same budget if and only if within the budget no field reenters a container and none is the empty
      attribute slog drops. */
  lemma {:induction false} RecordsAgree(c: Config, g: Graph, h: Heap, reserved: string -> bool, fixed: seq<Entry>, own: seq<Entry>)
    requires ProperConfig(c) && SameData(g, h) && AllCommon(fixed + own) && Distinct(fixed + own)
    requires forall i :: 0 <= i < |own| ==> !reserved(own[i].key)
    ensures var go := Record(c, g, Under([], Attrs(fixed)), [], [], Attrs(own));
            (RecordFields(c, h, reserved, fixed, own) == (FieldsObject(go.0, []), go.1)
             <==> !Departs(c, h, fixed + own, c.maxAttributes))
  {
    assert Fresh(fixed + own, []);
    hide SameData, AllCommon, Record, RecordFields, FixedFields, GoFields, FieldsObject, Under, Departs, Fresh, Attrs;
    PythonRecord(c, h, reserved, fixed, own);
    GoRecord(c, g, fixed, own);
    FieldsAgreeUnlessDeparts(c, g, h, fixed + own, c.maxAttributes, []);
  }
}
