/** What the sanitizers keep: data within the limits comes out as it went in, key by key and value by value, and
    of it only the secrets are replaced. */
module LogFidelity {
  import opened Octets
  import opened Optional
  import opened Utf8
  import opened LogSanitizer
  import opened LogSafety
  import opened LogPython

  // ----- text -----

  /** The first n bytes are the longest valid prefix that leaves room for the marker. */
  predicate Longest(text: Bytes, limit: nat, n: nat) {
    && limit - 14 <= n <= limit - 11 <= |text| && Valid(text[..n])
    && forall j :: n < j <= limit - 11 ==> !Valid(text[..j])
  }

  lemma CutIsLongest(text: Bytes, limit: nat)
    requires limit >= |TRUNCATED| && Valid(text) && |text| > limit
    ensures exists n: nat :: Longest(text, limit, n) && Truncate(text, limit) == text[..n] + TRUNCATED
  {
    TruncateBounds(text, limit);
    hide Truncate, Valid;
    var n: nat :| limit - |TRUNCATED| - 3 <= n <= limit - |TRUNCATED| && Valid(text[..n])
                  && Truncate(text, limit) == text[..n] + TRUNCATED
                  && forall j :: n < j <= limit - |TRUNCATED| ==> !Valid(text[..j]);
    assert Longest(text, limit, n);
  }

  /** Valid text of at most maxStringBytes bytes is emitted unchanged; longer text as the longest valid prefix that
      leaves room for the marker, and the marker. In both languages. */
  lemma TextIsKept(c: Config, g: Graph, h: Heap, text: Bytes, depth: nat, budget: nat, seen: set<Node>)
    requires c.maxStringBytes >= |TRUNCATED| && depth <= c.maxDepth && Valid(text)
    ensures Sanitize(c, h, Text(text), depth, budget, seen) == Clean(c, g, Text(text), depth, budget)
    ensures |text| <= c.maxStringBytes ==> Clean(c, g, Text(text), depth, budget) == (OText(text), budget)
    ensures |text| > c.maxStringBytes ==>
              exists n: nat :: Longest(text, c.maxStringBytes, n)
                          && Clean(c, g, Text(text), depth, budget) == (OText(text[..n] + TRUNCATED), budget)
  {
    if |text| > c.maxStringBytes {
      CutIsLongest(text, c.maxStringBytes);
    } else {
      TruncateBounds(text, c.maxStringBytes);
    }
    hide Truncate, Valid, Longest;
    if |text| > c.maxStringBytes {
      var n: nat :| Longest(text, c.maxStringBytes, n) && Truncate(text, c.maxStringBytes) == text[..n] + TRUNCATED;
      assert Clean(c, g, Text(text), depth, budget) == (OText(text[..n] + TRUNCATED), budget);
    }
  }

  // ----- what shows a value -----

  /** Unchanged up to the limit, cut to the longest prefix beyond it. */
  ghost predicate ShowsText(c: Config, text: Bytes, o: Out) {
    && o.OText?
    && (|text| <= c.maxStringBytes ==> o.text == text)
    && (|text| > c.maxStringBytes ==> exists n: nat :: Longest(text, c.maxStringBytes, n) && o.text == text[..n] + TRUNCATED)
  }

  /** The output is the same tree: every key and every value in its place, text repaired and cut where it must be, a
      marker for what has no form, and [REDACTED] under sensitive keys. */
  ghost predicate Shows(c: Config, g: Graph, v: Value, o: Out)
    decreases o, v
  {
    match v
    case Null => o == ONull
    case Scalar(n) => o == OScalar(n)
    case NotFinite => o == UNSERIALIZABLE
    case Text(text) => ShowsText(c, ToValid(text, false), o)
    case Binary(length) => o == OBinary(length)
    case Unsupported => o == UNSERIALIZABLE
    case NilContainer => o == ONull
    case Wrapped(inner) => Shows(c, g, inner, o)
    case Ref(node) =>
      node in g &&
      (match g[node]
       case Entries(es) =>
         o.OMap? && |o.entries| == |es|
         && forall i :: 0 <= i < |es| ==>
              var e := o.entries[i];
              e.key == es[i].key && if c.sensitive(e.key) then e.value == REDACTED else Shows(c, g, es[i].value, e.value)
       case Items(xs) =>
         o.OList? && |o.items| == |xs| && forall i :: 0 <= i < |xs| ==> Shows(c, g, xs[i], o.items[i]))
    case Group(attrs) =>
      o.OMap? && |o.entries| == |attrs|
      && forall i :: 0 <= i < |attrs| ==>
           var e := o.entries[i];
           e.key == attrs[i].key && if c.sensitive(e.key) then e.value == REDACTED else Shows(c, g, attrs[i].value, e.value)
  }

  ghost predicate ShowsAs(c: Config, g: Graph, key: string, v: Value, o: Out) {
    if c.sensitive(key) then o == REDACTED else Shows(c, g, v, o)
  }

  /** Attributes that make an object without merging: named, all differently, and no group empty. */
  predicate Named(attrs: seq<Attr>) {
    && (forall i :: 0 <= i < |attrs| ==> attrs[i].key != "" && Resolve(attrs[i].value) != Group([]))
    && (forall i, j :: 0 <= i < j < |attrs| ==> attrs[i].key != attrs[j].key)
  }

  /** Data within the depth limit, every map with each key once. What lies under sensitive keys does not matter. */
  predicate Plain(c: Config, g: Graph, v: Value, depth: nat)
    decreases Room(c, depth), v
  {
    depth <= c.maxDepth &&
    match v
    case Wrapped(inner) => Plain(c, g, inner, depth)
    case Ref(node) =>
      node in g &&
      (match g[node]
       case Entries(es) =>
         Distinct(es) && forall i :: 0 <= i < |es| ==> c.sensitive(es[i].key) || Plain(c, g, es[i].value, depth + 1)
       case Items(xs) => forall i :: 0 <= i < |xs| ==> Plain(c, g, xs[i], depth + 1))
    case Group(attrs) =>
      Named(attrs) && forall i :: 0 <= i < |attrs| ==> c.sensitive(attrs[i].key) || Plain(c, g, attrs[i].value, depth + 1)
    case _ => true
  }

  /** The nodes it takes to show a value. */
  function Weight(c: Config, g: Graph, v: Value, depth: nat): nat
    decreases Room(c, depth), v, 0
  {
    if depth > c.maxDepth then 0
    else match v
      case Wrapped(inner) => Weight(c, g, inner, depth)
      case Ref(node) =>
        if node !in g then 0
        else (match g[node]
              case Entries(es) => EntriesWeight(c, g, es, depth + 1)
              case Items(xs) => ItemsWeight(c, g, xs, depth + 1))
      case Group(attrs) => AttrsWeight(c, g, attrs, depth + 1)
      case _ => 0
  }

  function EntriesWeight(c: Config, g: Graph, es: seq<Entry>, depth: nat): nat
    decreases Room(c, depth), es, 0
  {
    if es == [] then 0
    else 1 + (if c.sensitive(es[0].key) then 0 else Weight(c, g, es[0].value, depth)) + EntriesWeight(c, g, es[1..], depth)
  }

  function ItemsWeight(c: Config, g: Graph, xs: seq<Value>, depth: nat): nat
    decreases Room(c, depth), xs, 0
  {
    if xs == [] then 0 else 1 + Weight(c, g, xs[0], depth) + ItemsWeight(c, g, xs[1..], depth)
  }

  /** Groups without attributes and the zero attribute are dropped; a group without a name stands for its
      attributes. */
  function AttrWeight(c: Config, g: Graph, a: Attr, depth: nat): nat
    decreases Room(c, depth), a, 1
  {
    if a == ZERO_ATTR then 0
    else if a.key != "" && c.sensitive(a.key) then 1
    else
      var v := Resolve(a.value);
      if !v.Group? then 1 + Weight(c, g, v, depth)
      else if v.attrs == [] then 0
      else if a.key == "" then AttrsWeight(c, g, v.attrs, depth)
      else 1 + AttrsWeight(c, g, v.attrs, depth + 1)
  }

  function AttrsWeight(c: Config, g: Graph, attrs: seq<Attr>, depth: nat): nat
    decreases Room(c, depth), attrs, 0
  {
    if attrs == [] then 0 else AttrWeight(c, g, attrs[0], depth) + AttrsWeight(c, g, attrs[1..], depth)
  }

  // ----- the Go sanitizer shows plain values -----

  lemma {:induction false} ResolvedShows(c: Config, g: Graph, v: Value, o: Out)
    ensures Shows(c, g, Resolve(v), o) <==> Shows(c, g, v, o)
    decreases v
  {
    if v.Wrapped? { ResolvedShows(c, g, v.inner, o); }
  }

  lemma {:induction false} ResolvedPlain(c: Config, g: Graph, v: Value, depth: nat)
    requires Plain(c, g, v, depth)
    ensures Plain(c, g, Resolve(v), depth)
    decreases v
  {
    if v.Wrapped? { ResolvedPlain(c, g, v.inner, depth); }
  }

  /** There is enough budget, or some of it was left. */
  predicate Affords(weight: nat, budget: nat, left: nat) { weight <= budget || left > 0 }

  /** What a field becomes in an object. */
  function ValueOf(f: Field): Out {
    match f
    case Leaf(_, v) => v
    case GroupField(_, Some(marker), _) => marker
    case GroupField(_, None, children) => OMap(FieldsObject(children, []))
  }

  ghost predicate FieldsShow(c: Config, g: Graph, attrs: seq<Attr>, fields: seq<Field>) {
    |fields| == |attrs| && forall i :: 0 <= i < |attrs| ==>
      fields[i].key == attrs[i].key && ShowsAs(c, g, attrs[i].key, attrs[i].value, ValueOf(fields[i]))
  }

  ghost predicate EntriesShow(c: Config, g: Graph, es: seq<Entry>, out: seq<OutEntry>) {
    |out| == |es| && forall i :: 0 <= i < |es| ==> out[i].key == es[i].key && ShowsAs(c, g, es[i].key, es[i].value, out[i].value)
  }

  function AsEntries(fields: seq<Field>): seq<OutEntry> {
    if fields == [] then [] else [OutEntry(fields[0].key, ValueOf(fields[0]))] + AsEntries(fields[1..])
  }

  lemma {:induction false} AsEntriesAt(fields: seq<Field>)
    ensures var es := AsEntries(fields);
            |es| == |fields| && forall i :: 0 <= i < |fields| ==> es[i] == OutEntry(fields[i].key, ValueOf(fields[i]))
  {
    hide ValueOf;
    if fields != [] { AsEntriesAt(fields[1..]); }
  }

  predicate DistinctFields(fields: seq<Field>) {
    forall i, j :: 0 <= i < j < |fields| ==> fields[i].key != fields[j].key
  }

  lemma FieldsRest(fields: seq<Field>, result: seq<OutEntry>)
    requires fields != [] && DistinctFields(fields) && forall i :: 0 <= i < |fields| ==> !Holds(result, fields[i].key)
    ensures var next := result + [OutEntry(fields[0].key, ValueOf(fields[0]))];
            && Put(result, fields[0].key, ValueOf(fields[0])) == next && DistinctFields(fields[1..])
            && forall i :: 0 <= i < |fields[1..]| ==> !Holds(next, fields[1..][i].key)
  {
    hide Holds, Put, ValueOf;
    var f, rest := fields[0], fields[1..];
    assert forall i :: 0 <= i < |rest| ==> rest[i] == fields[i + 1];
    PutNew(result, f.key, ValueOf(f));
    forall i | 0 <= i < |rest| ensures !Holds(result + [OutEntry(f.key, ValueOf(f))], rest[i].key) {
      PutHolds(result, f.key, ValueOf(f), rest[i].key);
    }
  }

  lemma ObjectStep(fields: seq<Field>, result: seq<OutEntry>)
    requires fields != []
    ensures FieldsObject(fields, result) == FieldsObject(fields[1..], Put(result, fields[0].key, ValueOf(fields[0])))
  {
    hide Put;
  }

  /** Fields with different keys become one entry each, in their order. */
  lemma {:induction false} ObjectOfFields(fields: seq<Field>, result: seq<OutEntry>)
    requires DistinctFields(fields)
    requires forall i :: 0 <= i < |fields| ==> !Holds(result, fields[i].key)
    ensures FieldsObject(fields, result) == result + AsEntries(fields)
    decreases |fields|
  {
    hide Holds, Put, DistinctFields, ValueOf;
    if fields == [] {
      assert result + [] == result;
    } else {
      var entry := OutEntry(fields[0].key, ValueOf(fields[0]));
      FieldsRest(fields, result);
      ObjectStep(fields, result);
      hide FieldsObject;
      ObjectOfFields(fields[1..], result + [entry]);
      assert result + [entry] + AsEntries(fields[1..]) == result + ([entry] + AsEntries(fields[1..]));
    }
  }

  lemma GroupShows(c: Config, g: Graph, attrs: seq<Attr>, es: seq<OutEntry>)
    requires |es| == |attrs|
    requires forall i :: 0 <= i < |attrs| ==>
               es[i].key == attrs[i].key && ShowsAs(c, g, attrs[i].key, attrs[i].value, es[i].value)
    ensures Shows(c, g, Group(attrs), OMap(es))
  {
  }

  lemma NamedFields(attrs: seq<Attr>, fields: seq<Field>)
    requires Named(attrs) && |fields| == |attrs| && forall i :: 0 <= i < |attrs| ==> fields[i].key == attrs[i].key
    ensures DistinctFields(fields)
  {
    hide Resolve;
  }

  lemma ObjectShows(c: Config, g: Graph, attrs: seq<Attr>, fields: seq<Field>)
    requires Named(attrs) && FieldsShow(c, g, attrs, fields)
    ensures Shows(c, g, Group(attrs), OMap(FieldsObject(fields, [])))
  {
    NamedFields(attrs, fields);
    assert forall k :: !Holds([], k);
    hide Holds, Shows, FieldsObject, ValueOf, Named, DistinctFields;
    ObjectOfFields(fields, []);
    AsEntriesAt(fields);
    assert [] + AsEntries(fields) == AsEntries(fields);
    GroupShows(c, g, attrs, AsEntries(fields));
  }

  lemma SplitHead<T>(start: seq<T>, next: seq<T>, all: seq<T>)
    requires |next| == |start| + 1 && next[..|start|] == start && next <= all
    ensures start <= all && all[|start|..] == [next[|start|]] + all[|next|..]
  {
    assert forall i :: 0 <= i < |start| ==> start[i] == next[..|start|][i] == next[i] == all[i];
  }

  lemma FieldsShowCons(c: Config, g: Graph, attrs: seq<Attr>, f: Field, fields: seq<Field>)
    requires attrs != [] && f.key == attrs[0].key && ShowsAs(c, g, f.key, attrs[0].value, ValueOf(f))
    requires FieldsShow(c, g, attrs[1..], fields)
    ensures FieldsShow(c, g, attrs, [f] + fields)
  {
    hide Shows, ValueOf;
    var all := [f] + fields;
    forall i | 0 <= i < |attrs|
      ensures all[i].key == attrs[i].key && ShowsAs(c, g, attrs[i].key, attrs[i].value, ValueOf(all[i]))
    {
      if i > 0 { assert attrs[1..][i - 1] == attrs[i] && fields[i - 1] == all[i]; }
    }
  }

  lemma EntriesShowCons(c: Config, g: Graph, es: seq<Entry>, e: OutEntry, out: seq<OutEntry>)
    requires es != [] && e.key == es[0].key && ShowsAs(c, g, e.key, es[0].value, e.value)
    requires EntriesShow(c, g, es[1..], out)
    ensures EntriesShow(c, g, es, [e] + out)
  {
    hide Shows;
    var all := [e] + out;
    forall i | 0 <= i < |es|
      ensures all[i].key == es[i].key && ShowsAs(c, g, es[i].key, es[i].value, all[i].value)
    {
      if i > 0 { assert es[1..][i - 1] == es[i] && out[i - 1] == all[i]; }
    }
  }

  lemma TextShows(c: Config, text: Bytes)
    requires c.maxStringBytes >= |TRUNCATED|
    ensures ShowsText(c, ToValid(text, false), Shorten(c, text))
  {
    var s := ToValid(text, false);
    ToValidIsValid(text, false);
    ToValidKeepsValid(s, false);
    assert Truncate(s, c.maxStringBytes) == Truncate(text, c.maxStringBytes);
    if |s| > c.maxStringBytes {
      CutIsLongest(s, c.maxStringBytes);
    } else {
      TruncateBounds(s, c.maxStringBytes);
    }
    hide Truncate, Valid, Longest, ToValid;
  }

  /** A plain value is shown, whole, for as many units of the budget as it has nodes, unless the budget runs out. */
  lemma {:induction false} CleanShows(c: Config, g: Graph, v: Value, depth: nat, budget: nat)
    requires ProperConfig(c) && Plain(c, g, v, depth)
    requires Affords(Weight(c, g, v, depth), budget, Clean(c, g, v, depth, budget).1)
    ensures var r := Clean(c, g, v, depth, budget);
            Shows(c, g, v, r.0) && r.1 + Weight(c, g, v, depth) == budget
    decreases Room(c, depth), v, 2
  {
    hide CleanEntries, CleanItems, AddAll, FieldsObject, EntriesWeight, ItemsWeight, AttrsWeight, Shorten, ShowsText, Named;
    match v {
      case Text(text) => TextShows(c, text);
      case Wrapped(inner) => CleanShows(c, g, inner, depth, budget);
      case Ref(node) =>
        match g[node] {
          case Entries(es) =>
            EntriesAreShown(c, g, es, depth + 1, budget, []);
            var r := CleanEntries(c, g, es, depth + 1, budget, []);
            assert r.0[0..] == r.0;
          case Items(xs) => ItemsAreShown(c, g, xs, depth + 1, budget);
        }
      case Group(attrs) =>
        AttrsAreShown(c, g, [], attrs, depth + 1, budget);
        var r := AddAll(c, g, [], attrs, depth + 1, budget);
        assert r.0[0..] == r.0;
        ObjectShows(c, g, attrs, r.0);
      case _ =>
    }
  }

  lemma {:induction false} EntriesAreShown(c: Config, g: Graph, es: seq<Entry>, depth: nat, budget: nat, result: seq<OutEntry>)
    requires ProperConfig(c) && Fresh(es, result)
    requires forall i :: 0 <= i < |es| ==> c.sensitive(es[i].key) || Plain(c, g, es[i].value, depth)
    requires Affords(EntriesWeight(c, g, es, depth), budget, CleanEntries(c, g, es, depth, budget, result).1)
    ensures var r := CleanEntries(c, g, es, depth, budget, result);
            && r.1 + EntriesWeight(c, g, es, depth) == budget
            && result <= r.0 && EntriesShow(c, g, es, r.0[|result|..])
    decreases Room(c, depth), es, 1
  {
    hide Clean, Put, Fresh, Weight, Shows, Plain;
    if es != [] {
      hide EntriesShow;
      var e, rest := es[0], es[1..];
      var head := if c.sensitive(e.key) then (REDACTED, budget - 1) else Clean(c, g, e.value, depth, budget - 1);
      if !c.sensitive(e.key) { CleanShows(c, g, e.value, depth, budget - 1); }
      FreshRest(es, result, head.0);
      var next := Put(result, e.key, head.0);
      assert forall i :: 0 <= i < |rest| ==> rest[i] == es[i + 1];
      EntriesAreShown(c, g, rest, depth, head.1, next);
      var r := CleanEntries(c, g, es, depth, budget, result).0;
      SplitHead(result, next, r);
      EntriesShowCons(c, g, es, OutEntry(e.key, head.0), r[|next|..]);
    } else {
      assert CleanEntries(c, g, es, depth, budget, result).0[|result|..] == [];
    }
  }

  lemma {:induction false} ItemsAreShown(c: Config, g: Graph, xs: seq<Value>, depth: nat, budget: nat)
    requires ProperConfig(c) && forall i :: 0 <= i < |xs| ==> Plain(c, g, xs[i], depth)
    requires Affords(ItemsWeight(c, g, xs, depth), budget, CleanItems(c, g, xs, depth, budget).1)
    ensures var r := CleanItems(c, g, xs, depth, budget);
            && r.1 + ItemsWeight(c, g, xs, depth) == budget && |r.0| == |xs|
            && forall i :: 0 <= i < |xs| ==> Shows(c, g, xs[i], r.0[i])
    decreases Room(c, depth), xs, 1
  {
    hide Clean, Weight, Shows, Plain;
    if xs != [] {
      var rest := xs[1..];
      CleanShows(c, g, xs[0], depth, budget - 1);
      var head := Clean(c, g, xs[0], depth, budget - 1);
      assert forall i :: 0 <= i < |rest| ==> rest[i] == xs[i + 1];
      ItemsAreShown(c, g, rest, depth, head.1);
      var r := CleanItems(c, g, xs, depth, budget);
      assert r.0 == [head.0] + CleanItems(c, g, rest, depth, head.1).0;
    }
  }

  lemma NoGroup(fields: seq<Field>, key: string)
    requires forall i :: 0 <= i < |fields| ==> fields[i].key != key
    ensures FindGroup(fields, key) == |fields|
  {
  }

  lemma {:induction false} AttrIsShown(c: Config, g: Graph, fields: seq<Field>, a: Attr, depth: nat, budget: nat)
    requires ProperConfig(c) && a.key != "" && Resolve(a.value) != Group([])
    requires forall i :: 0 <= i < |fields| ==> fields[i].key != a.key
    requires c.sensitive(a.key) || Plain(c, g, a.value, depth)
    requires Affords(AttrWeight(c, g, a, depth), budget, Add(c, g, fields, a, depth, budget).1)
    ensures var r := Add(c, g, fields, a, depth, budget);
            && r.1 + AttrWeight(c, g, a, depth) == budget
            && |r.0| == |fields| + 1 && r.0[..|fields|] == fields && r.0[|fields|].key == a.key
            && ShowsAs(c, g, a.key, a.value, ValueOf(r.0[|fields|]))
    decreases Room(c, depth), a, 3
  {
    hide Clean, AddAll, FindGroup, FieldsObject, Weight, AttrsWeight, Shows;
    if !c.sensitive(a.key) {
      var v := Resolve(a.value);
      ResolvedPlain(c, g, a.value, depth);
      assert depth <= c.maxDepth;
      NoGroup(fields, a.key);
      if v.Group? {
        AttrsAreShown(c, g, [], v.attrs, depth + 1, budget - 1);
        var r := AddAll(c, g, [], v.attrs, depth + 1, budget - 1);
        assert r.0[0..] == r.0;
        ObjectShows(c, g, v.attrs, r.0);
        ResolvedShows(c, g, a.value, OMap(FieldsObject(r.0, [])));
      } else {
        CleanShows(c, g, v, depth, budget - 1);
        ResolvedShows(c, g, a.value, Clean(c, g, v, depth, budget - 1).0);
      }
    }
  }

  lemma WeighsSomething(c: Config, g: Graph, a: Attr, depth: nat)
    requires a.key != "" && Resolve(a.value) != Group([])
    ensures AttrWeight(c, g, a, depth) >= 1
  {
    hide Weight;
    var v := Resolve(a.value);
    if v.Group? { assert v == Group(v.attrs); }
  }

  predicate Apart(fields: seq<Field>, attrs: seq<Attr>) {
    forall i, j :: 0 <= i < |fields| && 0 <= j < |attrs| ==> fields[i].key != attrs[j].key
  }

  lemma ApartRest(fields: seq<Field>, next: seq<Field>, attrs: seq<Attr>)
    requires attrs != [] && Named(attrs) && Apart(fields, attrs)
    requires |next| == |fields| + 1 && next[..|fields|] == fields && next[|fields|].key == attrs[0].key
    ensures Named(attrs[1..]) && Apart(next, attrs[1..])
  {
    hide Resolve;
    var rest := attrs[1..];
    assert forall i :: 0 <= i < |rest| ==> rest[i] == attrs[i + 1];
    forall i, j | 0 <= i < |next| && 0 <= j < |rest| ensures next[i].key != rest[j].key {
      assert rest[j] == attrs[j + 1];
      if i < |fields| { assert next[i] == next[..|fields|][i] == fields[i]; }
    }
  }

  lemma {:induction false} AttrsAreShown(c: Config, g: Graph, fields: seq<Field>, attrs: seq<Attr>, depth: nat, budget: nat)
    requires ProperConfig(c) && Named(attrs) && Apart(fields, attrs)
    requires forall i :: 0 <= i < |attrs| ==> c.sensitive(attrs[i].key) || Plain(c, g, attrs[i].value, depth)
    requires Affords(AttrsWeight(c, g, attrs, depth), budget, AddAll(c, g, fields, attrs, depth, budget).1)
    ensures var r := AddAll(c, g, fields, attrs, depth, budget);
            && r.1 + AttrsWeight(c, g, attrs, depth) == budget
            && fields <= r.0 && FieldsShow(c, g, attrs, r.0[|fields|..])
    decreases Room(c, depth), attrs, 2
  {
    if attrs != [] {
      WeighsSomething(c, g, attrs[0], depth);
      assert forall i :: 0 <= i < |fields| ==> fields[i].key != attrs[0].key;
      assert attrs[0].key != "" && Resolve(attrs[0].value) != Group([]);
    }
    hide Add, AttrWeight, Shows, Plain, ValueOf, Apart, Named, Resolve;
    if attrs != [] {
      hide FieldsShow;
      var a, rest := attrs[0], attrs[1..];
      assert forall i :: 0 <= i < |rest| ==> rest[i] == attrs[i + 1];
      AttrIsShown(c, g, fields, a, depth, budget);
      var head := Add(c, g, fields, a, depth, budget);
      ApartRest(fields, head.0, attrs);
      AttrsAreShown(c, g, head.0, rest, depth, head.1);
      var r := AddAll(c, g, fields, attrs, depth, budget).0;
      SplitHead(fields, head.0, r);
      FieldsShowCons(c, g, attrs, head.0[|fields|], r[|head.0|..]);
    } else {
      assert AddAll(c, g, fields, attrs, depth, budget).0[|fields|..] == [];
    }
  }

  // ----- the Python sanitizer shows them too -----

  /** What is plain at some depth is plain nearer to the top. */
  lemma {:induction false} PlainNearer(c: Config, g: Graph, v: Value, depth: nat, nearer: nat)
    requires nearer <= depth && Plain(c, g, v, depth)
    ensures Plain(c, g, v, nearer)
    decreases Room(c, depth), v
  {
    hide Named;
    match v {
      case Wrapped(inner) => PlainNearer(c, g, inner, depth, nearer);
      case Ref(node) =>
        match g[node] {
          case Entries(es) =>
            forall i | 0 <= i < |es| && !c.sensitive(es[i].key) ensures Plain(c, g, es[i].value, nearer + 1) {
              PlainNearer(c, g, es[i].value, depth + 1, nearer + 1);
            }
          case Items(xs) =>
            forall i | 0 <= i < |xs| ensures Plain(c, g, xs[i], nearer + 1) {
              PlainNearer(c, g, xs[i], depth + 1, nearer + 1);
            }
        }
      case Group(attrs) =>
        forall i | 0 <= i < |attrs| && !c.sensitive(attrs[i].key) ensures Plain(c, g, attrs[i].value, nearer + 1) {
          assert attrs[i] in attrs;
          PlainNearer(c, g, attrs[i].value, depth + 1, nearer + 1);
        }
      case _ =>
    }
  }

  /** Wherever the container is plain, the value is plain one level deeper. */
  ghost predicate Within(c: Config, g: Graph, n: Node, v: Value) {
    forall d: nat :: Plain(c, g, Ref(n), d) ==> Plain(c, g, v, d + 1)
  }

  /** A container inside itself is plain nowhere. */
  lemma {:induction false} NotInsideItself(c: Config, g: Graph, n: Node, depth: nat)
    requires Within(c, g, n, Ref(n))
    ensures !Plain(c, g, Ref(n), depth)
    decreases Room(c, depth)
  {
    if Plain(c, g, Ref(n), depth) { NotInsideItself(c, g, n, depth + 1); }
  }

  ghost predicate InsideAll(c: Config, g: Graph, seen: set<Node>, v: Value) {
    forall n :: n in seen ==> Within(c, g, n, v)
  }

  /** One level down from a container, what it holds is inside it and inside whatever it is inside of. */
  lemma StaysInside(c: Config, g: Graph, seen: set<Node>, node: Node, v: Value)
    requires InsideAll(c, g, seen, Ref(node))
    requires forall d: nat :: Plain(c, g, Ref(node), d) ==> Plain(c, g, v, d + 1)
    ensures InsideAll(c, g, seen + {node}, v)
  {
    hide Plain;
    forall n | n in seen + {node} ensures Within(c, g, n, v) {
      if n != node {
        assert Within(c, g, n, Ref(node));
        forall d: nat | Plain(c, g, Ref(n), d) ensures Plain(c, g, v, d + 1) {
          PlainNearer(c, g, v, d + 2, d + 1);
        }
      }
    }
  }

  lemma UnwrapWithin(c: Config, g: Graph, n: Node, inner: Value)
    requires Within(c, g, n, Wrapped(inner))
    ensures Within(c, g, n, inner)
  {
    forall d: nat | Plain(c, g, Ref(n), d) ensures Plain(c, g, inner, d + 1) {
      assert Plain(c, g, Wrapped(inner), d + 1);
    }
  }

  lemma {:induction false} PlainNeverReenters(c: Config, g: Graph, h: Heap, v: Value, depth: nat, budget: nat, seen: set<Node>)
    requires SameData(g, h) && Common(v) && Plain(c, g, v, depth) && InsideAll(c, g, seen, v)
    ensures !Reenters(c, h, v, depth, budget, seen)
    decreases Room(c, depth), v, 1
  {
    hide ReentersDict, ReentersItems, Within;
    match v {
      case Wrapped(inner) =>
        forall n | n in seen ensures Within(c, g, n, inner) { UnwrapWithin(c, g, n, inner); }
        PlainNeverReenters(c, g, h, inner, depth, budget, seen);
      case Ref(node) =>
        if node in seen {
          NotInsideItself(c, g, node, depth);
        } else {
          assert SameContainer(g[node], h[node]);
          match g[node] {
            case Entries(es) =>
              forall i | 0 <= i < |es| && !c.sensitive(es[i].key) ensures InsideAll(c, g, seen + {node}, es[i].value) {
                StaysInside(c, g, seen, node, es[i].value);
              }
              PlainDict(c, g, h, es, h[node].entries, depth + 1, budget, seen + {node});
            case Items(xs) =>
              forall i | 0 <= i < |xs| ensures InsideAll(c, g, seen + {node}, xs[i]) {
                StaysInside(c, g, seen, node, xs[i]);
              }
              PlainSequence(c, g, h, xs, depth + 1, budget, seen + {node});
          }
        }
      case _ =>
    }
  }

  lemma {:induction false} PlainDict(c: Config, g: Graph, h: Heap, es: seq<Entry>, ds: seq<DictEntry>, depth: nat, budget: nat,
                                     seen: set<Node>)
    requires SameData(g, h) && SameEntries(es, ds)
    requires forall i :: 0 <= i < |es| && !c.sensitive(es[i].key) ==>
               Plain(c, g, es[i].value, depth) && InsideAll(c, g, seen, es[i].value)
    ensures !ReentersDict(c, h, ds, depth, budget, seen)
    decreases Room(c, depth), es, 2
  {
    hide SameData, Common, Plain, InsideAll, Reenters, SanitizeKeyed;
    if es != [] && budget > 0 {
      assert ds[0] == DictEntry(Some(es[0].key), es[0].value);
      assert SameEntries(es[1..], ds[1..]);
      assert es[0].value < es[0];
      if !c.sensitive(es[0].key) { PlainNeverReenters(c, g, h, es[0].value, depth, budget - 1, seen); }
      var left := SanitizeKeyed(c, h, es[0].key, es[0].value, depth, budget - 1, seen).1;
      assert forall i :: 0 <= i < |es[1..]| ==> es[1..][i] == es[i + 1];
      PlainDict(c, g, h, es[1..], ds[1..], depth, left, seen);
    }
  }

  lemma {:induction false} PlainSequence(c: Config, g: Graph, h: Heap, xs: seq<Value>, depth: nat, budget: nat, seen: set<Node>)
    requires SameData(g, h)
    requires forall i :: 0 <= i < |xs| ==> Common(xs[i]) && Plain(c, g, xs[i], depth) && InsideAll(c, g, seen, xs[i])
    ensures !ReentersItems(c, h, xs, depth, budget, seen)
    decreases Room(c, depth), xs, 2
  {
    hide SameData, Common, Plain, InsideAll, Reenters, Sanitize;
    if xs != [] && budget > 0 {
      PlainNeverReenters(c, g, h, xs[0], depth, budget - 1, seen);
      assert forall i :: 0 <= i < |xs[1..]| ==> xs[1..][i] == xs[i + 1];
      PlainSequence(c, g, h, xs[1..], depth, Sanitize(c, h, xs[0], depth, budget - 1, seen).1, seen);
    }
  }

  /** In Python too a plain value is shown whole, unless the budget runs out. */
  lemma SanitizeShows(c: Config, g: Graph, h: Heap, v: Value, depth: nat, budget: nat)
    requires ProperConfig(c) && SameData(g, h) && Common(v) && Plain(c, g, v, depth)
    requires Affords(Weight(c, g, v, depth), budget, Sanitize(c, h, v, depth, budget, {}).1)
    ensures var r := Sanitize(c, h, v, depth, budget, {});
            Shows(c, g, v, r.0) && r.1 + Weight(c, g, v, depth) == budget
  {
    assert InsideAll(c, g, {}, v);
    hide Plain, Shows, Clean, Sanitize, Weight, SameData, Common, Reenters, InsideAll;
    PlainNeverReenters(c, g, h, v, depth, budget, {});
    AgreesUnlessReenters(c, g, h, v, depth, budget, {});
    CleanShows(c, g, v, depth, budget);
  }

  /** Fields within the limits. */
  predicate PlainFields(c: Config, g: Graph, fields: seq<Entry>) {
    forall i :: 0 <= i < |fields| ==>
      Common(fields[i].value) && (c.sensitive(fields[i].key) || Plain(c, g, fields[i].value, 1))
  }

  lemma {:induction false} FixedAreShown(c: Config, g: Graph, h: Heap, fields: seq<Entry>, budget: nat, result: seq<OutEntry>)
    requires ProperConfig(c) && SameData(g, h) && PlainFields(c, g, fields) && Fresh(fields, result)
    requires Affords(EntriesWeight(c, g, fields, 1), budget, FixedFields(c, h, fields, budget, result).1)
    ensures var r := FixedFields(c, h, fields, budget, result);
            && r.1 + EntriesWeight(c, g, fields, 1) == budget
            && result <= r.0 && EntriesShow(c, g, fields, r.0[|result|..])
    decreases |fields|
  {
    hide Put, Fresh, Weight, Shows, Plain, Common, SameData, Sanitize;
    if fields != [] {
      hide EntriesShow;
      var e, rest := fields[0], fields[1..];
      var head := SanitizeKeyed(c, h, e.key, e.value, 1, budget - 1, {});
      if !c.sensitive(e.key) { SanitizeShows(c, g, h, e.value, 1, budget - 1); }
      FreshRest(fields, result, head.0);
      var next := Put(result, e.key, head.0);
      assert forall i :: 0 <= i < |rest| ==> rest[i] == fields[i + 1];
      FixedAreShown(c, g, h, rest, head.1, next);
      var r := FixedFields(c, h, fields, budget, result).0;
      SplitHead(result, next, r);
      EntriesShowCons(c, g, fields, OutEntry(e.key, head.0), r[|next|..]);
    } else {
      assert FixedFields(c, h, fields, budget, result).0[|result|..] == [];
    }
  }

  predicate HasKey(entries: seq<Entry>, key: string) {
    exists i :: 0 <= i < |entries| && entries[i].key == key
  }

  /** The record's own fields whose names are neither reserved nor taken. */
  function Unclaimed(reserved: string -> bool, fixed: seq<Entry>, own: seq<Entry>): seq<Entry> {
    if own == [] then []
    else (if reserved(own[0].key) || HasKey(fixed, own[0].key) then [] else [own[0]]) + Unclaimed(reserved, fixed, own[1..])
  }

  lemma HasKeySplit(entries: seq<Entry>, key: string)
    requires entries != []
    ensures HasKey(entries, key) <==> entries[0].key == key || HasKey(entries[1..], key)
  {
    if HasKey(entries, key) && entries[0].key != key {
      var i :| 0 <= i < |entries| && entries[i].key == key;
      assert entries[1..][i - 1].key == key;
    }
    if HasKey(entries[1..], key) {
      var i :| 0 <= i < |entries[1..]| && entries[1..][i].key == key;
      assert entries[i + 1].key == key;
    }
  }

  lemma NoKey(key: string)
    ensures !HasKey([], key)
  {
  }

  lemma {:induction false} UnclaimedNames(reserved: string -> bool, fixed: seq<Entry>, own: seq<Entry>, key: string)
    ensures HasKey(Unclaimed(reserved, fixed, own), key) <==> HasKey(own, key) && !reserved(key) && !HasKey(fixed, key)
  {
    hide HasKey;
    if own == [] {
      NoKey(key);
    } else {
      var rest := Unclaimed(reserved, fixed, own[1..]);
      UnclaimedNames(reserved, fixed, own[1..], key);
      HasKeySplit(own, key);
      if reserved(own[0].key) || HasKey(fixed, own[0].key) {
        assert [] + rest == rest;
      } else {
        HasKeySplit([own[0]] + rest, key);
        assert ([own[0]] + rest)[1..] == rest;
      }
    }
  }

  lemma DistinctCons(e: Entry, rest: seq<Entry>)
    requires Distinct(rest) && !HasKey(rest, e.key)
    ensures Distinct([e] + rest)
  {
    var all := [e] + rest;
    forall i, j | 0 <= i < j < |all| ensures all[i].key != all[j].key {
      assert rest[j - 1].key == all[j].key;
      if i > 0 { assert rest[i - 1].key == all[i].key; }
    }
  }

  lemma DistinctRest(entries: seq<Entry>)
    requires Distinct(entries) && entries != []
    ensures Distinct(entries[1..]) && !HasKey(entries[1..], entries[0].key)
  {
    assert forall i :: 0 <= i < |entries[1..]| ==> entries[1..][i] == entries[i + 1];
  }

  lemma {:induction false} DistinctUnclaimed(reserved: string -> bool, fixed: seq<Entry>, own: seq<Entry>)
    requires Distinct(own)
    ensures Distinct(Unclaimed(reserved, fixed, own))
  {
    if own != [] {
      DistinctRest(own);
      DistinctUnclaimed(reserved, fixed, own[1..]);
      UnclaimedNames(reserved, fixed, own[1..], own[0].key);
      hide HasKey, Distinct;
      var rest := Unclaimed(reserved, fixed, own[1..]);
      assert [] + rest == rest;
      DistinctCons(own[0], rest);
    }
  }

  lemma {:induction false} DistinctJoined(a: seq<Entry>, b: seq<Entry>)
    requires Distinct(a) && Distinct(b) && forall key :: HasKey(a, key) ==> !HasKey(b, key)
    ensures Distinct(a + b)
  {
    var all := a + b;
    forall i, j | 0 <= i < j < |all| ensures all[i].key != all[j].key {
      if i < |a| <= j {
        assert HasKey(a, a[i].key);
        assert b[j - |a|].key == all[j].key;
      }
    }
  }

  /** A result that holds exactly the fixed names. */
  predicate Claimed(fixed: seq<Entry>, own: seq<Entry>, result: seq<OutEntry>) {
    forall i :: 0 <= i < |own| ==> (Holds(result, own[i].key) <==> HasKey(fixed, own[i].key))
  }

  lemma ClaimedNext(fixed: seq<Entry>, own: seq<Entry>, result: seq<OutEntry>, o: Out)
    requires own != [] && Distinct(own) && Claimed(fixed, own, result)
    ensures Claimed(fixed, own[1..], result) && Claimed(fixed, own[1..], Put(result, own[0].key, o))
  {
    hide Holds, HasKey, Put;
    var rest := own[1..];
    forall i | 0 <= i < |rest|
      ensures Holds(result, rest[i].key) <==> HasKey(fixed, rest[i].key)
      ensures Holds(Put(result, own[0].key, o), rest[i].key) <==> HasKey(fixed, rest[i].key)
    {
      assert rest[i] == own[i + 1];
      PutHolds(result, own[0].key, o, rest[i].key);
    }
  }

  /** Reserved names and names already taken are passed over; the other fields are treated like fixed ones. */
  lemma {:induction false} OwnPassesOver(c: Config, h: Heap, reserved: string -> bool, fixed: seq<Entry>, own: seq<Entry>, budget: nat,
                                         result: seq<OutEntry>)
    requires Distinct(own) && Claimed(fixed, own, result)
    ensures OwnFields(c, h, reserved, own, budget, result)
         == FixedFields(c, h, Unclaimed(reserved, fixed, own), budget, result)
    decreases |own|
  {
    hide SanitizeKeyed, Put, Holds, HasKey;
    if own != [] {
      var e, left := own[0], Unclaimed(reserved, fixed, own[1..]);
      var r := SanitizeKeyed(c, h, e.key, e.value, 1, if budget > 0 then budget - 1 else 0, {});
      ClaimedNext(fixed, own, result, r.0);
      DistinctRest(own);
      assert Holds(result, e.key) <==> HasKey(fixed, e.key);
      hide Claimed, Distinct;
      if reserved(e.key) || HasKey(fixed, e.key) {
        assert [] + left == left;
        OwnPassesOver(c, h, reserved, fixed, own[1..], budget, result);
      } else if budget > 0 {
        assert ([e] + left)[1..] == left;
        OwnPassesOver(c, h, reserved, fixed, own[1..], r.1, Put(result, e.key, r.0));
      }
    }
  }

  lemma {:induction false} EntriesWeightConcat(c: Config, g: Graph, a: seq<Entry>, b: seq<Entry>)
    ensures EntriesWeight(c, g, a + b, 1) == EntriesWeight(c, g, a, 1) + EntriesWeight(c, g, b, 1)
  {
    hide Weight;
    if a == [] {
      assert a + b == b;
    } else {
      assert (a + b)[1..] == a[1..] + b;
      EntriesWeightConcat(c, g, a[1..], b);
    }
  }

  lemma ShownAreClaimed(c: Config, g: Graph, fixed: seq<Entry>, own: seq<Entry>, result: seq<OutEntry>)
    requires EntriesShow(c, g, fixed, result)
    ensures Claimed(fixed, own, result)
  {
    hide Shows;
    forall i | 0 <= i < |own| ensures Holds(result, own[i].key) <==> HasKey(fixed, own[i].key) {
      if Holds(result, own[i].key) {
        var j :| 0 <= j < |result| && result[j].key == own[i].key;
        assert fixed[j].key == own[i].key;
      }
      if HasKey(fixed, own[i].key) {
        var j :| 0 <= j < |fixed| && fixed[j].key == own[i].key;
        assert result[j].key == own[i].key;
      }
    }
  }

  lemma PlainPrefix(c: Config, g: Graph, a: seq<Entry>, b: seq<Entry>)
    requires PlainFields(c, g, a + b) && Distinct(a + b)
    ensures PlainFields(c, g, a) && Fresh(a, []) && Fresh(a + b, [])
  {
    hide Common, Plain;
    assert forall i :: 0 <= i < |a| ==> a[i] == (a + b)[i];
  }

  lemma {:induction false} JoinedFields(reserved: string -> bool, fixed: seq<Entry>, own: seq<Entry>)
    requires Distinct(fixed) && Distinct(own)
    ensures Distinct(fixed + Unclaimed(reserved, fixed, own))
  {
    hide HasKey;
    DistinctUnclaimed(reserved, fixed, own);
    forall key | HasKey(fixed, key) ensures !HasKey(Unclaimed(reserved, fixed, own), key) {
      UnclaimedNames(reserved, fixed, own, key);
    }
    DistinctJoined(fixed, Unclaimed(reserved, fixed, own));
  }

  /** The whole law for a Python record: the fixed fields, and those of the record whose names are neither reserved
      nor taken, come out each under its name with its value, in their order, as long as they are within the depth
      bound and the budget covers them or is not used up. */
  lemma FieldsAreKept(c: Config, g: Graph, h: Heap, reserved: string -> bool, fixed: seq<Entry>, own: seq<Entry>)
    requires ProperConfig(c) && SameData(g, h) && Distinct(fixed) && Distinct(own)
    requires var all := fixed + Unclaimed(reserved, fixed, own);
             PlainFields(c, g, all)
             && Affords(EntriesWeight(c, g, all, 1), c.maxAttributes, RecordFields(c, h, reserved, fixed, own).1)
    ensures EntriesShow(c, g, fixed + Unclaimed(reserved, fixed, own), RecordFields(c, h, reserved, fixed, own).0)
  {
    var left := Unclaimed(reserved, fixed, own);
    JoinedFields(reserved, fixed, own);
    PlainPrefix(c, g, fixed, left);
    EntriesWeightConcat(c, g, fixed, left);
    hide FixedFields, OwnFields, EntriesShow, EntriesWeight, PlainFields, SameData, Fresh, Distinct, Unclaimed, Claimed;
    var r := FixedFields(c, h, fixed, c.maxAttributes, []);
    FixedAreShown(c, g, h, fixed, c.maxAttributes, []);
    assert r.0[0..] == r.0;
    ShownAreClaimed(c, g, fixed, own, r.0);
    OwnPassesOver(c, h, reserved, fixed, own, r.1, r.0);
    FixedConcat(c, h, fixed, left, c.maxAttributes, []);
    FixedAreShown(c, g, h, fixed + left, c.maxAttributes, []);
    var all := RecordFields(c, h, reserved, fixed, own).0;
    assert all[0..] == all;
  }
}
