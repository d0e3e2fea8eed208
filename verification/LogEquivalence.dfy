/** Two equivalences of the sanitizer (sdk/go/logging/handler.go): secrets do not influence anything that is
    emitted, and a WithGroup path means the explicitly nested group. */
module LogEquivalence {
  import opened Optional
  import opened Utf8
  import opened LogSanitizer
  import opened LogSafety

  // ----- redaction as noninterference -----

  /** Values equal except for what is stored under sensitive keys. `same` pairs the containers that correspond: all
      that are reachable otherwise; a container held only under a sensitive key need not correspond to any. */
  predicate Alike(c: Config, same: set<(Node, Node)>, v: Value, w: Value)
    decreases v, 1
  {
    match v
    case Group(attrs) => w.Group? && AttrsAlike(c, same, attrs, w.attrs)
    case Wrapped(inner) => w.Wrapped? && Alike(c, same, inner, w.inner)
    case Ref(node) => w.Ref? && (node, w.node) in same
    case _ => v == w
  }

  predicate AttrAlike(c: Config, same: set<(Node, Node)>, a: Attr, b: Attr)
    decreases a, 1
  {
    a.key == b.key && ((a.key != "" && c.sensitive(a.key)) || Alike(c, same, a.value, b.value))
  }

  predicate AttrsAlike(c: Config, same: set<(Node, Node)>, a: seq<Attr>, b: seq<Attr>)
    decreases a, 0
  {
    |a| == |b| && forall i :: 0 <= i < |a| ==> AttrAlike(c, same, a[i], b[i])
  }

  predicate EntriesAlike(c: Config, same: set<(Node, Node)>, a: seq<Entry>, b: seq<Entry>) {
    |a| == |b| && forall i :: 0 <= i < |a| ==>
      a[i].key == b[i].key && (c.sensitive(a[i].key) || Alike(c, same, a[i].value, b[i].value))
  }

  predicate ItemsAlike(c: Config, same: set<(Node, Node)>, a: seq<Value>, b: seq<Value>) {
    |a| == |b| && forall i :: 0 <= i < |a| ==> Alike(c, same, a[i], b[i])
  }

  predicate ContainersAlike(c: Config, same: set<(Node, Node)>, a: Container, b: Container) {
    match (a, b)
    case (Entries(es), Entries(fs)) => EntriesAlike(c, same, es, fs)
    case (Items(xs), Items(ys)) => ItemsAlike(c, same, xs, ys)
    case _ => false
  }

  /** Corresponding containers are alike; of the others nothing is said. */
  ghost predicate GraphsAlike(c: Config, same: set<(Node, Node)>, g: Graph, h: Graph) {
    forall m, n :: (m, n) in same ==> (m in g <==> n in h) && (m in g ==> ContainersAlike(c, same, g[m], h[n]))
  }

  lemma {:induction false} CleanIgnoresSecrets(c: Config, same: set<(Node, Node)>, g: Graph, h: Graph, v: Value, w: Value, depth: nat, budget: nat)
    requires GraphsAlike(c, same, g, h) && Alike(c, same, v, w)
    ensures Clean(c, g, v, depth, budget) == Clean(c, h, w, depth, budget)
    decreases Room(c, depth), v, 1
  {
    hide CleanEntries, CleanItems, AddAll, FieldsObject;
    if depth <= c.maxDepth {
      match v {
        case Ref(node) =>
          if node in g {
            assert ContainersAlike(c, same, g[node], h[w.node]);
            match g[node] {
              case Entries(es) => EntriesIgnoreSecrets(c, same, g, h, es, h[w.node].entries, depth + 1, budget, []);
              case Items(xs) => ItemsIgnoreSecrets(c, same, g, h, xs, h[w.node].items, depth + 1, budget);
            }
          }
        case Wrapped(inner) => CleanIgnoresSecrets(c, same, g, h, inner, w.inner, depth, budget);
        case Group(attrs) => AddAllIgnoresSecrets(c, same, g, h, [], attrs, w.attrs, depth + 1, budget);
        case _ =>
      }
    }
  }

  lemma {:induction false} EntriesIgnoreSecrets(c: Config, same: set<(Node, Node)>, g: Graph, h: Graph, a: seq<Entry>, b: seq<Entry>,
                                                depth: nat, budget: nat, result: seq<OutEntry>)
    requires GraphsAlike(c, same, g, h) && EntriesAlike(c, same, a, b)
    ensures CleanEntries(c, g, a, depth, budget, result) == CleanEntries(c, h, b, depth, budget, result)
    decreases Room(c, depth), a, 0
  {
    hide Clean, Put;
    if a != [] && budget > 0 {
      assert EntriesAlike(c, same, a[1..], b[1..]);
      var key := a[0].key;
      if c.sensitive(key) {
        EntriesIgnoreSecrets(c, same, g, h, a[1..], b[1..], depth, budget - 1, Put(result, key, REDACTED));
      } else {
        CleanIgnoresSecrets(c, same, g, h, a[0].value, b[0].value, depth, budget - 1);
        var r := Clean(c, g, a[0].value, depth, budget - 1);
        EntriesIgnoreSecrets(c, same, g, h, a[1..], b[1..], depth, r.1, Put(result, key, r.0));
      }
    }
  }

  lemma {:induction false} ItemsIgnoreSecrets(c: Config, same: set<(Node, Node)>, g: Graph, h: Graph, a: seq<Value>, b: seq<Value>, depth: nat, budget: nat)
    requires GraphsAlike(c, same, g, h) && ItemsAlike(c, same, a, b)
    ensures CleanItems(c, g, a, depth, budget) == CleanItems(c, h, b, depth, budget)
    decreases Room(c, depth), a, 0
  {
    hide Clean;
    if a != [] && budget > 0 {
      assert ItemsAlike(c, same, a[1..], b[1..]);
      CleanIgnoresSecrets(c, same, g, h, a[0], b[0], depth, budget - 1);
      ItemsIgnoreSecrets(c, same, g, h, a[1..], b[1..], depth, Clean(c, g, a[0], depth, budget - 1).1);
    }
  }

  predicate Marked(c: Config, key: string, depth: nat) {
    key != "" && (c.sensitive(key) || depth > c.maxDepth)
  }

  lemma AddMarked(c: Config, g: Graph, fields: seq<Field>, a: Attr, depth: nat, budget: nat)
    requires budget > 0 && Marked(c, a.key, depth)
    ensures Add(c, g, fields, a, depth, budget)
         == (fields + [Leaf(a.key, if c.sensitive(a.key) then REDACTED else CUT_OFF)], budget - 1)
  {
  }

  lemma AddLeaf(c: Config, g: Graph, fields: seq<Field>, a: Attr, depth: nat, budget: nat)
    requires budget > 0 && a != ZERO_ATTR && !Marked(c, a.key, depth) && !Resolve(a.value).Group?
    ensures var r := Clean(c, g, Resolve(a.value), depth, budget - 1);
            Add(c, g, fields, a, depth, budget) == (fields + [Leaf(a.key, r.0)], r.1)
  {
    hide Clean;
  }

  lemma AddInline(c: Config, g: Graph, fields: seq<Field>, a: Attr, depth: nat, budget: nat)
    requires budget > 0 && a.key == "" && Resolve(a.value).Group?
    ensures Add(c, g, fields, a, depth, budget) == AddAll(c, g, fields, Resolve(a.value).attrs, depth, budget)
  {
  }

  lemma AddNested(c: Config, g: Graph, fields: seq<Field>, a: Attr, depth: nat, budget: nat)
    requires budget > 0 && a.key != "" && Resolve(a.value).Group? && Resolve(a.value).attrs != [] && !Marked(c, a.key, depth)
    ensures var (present, i, left) := OpenGroup(c, fields, a.key, depth, budget);
            var r := AddAll(c, g, present[i].children, Resolve(a.value).attrs, depth + 1, left);
            Add(c, g, fields, a, depth, budget) == (present[i := GroupField(a.key, present[i].closed, r.0)], r.1)
  {
    hide OpenGroup, AddAll;
  }

  lemma AddNothing(c: Config, g: Graph, fields: seq<Field>, a: Attr, depth: nat, budget: nat)
    requires budget == 0 || a == ZERO_ATTR || (!Marked(c, a.key, depth) && Resolve(a.value) == Group([]))
    ensures Add(c, g, fields, a, depth, budget) == (fields, budget)
  {
  }

  lemma {:induction false} ResolveAlike(c: Config, same: set<(Node, Node)>, v: Value, w: Value)
    requires Alike(c, same, v, w)
    ensures Alike(c, same, Resolve(v), Resolve(w))
  {
    if v.Wrapped? { ResolveAlike(c, same, v.inner, w.inner); }
  }

  lemma ZeroAlike(c: Config, same: set<(Node, Node)>, a: Attr, b: Attr)
    requires AttrAlike(c, same, a, b)
    ensures a == ZERO_ATTR <==> b == ZERO_ATTR
  {
  }

  lemma {:induction false} AddIgnoresSecrets(c: Config, same: set<(Node, Node)>, g: Graph, h: Graph, fields: seq<Field>, a: Attr, b: Attr, depth: nat, budget: nat)
    requires GraphsAlike(c, same, g, h) && AttrAlike(c, same, a, b)
    ensures Add(c, g, fields, a, depth, budget) == Add(c, h, fields, b, depth, budget)
    decreases Room(c, depth), a, 1
  {
    hide Add, Clean, AddAll, OpenGroup, GraphsAlike;
    ZeroAlike(c, same, a, b);
    if budget == 0 || a == ZERO_ATTR {
      AddNothing(c, g, fields, a, depth, budget);
      AddNothing(c, h, fields, b, depth, budget);
    } else if Marked(c, a.key, depth) {
      AddMarked(c, g, fields, a, depth, budget);
      AddMarked(c, h, fields, b, depth, budget);
    } else if !Resolve(a.value).Group? {
      ResolveAlike(c, same, a.value, b.value);
      CleanIgnoresSecrets(c, same, g, h, Resolve(a.value), Resolve(b.value), depth, budget - 1);
      AddLeaf(c, g, fields, a, depth, budget);
      AddLeaf(c, h, fields, b, depth, budget);
    } else {
      ResolveAlike(c, same, a.value, b.value);
      assert AttrsAlike(c, same, Resolve(a.value).attrs, Resolve(b.value).attrs);
      if Resolve(a.value).attrs == [] {
        AddNothing(c, g, fields, a, depth, budget);
        AddNothing(c, h, fields, b, depth, budget);
      } else if a.key == "" {
        AddInline(c, g, fields, a, depth, budget);
        AddInline(c, h, fields, b, depth, budget);
        AddAllIgnoresSecrets(c, same, g, h, fields, Resolve(a.value).attrs, Resolve(b.value).attrs, depth, budget);
      } else {
        AddNested(c, g, fields, a, depth, budget);
        AddNested(c, h, fields, b, depth, budget);
        var (present, i, left) := OpenGroup(c, fields, a.key, depth, budget);
        AddAllIgnoresSecrets(c, same, g, h, present[i].children, Resolve(a.value).attrs, Resolve(b.value).attrs, depth + 1, left);
      }
    }
  }

  lemma {:induction false} AddAllIgnoresSecrets(c: Config, same: set<(Node, Node)>, g: Graph, h: Graph, fields: seq<Field>, a: seq<Attr>, b: seq<Attr>,
                                                depth: nat, budget: nat)
    requires GraphsAlike(c, same, g, h) && AttrsAlike(c, same, a, b)
    ensures AddAll(c, g, fields, a, depth, budget) == AddAll(c, h, fields, b, depth, budget)
    decreases Room(c, depth), a, 0
  {
    hide Add;
    if a != [] && budget > 0 {
      assert AttrsAlike(c, same, a[1..], b[1..]);
      AddIgnoresSecrets(c, same, g, h, fields, a[0], b[0], depth, budget);
      var r := Add(c, g, fields, a[0], depth, budget);
      AddAllIgnoresSecrets(c, same, g, h, r.0, a[1..], b[1..], depth, r.1);
    }
  }

  /** Under a path with a sensitive group any two attributes are alike, as long as neither is the zero attribute. */
  predicate ScopedAlike(c: Config, same: set<(Node, Node)>, s: Scoped, t: Scoped) {
    s.groups == t.groups &&
    ((s.attr != ZERO_ATTR && t.attr != ZERO_ATTR && exists i :: 0 <= i < |s.groups| && c.sensitive(s.groups[i]))
     || AttrAlike(c, same, s.attr, t.attr))
  }

  lemma {:induction false} AddUnderIgnoresSecrets(c: Config, same: set<(Node, Node)>, g: Graph, h: Graph, fields: seq<Field>, path: seq<string>,
                                                  a: Attr, b: Attr, depth: nat, budget: nat)
    requires GraphsAlike(c, same, g, h) && ScopedAlike(c, same, Scoped(path, a), Scoped(path, b))
    requires SafeFields(c, fields, depth)
    ensures AddUnder(c, g, fields, path, a, depth, budget) == AddUnder(c, h, fields, path, b, depth, budget)
    decreases |path|
  {
    hide Add, OpenGroup;
    if AttrAlike(c, same, a, b) { ZeroAlike(c, same, a, b); }
    if budget == 0 || a == ZERO_ATTR {
    } else if path == [] {
      AddIgnoresSecrets(c, same, g, h, fields, a, b, depth, budget);
    } else {
      OpenGroupSafe(c, fields, path[0], depth, budget);
      var (present, i, left) := OpenGroup(c, fields, path[0], depth, budget);
      assert SafeField(c, present[i], depth);
      if present[i].closed.None? {
        assert !c.sensitive(path[0]);
        if !AttrAlike(c, same, a, b) {
          var j :| 0 <= j < |path| && c.sensitive(path[j]);
          assert c.sensitive(path[1..][j - 1]);
        }
        AddUnderIgnoresSecrets(c, same, g, h, present[i].children, path[1..], a, b, depth + 1, left);
      }
    }
  }

  predicate AllScopedAlike(c: Config, same: set<(Node, Node)>, a: seq<Scoped>, b: seq<Scoped>) {
    |a| == |b| && forall i :: 0 <= i < |a| ==> ScopedAlike(c, same, a[i], b[i])
  }

  lemma {:induction false} AddScopedIgnoresSecrets(c: Config, same: set<(Node, Node)>, g: Graph, h: Graph, fields: seq<Field>, a: seq<Scoped>, b: seq<Scoped>, budget: nat)
    requires ProperConfig(c) && GraphsAlike(c, same, g, h) && AllScopedAlike(c, same, a, b) && SafeFields(c, fields, 1)
    ensures AddScoped(c, g, fields, a, budget) == AddScoped(c, h, fields, b, budget)
    decreases |a|
  {
    hide AddUnder, SafeFields, AttrAlike;
    if a != [] && budget > 0 {
      assert AllScopedAlike(c, same, a[1..], b[1..]);
      assert ScopedAlike(c, same, a[0], b[0]) && a[0] == Scoped(a[0].groups, a[0].attr) && b[0] == Scoped(b[0].groups, b[0].attr);
      AddUnderIgnoresSecrets(c, same, g, h, fields, a[0].groups, a[0].attr, b[0].attr, 1, budget);
      AddUnderSafe(c, g, fields, a[0].groups, a[0].attr, 1, budget);
      var r := AddUnder(c, g, fields, a[0].groups, a[0].attr, 1, budget);
      AddScopedIgnoresSecrets(c, same, g, h, r.0, a[1..], b[1..], r.1);
    }
  }

  /** Noninterference: records that differ only in what is stored under sensitive keys give the same output
      and leave the same budget. */
  lemma {:induction false} SecretsDoNotInterfere(c: Config, same: set<(Node, Node)>, g: Graph, h: Graph, fixed: seq<Scoped>, fixed': seq<Scoped>, groups: seq<string>,
                              context: seq<Attr>, context': seq<Attr>, own: seq<Attr>, own': seq<Attr>)
    requires ProperConfig(c) && GraphsAlike(c, same, g, h)
    requires AllScopedAlike(c, same, fixed, fixed')
    requires AllScopedAlike(c, same, Under(groups, context), Under(groups, context'))
    requires AllScopedAlike(c, same, Under(groups, own), Under(groups, own'))
    ensures Record(c, g, fixed, groups, context, own) == Record(c, h, fixed', groups, context', own')
  {
    hide ScopedAlike;
    AddScopedIgnoresSecrets(c, same, g, h, [], fixed + Under(groups, context) + Under(groups, own),
                            fixed' + Under(groups, context') + Under(groups, own'), c.maxAttributes);
  }

  // ----- WithGroup means Group -----

  /** slog.Group nested along a path. */
  function Nested(path: seq<string>, attrs: seq<Attr>): Attr
    requires path != []
  {
    Attr(path[0], Group(if |path| == 1 then attrs else [Nested(path[1..], attrs)]))
  }

  /** All attributes logged under one path. */
  function AddEach(c: Config, g: Graph, fields: seq<Field>, path: seq<string>, attrs: seq<Attr>, depth: nat, budget: nat)
    : (r: (seq<Field>, nat))
    ensures r.1 <= budget
    decreases |attrs|
  {
    if attrs == [] || budget == 0 then (fields, budget)
    else
      var r := AddUnder(c, g, fields, path, attrs[0], depth, budget);
      AddEach(c, g, r.0, path, attrs[1..], depth, r.1)
  }

  /** The path runs into a group that an earlier attribute left closed. */
  predicate Blocked(fields: seq<Field>, path: seq<string>)
    decreases |path|
  {
    path != [] &&
    var i := FindGroup(fields, path[0]);
    i < |fields| && (fields[i].closed.Some? || Blocked(fields[i].children, path[1..]))
  }

  predicate Named(path: seq<string>) { forall i :: 0 <= i < |path| ==> path[i] != "" }

  predicate Substantial(attrs: seq<Attr>) {
    attrs != [] && forall i :: 0 <= i < |attrs| ==> attrs[i] != ZERO_ATTR
  }

  lemma {:induction false} FoundAgain(fields: seq<Field>, i: nat, f: Field)
    requires i < |fields| && FindGroup(fields, fields[i].key) == i && fields[i].GroupField?
    requires f.GroupField? && f.key == fields[i].key
    ensures FindGroup(fields[i := f], f.key) == i
  {
    var all := fields[i := f];
    var j := FindGroup(all, f.key);
    assert all[i] == f && forall k :: 0 <= k < |all| && k != i ==> all[k] == fields[k];
    if j < i {
      assert false;
    }
  }

  lemma {:induction false} FoundAtEnd(fields: seq<Field>, f: Field)
    requires FindGroup(fields, f.key) == |fields| && f.GroupField?
    ensures FindGroup(fields + [f], f.key) == |fields|
  {
    var all := fields + [f];
    assert forall k :: 0 <= k < |fields| ==> all[k] == fields[k];
    assert all[|fields|] == f;
  }

  /** The opened group is where it will be found again. */
  lemma OpenedIsFound(c: Config, fields: seq<Field>, key: string, depth: nat, budget: nat)
    ensures var (present, i, left) := OpenGroup(c, fields, key, depth, budget);
            FindGroup(present, key) == i
  {
    if FindGroup(fields, key) == |fields| {
      FoundAtEnd(fields, GroupField(key, Placeholder(c, key, depth), []));
    }
  }

  /** Adding under a path with an open first group is adding inside that group. */
  lemma {:induction false} EachInside(c: Config, g: Graph, fields: seq<Field>, i: nat, path: seq<string>, attrs: seq<Attr>, depth: nat, budget: nat)
    requires path != [] && i < |fields| && fields[i].GroupField? && fields[i].key == path[0] && fields[i].closed.None?
    requires FindGroup(fields, path[0]) == i
    requires forall j :: 0 <= j < |attrs| ==> attrs[j] != ZERO_ATTR
    ensures var inner := AddEach(c, g, fields[i].children, path[1..], attrs, depth + 1, budget);
            AddEach(c, g, fields, path, attrs, depth, budget) == (fields[i := GroupField(path[0], None, inner.0)], inner.1)
    decreases |attrs|
  {
    hide Add, FindGroup;
    if attrs == [] || budget == 0 {
      assert fields[i := GroupField(path[0], None, fields[i].children)] == fields;
    } else {
      var r := AddUnder(c, g, fields[i].children, path[1..], attrs[0], depth + 1, budget);
      var next := fields[i := GroupField(path[0], None, r.0)];
      FoundAgain(fields, i, GroupField(path[0], None, r.0));
      assert AddUnder(c, g, fields, path, attrs[0], depth, budget) == (next, r.1);
      EachInside(c, g, next, i, path, attrs[1..], depth, r.1);
      var inner := AddEach(c, g, r.0, path[1..], attrs[1..], depth + 1, r.1);
      assert next[i := GroupField(path[0], None, inner.0)] == fields[i := GroupField(path[0], None, inner.0)];
    }
  }

  /** A closed group swallows everything logged under it. */
  lemma {:induction false} EachSwallowed(c: Config, g: Graph, fields: seq<Field>, path: seq<string>, attrs: seq<Attr>, depth: nat, budget: nat)
    requires path != [] && FindGroup(fields, path[0]) < |fields| && fields[FindGroup(fields, path[0])].closed.Some?
    ensures AddEach(c, g, fields, path, attrs, depth, budget) == (fields, budget)
    decreases |attrs|
  {
    hide Add, FindGroup;
    if attrs != [] && budget > 0 { EachSwallowed(c, g, fields, path, attrs[1..], depth, budget); }
  }

  lemma {:induction false} EachPlain(c: Config, g: Graph, fields: seq<Field>, attrs: seq<Attr>, depth: nat, budget: nat)
    ensures AddEach(c, g, fields, [], attrs, depth, budget) == AddAll(c, g, fields, attrs, depth, budget)
    decreases |attrs|
  {
    hide Add;
    if attrs != [] && budget > 0 {
      if attrs[0] == ZERO_ATTR { AddNothing(c, g, fields, attrs[0], depth, budget); }
      assert AddUnder(c, g, fields, [], attrs[0], depth, budget) == Add(c, g, fields, attrs[0], depth, budget);
      var r := Add(c, g, fields, attrs[0], depth, budget);
      EachPlain(c, g, r.0, attrs[1..], depth, r.1);
    }
  }

  function RenderOne(f: Field): Rendered {
    match f
    case Leaf(key, v) => RLeaf(key, v)
    case GroupField(key, Some(marker), _) => RLeaf(key, marker)
    case GroupField(key, None, children) => RGroup(key, Render(children))
  }

  lemma {:induction false} RenderAt(fields: seq<Field>)
    ensures |Render(fields)| == |fields|
    ensures forall i :: 0 <= i < |fields| ==> Render(fields)[i] == RenderOne(fields[i])
  {
    if fields != [] {
      RenderAt(fields[1..]);
      assert forall i :: 1 <= i < |fields| ==> Render(fields)[i] == Render(fields[1..])[i - 1];
    }
  }

  /** Two lists show the same exactly when they do at the one place where they differ. */
  lemma RenderUpdate(fields: seq<Field>, i: nat, f: Field, f': Field)
    requires i < |fields|
    ensures Render(fields[i := f]) == Render(fields[i := f']) <==> RenderOne(f) == RenderOne(f')
  {
    hide Render, RenderOne;
    RenderAt(fields[i := f]);
    RenderAt(fields[i := f']);
    var r, s := Render(fields[i := f]), Render(fields[i := f']);
    assert r[i] == RenderOne(f) && s[i] == RenderOne(f');
    assert forall j :: 0 <= j < |fields| && j != i ==> r[j] == s[j] == RenderOne(fields[j]);
  }

  lemma RenderGroups(key: string, a: seq<Field>, b: seq<Field>)
    ensures RenderOne(GroupField(key, None, a)) == RenderOne(GroupField(key, None, b)) <==> Render(a) == Render(b)
  {
    hide Render;
  }

  lemma RenderAppend(fields: seq<Field>, f: Field, f': Field)
    ensures Render(fields + [f]) == Render(fields + [f']) <==> RenderOne(f) == RenderOne(f')
  {
    hide Render, RenderOne;
    RenderUpdate(fields + [f], |fields|, f, f');
    assert (fields + [f])[|fields| := f] == fields + [f] && (fields + [f])[|fields| := f'] == fields + [f'];
  }

  lemma OpenedAgain(c: Config, fields: seq<Field>, key: string, depth: nat, budget: nat)
    ensures var (present, i, left) := OpenGroup(c, fields, key, depth, budget);
            OpenGroup(c, present, key, depth, left) == (present, i, left)
  {
    OpenedIsFound(c, fields, key, depth, budget);
  }

  /** Opening the first group of the path ahead of time changes nothing. */
  lemma EachOpens(c: Config, g: Graph, fields: seq<Field>, path: seq<string>, attrs: seq<Attr>, depth: nat, budget: nat)
    requires path != [] && Substantial(attrs) && budget > 0
    ensures var (present, i, left) := OpenGroup(c, fields, path[0], depth, budget);
            AddEach(c, g, fields, path, attrs, depth, budget) == AddEach(c, g, present, path, attrs, depth, left)
  {
    hide Add, FindGroup, OpenGroup, Placeholder;
    var (present, i, left) := OpenGroup(c, fields, path[0], depth, budget);
    OpenedAgain(c, fields, path[0], depth, budget);
    var inner := AddUnder(c, g, present[i].children, path[1..], attrs[0], depth + 1, left);
    if left == 0 {
      assert present[i := GroupField(path[0], None, present[i].children)] == present || present[i].closed.Some?;
      assert AddUnder(c, g, fields, path, attrs[0], depth, budget) == (present, 0);
    } else {
      assert AddUnder(c, g, fields, path, attrs[0], depth, budget) == AddUnder(c, g, present, path, attrs[0], depth, left);
    }
  }

  /** The same fields shown and the same budget left. */
  ghost predicate SameOutcome(r: (seq<Field>, nat), s: (seq<Field>, nat)) {
    Render(r.0) == Render(s.0) && r.1 == s.1
  }

  /** A first group that may not open: both ways leave one placeholder, unless one is already there. */
  lemma ClosedPath(c: Config, g: Graph, fields: seq<Field>, path: seq<string>, attrs: seq<Attr>, depth: nat, budget: nat)
    requires path != [] && Named(path) && Substantial(attrs) && SafeFields(c, fields, depth) && budget > 0
    requires Marked(c, path[0], depth)
    ensures SameOutcome(AddEach(c, g, fields, path, attrs, depth, budget), Add(c, g, fields, Nested(path, attrs), depth, budget))
        <==> !Blocked(fields, path)
  {
    var key := path[0];
    var marker := if c.sensitive(key) then REDACTED else CUT_OFF;
    assert RenderOne(GroupField(key, Some(marker), [])) == RenderOne(Leaf(key, marker));
    hide Add, AddUnder, AddEach, Render, RenderOne;
    AddMarked(c, g, fields, Nested(path, attrs), depth, budget);
    EachOpens(c, g, fields, path, attrs, depth, budget);
    OpenedIsFound(c, fields, key, depth, budget);
    var (present, i, left) := OpenGroup(c, fields, key, depth, budget);
    OpenGroupSafe(c, fields, key, depth, budget);
    assert SafeField(c, present[i], depth);
    EachSwallowed(c, g, present, path, attrs, depth, left);
    RenderAppend(fields, GroupField(key, Some(marker), []), Leaf(key, marker));
  }

  lemma AllOfOne(c: Config, g: Graph, fields: seq<Field>, attr: Attr, depth: nat, budget: nat)
    ensures AddAll(c, g, fields, [attr], depth, budget) == Add(c, g, fields, attr, depth, budget)
  {
    hide Add;
    if budget == 0 {
      AddNothing(c, g, fields, attr, depth, budget);
    } else {
      var r := Add(c, g, fields, attr, depth, budget);
      assert AddAll(c, g, r.0, [attr][1..], depth, r.1) == r;
    }
  }

  /** A first group that may open: both ways continue inside it. */
  lemma OpenPath(c: Config, g: Graph, fields: seq<Field>, path: seq<string>, attrs: seq<Attr>, depth: nat, budget: nat)
    requires path != [] && Named(path) && Substantial(attrs) && SafeFields(c, fields, depth) && budget > 0
    requires !Marked(c, path[0], depth)
    ensures var (present, i, left) := OpenGroup(c, fields, path[0], depth, budget);
            var inner := AddEach(c, g, present[i].children, path[1..], attrs, depth + 1, left);
            var nested := AddAll(c, g, present[i].children, Nested(path, attrs).value.attrs, depth + 1, left);
            && present[i].closed.None? && SafeFields(c, present[i].children, depth + 1)
            && (left == 0 ==> present[i].children == [])
            && AddEach(c, g, fields, path, attrs, depth, budget) == (present[i := GroupField(path[0], None, inner.0)], inner.1)
            && Add(c, g, fields, Nested(path, attrs), depth, budget) == (present[i := GroupField(path[0], None, nested.0)], nested.1)
            && (Blocked(fields, path) <==> Blocked(present[i].children, path[1..]))
  {
    hide Add, AddUnder, AddEach, AddAll;
    var (present, i, left) := OpenGroup(c, fields, path[0], depth, budget);
    OpenGroupSafe(c, fields, path[0], depth, budget);
    assert SafeField(c, present[i], depth);
    OpenedIsFound(c, fields, path[0], depth, budget);
    EachOpens(c, g, fields, path, attrs, depth, budget);
    EachInside(c, g, present, i, path, attrs, depth, left);
    AddNested(c, g, fields, Nested(path, attrs), depth, budget);
  }

  /** Logging attributes under a WithGroup path and logging one nested group show the same and leave the same
      budget, exactly when no group on the path was closed before. */
  lemma {:induction false} WithGroupIsGroup(c: Config, g: Graph, fields: seq<Field>, path: seq<string>, attrs: seq<Attr>,
                                            depth: nat, budget: nat)
    requires path != [] && Named(path) && Substantial(attrs) && SafeFields(c, fields, depth)
    ensures SameOutcome(AddEach(c, g, fields, path, attrs, depth, budget), Add(c, g, fields, Nested(path, attrs), depth, budget))
        <==> budget == 0 || !Blocked(fields, path)
    decreases |path|
  {
    var whole := Nested(path, attrs);
    if budget == 0 {
      AddNothing(c, g, fields, whole, depth, budget);
      return;
    }
    hide Add, AddUnder, AddEach, AddAll, Render, RenderOne, FindGroup, OpenGroup;
    if Marked(c, path[0], depth) {
      ClosedPath(c, g, fields, path, attrs, depth, budget);
    } else {
      var (present, i, left) := OpenGroup(c, fields, path[0], depth, budget);
      OpenPath(c, g, fields, path, attrs, depth, budget);
      var children := present[i].children;
      var inner := AddEach(c, g, children, path[1..], attrs, depth + 1, left);
      var nested := AddAll(c, g, children, whole.value.attrs, depth + 1, left);
      RenderUpdate(present, i, GroupField(path[0], None, inner.0), GroupField(path[0], None, nested.0));
      RenderGroups(path[0], inner.0, nested.0);
      if |path| == 1 {
        EachPlain(c, g, children, attrs, depth + 1, left);
      } else {
        assert whole.value.attrs == [Nested(path[1..], attrs)];
        AllOfOne(c, g, children, Nested(path[1..], attrs), depth + 1, left);
        WithGroupIsGroup(c, g, children, path[1..], attrs, depth + 1, left);
      }
    }
  }

  lemma {:induction false} ScopedIsEach(c: Config, g: Graph, fields: seq<Field>, path: seq<string>, attrs: seq<Attr>, budget: nat)
    ensures AddScoped(c, g, fields, Under(path, attrs), budget) == AddEach(c, g, fields, path, attrs, 1, budget)
    decreases |attrs|
  {
    hide AddUnder;
    if attrs != [] && budget > 0 {
      assert Under(path, attrs)[1..] == Under(path, attrs[1..]);
      var r := AddUnder(c, g, fields, path, attrs[0], 1, budget);
      ScopedIsEach(c, g, r.0, path, attrs[1..], r.1);
    }
  }

  lemma {:induction false} ScopedConcat(c: Config, g: Graph, fields: seq<Field>, a: seq<Scoped>, b: seq<Scoped>, budget: nat)
    ensures var r := AddScoped(c, g, fields, a, budget);
            AddScoped(c, g, fields, a + b, budget) == AddScoped(c, g, r.0, b, r.1)
    decreases |a|
  {
    hide AddUnder;
    if a == [] {
      assert a + b == b;
    } else if budget > 0 {
      assert (a + b)[0] == a[0] && (a + b)[1..] == a[1..] + b;
      var r := AddUnder(c, g, fields, a[0].groups, a[0].attr, 1, budget);
      ScopedConcat(c, g, r.0, a[1..], b, r.1);
    }
  }

  /** Everything after the fixed attributes, seen from the fields they left. */
  lemma RecordTail(c: Config, g: Graph, fixed: seq<Scoped>, path: seq<string>, context: seq<Attr>, own: seq<Attr>)
    ensures var before := AddScoped(c, g, [], fixed, c.maxAttributes);
            Record(c, g, fixed, path, context, own) == AddEach(c, g, before.0, path, context + own, 1, before.1)
  {
    hide AddScoped, AddEach, Under;
    var before := AddScoped(c, g, [], fixed, c.maxAttributes);
    assert fixed + Under(path, context) + Under(path, own) == fixed + Under(path, context + own);
    ScopedConcat(c, g, [], fixed, Under(path, context + own), c.maxAttributes);
    ScopedIsEach(c, g, before.0, path, context + own, before.1);
  }

  /** A handler under WithGroup and one that logs the nested group itself: the same record goes on and the same
      budget is left, unless an attribute fixed earlier left a group on the path closed. */
  lemma {:induction false} WithGroupMeansGroup(c: Config, g: Graph, fixed: seq<Scoped>, path: seq<string>, context: seq<Attr>, own: seq<Attr>)
    requires ProperConfig(c) && path != [] && Named(path) && Substantial(context + own)
    ensures var before := AddScoped(c, g, [], fixed, c.maxAttributes);
            (SameOutcome(Record(c, g, fixed, path, context, own), Record(c, g, fixed, [], [], [Nested(path, context + own)]))
             <==> before.1 == 0 || !Blocked(before.0, path))
  {
    assert SafeFields(c, [], 1);
    hide AddScoped, Add, AddAll, AddEach, Record, Blocked, SameOutcome, SafeFields, Substantial;
    var before := AddScoped(c, g, [], fixed, c.maxAttributes);
    var whole := Nested(path, context + own);
    AddScopedSafe(c, g, [], fixed, c.maxAttributes);
    RecordTail(c, g, fixed, path, context, own);
    RecordTail(c, g, fixed, [], [], [whole]);
    assert [] + [whole] == [whole];
    EachPlain(c, g, before.0, [whole], 1, before.1);
    AllOfOne(c, g, before.0, whole, 1, before.1);
    WithGroupIsGroup(c, g, before.0, path, context + own, 1, before.1);
  }

  // ----- which paths are closed, in terms of what was logged -----

  /** The two paths run together down to a group that may not open. */
  predicate ClosesOn(c: Config, groups: seq<string>, path: seq<string>, depth: nat)
    decreases |path|
  {
    groups != [] && path != [] && groups[0] == path[0]
    && (Marked(c, path[0], depth) || ClosesOn(c, groups[1..], path[1..], depth + 1))
  }

  /** Appending or updating anything but the first group of the path leaves the path as it was. */
  lemma {:induction false} FindElsewhere(fields: seq<Field>, i: nat, f: Field, key: string)
    requires i < |fields| && fields[i].GroupField? && f.GroupField? && f.key == fields[i].key != key
    ensures FindGroup(fields[i := f], key) == FindGroup(fields, key)
  {
    var all := fields[i := f];
    var j, k := FindGroup(fields, key), FindGroup(all, key);
    assert all[i] == f && forall n :: 0 <= n < |all| && n != i ==> all[n] == fields[n];
  }

  lemma {:induction false} FindBefore(fields: seq<Field>, f: Field, key: string)
    requires f.GroupField? ==> f.key != key
    ensures var n := FindGroup(fields, key);
            FindGroup(fields + [f], key) == if n < |fields| then n else |fields| + 1
  {
    var all := fields + [f];
    var j, k := FindGroup(fields, key), FindGroup(all, key);
    assert all[|fields|] == f && forall n :: 0 <= n < |fields| ==> all[n] == fields[n];
    assert j == |fields| ==> k == |all|;
  }

  lemma BlockedAppend(fields: seq<Field>, f: Field, path: seq<string>)
    requires f.Leaf? || (path != [] && f.key != path[0])
    ensures Blocked(fields + [f], path) <==> Blocked(fields, path)
  {
    if path != [] {
      FindBefore(fields, f, path[0]);
    }
  }

  lemma BlockedUpdate(fields: seq<Field>, i: nat, f: Field, path: seq<string>)
    requires i < |fields| && fields[i].GroupField? && f.GroupField? && f.key == fields[i].key && f.closed == fields[i].closed
    requires path != [] && (path[0] == f.key ==> FindGroup(fields, f.key) == i)
    requires path[0] == f.key && f.closed.None? ==>
               (Blocked(f.children, path[1..]) <==> Blocked(fields[i].children, path[1..]))
    ensures Blocked(fields[i := f], path) <==> Blocked(fields, path)
  {
    if path[0] == f.key {
      FoundAgain(fields, i, f);
    } else {
      FindElsewhere(fields, i, f, path[0]);
    }
  }

  /** Opening a group blocks a path exactly when it is the path's first group, new, and may not open. */
  lemma OpenedBlocks(c: Config, fields: seq<Field>, key: string, depth: nat, budget: nat, path: seq<string>)
    requires SafeFields(c, fields, depth) && path != [] && key != ""
    ensures var (present, i, left) := OpenGroup(c, fields, key, depth, budget);
            Blocked(present, path) <==> Blocked(fields, path) || (key == path[0] && Marked(c, key, depth))
  {
    var (present, i, left) := OpenGroup(c, fields, key, depth, budget);
    var n := FindGroup(fields, key);
    if n < |fields| {
      assert SafeField(c, fields[n], depth);
    } else if key == path[0] {
      FoundAtEnd(fields, GroupField(key, Placeholder(c, key, depth), []));
    } else {
      BlockedAppend(fields, GroupField(key, Placeholder(c, key, depth), []), path);
    }
  }

  lemma PathlessIsOpen(fields: seq<Field>)
    ensures !Blocked(fields, [])
  {
  }

  lemma SafeInside(c: Config, fields: seq<Field>, i: nat, depth: nat)
    requires SafeFields(c, fields, depth) && i < |fields| && fields[i].GroupField?
    ensures fields[i].closed == Placeholder(c, fields[i].key, depth)
    ensures fields[i].closed.None? ==> SafeFields(c, fields[i].children, depth + 1)
  {
    assert SafeField(c, fields[i], depth);
  }

  /** Attributes logged without a path close nothing. */
  lemma {:induction false} AddKeepsBlocked(c: Config, g: Graph, fields: seq<Field>, a: Attr, depth: nat, budget: nat, path: seq<string>)
    requires ProperConfig(c) && SafeFields(c, fields, depth)
    ensures Blocked(Add(c, g, fields, a, depth, budget).0, path) <==> Blocked(fields, path)
    decreases Room(c, depth), a, 1
  {
    hide Add, AddAll, Clean, OpenGroup, Blocked, SafeFields, FindGroup;
    var v := Resolve(a.value);
    if path == [] {
      PathlessIsOpen(Add(c, g, fields, a, depth, budget).0);
      PathlessIsOpen(fields);
    } else if budget == 0 || a == ZERO_ATTR || (!Marked(c, a.key, depth) && v == Group([])) {
      AddNothing(c, g, fields, a, depth, budget);
    } else if Marked(c, a.key, depth) {
      AddMarked(c, g, fields, a, depth, budget);
      BlockedAppend(fields, Leaf(a.key, if c.sensitive(a.key) then REDACTED else CUT_OFF), path);
    } else if !v.Group? {
      AddLeaf(c, g, fields, a, depth, budget);
      BlockedAppend(fields, Leaf(a.key, Clean(c, g, v, depth, budget - 1).0), path);
    } else if a.key == "" {
      AddInline(c, g, fields, a, depth, budget);
      AddAllKeepsBlocked(c, g, fields, v.attrs, depth, budget, path);
    } else {
      AddNested(c, g, fields, a, depth, budget);
      var (present, i, left) := OpenGroup(c, fields, a.key, depth, budget);
      OpenedBlocks(c, fields, a.key, depth, budget, path);
      OpenedIsFound(c, fields, a.key, depth, budget);
      OpenGroupSafe(c, fields, a.key, depth, budget);
      SafeInside(c, present, i, depth);
      var r := AddAll(c, g, present[i].children, v.attrs, depth + 1, left);
      assert present[i].closed.None?;
      AddAllKeepsBlocked(c, g, present[i].children, v.attrs, depth + 1, left, path[1..]);
      BlockedUpdate(present, i, GroupField(a.key, present[i].closed, r.0), path);
    }
  }

  lemma {:induction false} AddAllKeepsBlocked(c: Config, g: Graph, fields: seq<Field>, attrs: seq<Attr>, depth: nat, budget: nat,
                                              path: seq<string>)
    requires ProperConfig(c) && SafeFields(c, fields, depth)
    ensures Blocked(AddAll(c, g, fields, attrs, depth, budget).0, path) <==> Blocked(fields, path)
    decreases Room(c, depth), attrs, 0
  {
    hide Add, Blocked, SafeFields;
    if attrs != [] && budget > 0 {
      AddKeepsBlocked(c, g, fields, attrs[0], depth, budget, path);
      AddSafe(c, g, fields, attrs[0], depth, budget);
      var r := Add(c, g, fields, attrs[0], depth, budget);
      AddAllKeepsBlocked(c, g, r.0, attrs[1..], depth, r.1, path);
    }
  }

  lemma BlockedInside(fields: seq<Field>, i: nat, f: Field, path: seq<string>)
    requires i < |fields| && fields[i].GroupField? && f.GroupField? && f.key == fields[i].key
    requires path != [] && path[0] == f.key && FindGroup(fields, f.key) == i && Blocked(f.children, path[1..])
    ensures Blocked(fields[i := f], path)
  {
    FoundAgain(fields, i, f);
  }

  lemma MarkedCloses(c: Config, key: string, depth: nat)
    requires key != ""
    ensures Placeholder(c, key, depth).Some? <==> Marked(c, key, depth)
  {
  }

  /** An attribute logged under groups blocks a path exactly when the two run together down to a closed group;
      as long as budget is left. */
  lemma {:induction false} AddUnderBlocks(c: Config, g: Graph, fields: seq<Field>, groups: seq<string>, a: Attr, depth: nat, budget: nat,
                                          path: seq<string>)
    requires ProperConfig(c) && SafeFields(c, fields, depth) && Named(groups)
    requires AddUnder(c, g, fields, groups, a, depth, budget).1 > 0
    ensures Blocked(AddUnder(c, g, fields, groups, a, depth, budget).0, path)
        <==> Blocked(fields, path) || (a != ZERO_ATTR && ClosesOn(c, groups, path, depth))
    decreases |groups|
  {
    hide Add, OpenGroup, Blocked, SafeFields, FindGroup, Marked;
    if a == ZERO_ATTR {
    } else if path == [] {
      PathlessIsOpen(AddUnder(c, g, fields, groups, a, depth, budget).0);
      PathlessIsOpen(fields);
    } else if groups == [] {
      AddKeepsBlocked(c, g, fields, a, depth, budget, path);
    } else {
      var (present, i, left) := OpenGroup(c, fields, groups[0], depth, budget);
      OpenedBlocks(c, fields, groups[0], depth, budget, path);
      OpenedIsFound(c, fields, groups[0], depth, budget);
      OpenGroupSafe(c, fields, groups[0], depth, budget);
      SafeInside(c, present, i, depth);
      MarkedCloses(c, groups[0], depth);
      if present[i].closed.None? {
        var r := AddUnder(c, g, present[i].children, groups[1..], a, depth + 1, left);
        AddUnderBlocks(c, g, present[i].children, groups[1..], a, depth + 1, left, path[1..]);
        if groups[0] != path[0] || (!ClosesOn(c, groups[1..], path[1..], depth + 1)) {
          BlockedUpdate(present, i, GroupField(groups[0], None, r.0), path);
        } else {
          BlockedInside(present, i, GroupField(groups[0], None, r.0), path);
        }
      }
    }
  }

  /** An earlier attribute shares the path down to a group that may not open. */
  predicate SomeCloses(c: Config, fixed: seq<Scoped>, path: seq<string>) {
    exists i :: 0 <= i < |fixed| && fixed[i].attr != ZERO_ATTR && ClosesOn(c, fixed[i].groups, path, 1)
  }

  predicate AllNamed(fixed: seq<Scoped>) {
    forall i :: 0 <= i < |fixed| ==> Named(fixed[i].groups)
  }

  lemma {:induction false} AddScopedBlocks(c: Config, g: Graph, fields: seq<Field>, fixed: seq<Scoped>, budget: nat, path: seq<string>)
    requires ProperConfig(c) && SafeFields(c, fields, 1) && AllNamed(fixed)
    requires AddScoped(c, g, fields, fixed, budget).1 > 0
    ensures Blocked(AddScoped(c, g, fields, fixed, budget).0, path) <==> Blocked(fields, path) || SomeCloses(c, fixed, path)
    decreases |fixed|
  {
    hide AddUnder, Blocked, SafeFields, ClosesOn, Named;
    if fixed != [] {
      var s, rest := fixed[0], fixed[1..];
      var r := AddUnder(c, g, fields, s.groups, s.attr, 1, budget);
      assert AllNamed(rest) by { assert forall i :: 0 <= i < |rest| ==> rest[i] == fixed[i + 1]; }
      AddUnderSafe(c, g, fields, s.groups, s.attr, 1, budget);
      AddUnderBlocks(c, g, fields, s.groups, s.attr, 1, budget, path);
      AddScopedBlocks(c, g, r.0, rest, r.1, path);
      assert SomeCloses(c, fixed, path) <==> (s.attr != ZERO_ATTR && ClosesOn(c, s.groups, path, 1)) || SomeCloses(c, rest, path) by {
        assert forall i :: 0 <= i < |rest| ==> rest[i] == fixed[i + 1];
        assert forall i :: 1 <= i < |fixed| ==> fixed[i] == rest[i - 1];
      }
    }
  }

  /** The condition in terms of what was logged: the two handlers agree if and only if the fixed attributes used up
      the budget, or none of them was logged under groups that share the path down to a group that is sensitive or
      too deep. */
  lemma {:induction false} WithGroupMeansGroupByInput(c: Config, g: Graph, fixed: seq<Scoped>, path: seq<string>, context: seq<Attr>, own: seq<Attr>)
    requires ProperConfig(c) && path != [] && Named(path) && Substantial(context + own) && AllNamed(fixed)
    ensures SameOutcome(Record(c, g, fixed, path, context, own), Record(c, g, fixed, [], [], [Nested(path, context + own)]))
        <==> AddScoped(c, g, [], fixed, c.maxAttributes).1 == 0 || !SomeCloses(c, fixed, path)
  {
    assert SafeFields(c, [], 1) && !Blocked([], path);
    hide AddScoped, Record, Blocked, SameOutcome, SafeFields, Substantial, SomeCloses, AllNamed;
    WithGroupMeansGroup(c, g, fixed, path, context, own);
    if AddScoped(c, g, [], fixed, c.maxAttributes).1 > 0 { AddScopedBlocks(c, g, [], fixed, c.maxAttributes, path); }
  }

  /** The difference is real: two earlier loggers redacting under the same group name. */
  lemma ClosedGroupSwallows(c: Config, g: Graph, key: string, a: Attr)
    requires ProperConfig(c) && c.sensitive(key) && c.maxAttributes >= 2 && a != ZERO_ATTR
    ensures var fixed := [Scoped([key], a)];
            && Record(c, g, fixed, [key], [], [a]).1 == c.maxAttributes - 1
            && Record(c, g, fixed, [], [], [Nested([key], [a])]).1 == c.maxAttributes - 2
            && Render(Record(c, g, fixed, [key], [], [a]).0) == [RLeaf(key, REDACTED)]
            && Render(Record(c, g, fixed, [], [], [Nested([key], [a])]).0) == [RLeaf(key, REDACTED), RLeaf(key, REDACTED)]
  {
    hide Add;
    var closed := [GroupField(key, Some(REDACTED), [])];
    var n := c.maxAttributes;
    var first := Scoped([key], a);
    var whole := Nested([key], [a]);
    assert AddUnder(c, g, [], [key], a, 1, n) == (closed, n - 1) by { assert [] + closed == closed; }
    assert AddUnder(c, g, closed, [key], a, 1, n - 1) == (closed, n - 1);
    assert key != "";
    AddMarked(c, g, closed, whole, 1, n - 1);
    assert [first] + Under([key], []) + Under([key], [a]) == [first, first];
    assert AddScoped(c, g, [], [first, first], n) == (closed, n - 1) by {
      assert [first, first][1..] == [first] && [first][1..] == [];
      assert AddScoped(c, g, closed, [first], n - 1) == (closed, n - 1);
    }
    var last := Scoped([], whole);
    assert [first] + Under([], []) + Under([], [whole]) == [first, last];
    assert AddScoped(c, g, [], [first, last], n) == (closed + [Leaf(key, REDACTED)], n - 2) by {
      assert [first, last][1..] == [last] && [last][1..] == [];
      assert AddScoped(c, g, closed, [last], n - 1) == (closed + [Leaf(key, REDACTED)], n - 2);
      assert AddUnder(c, g, closed, [], whole, 1, n - 1) == (closed + [Leaf(key, REDACTED)], n - 2);
    }
    assert Render(closed) == [RLeaf(key, REDACTED)];
    RenderAt(closed + [Leaf(key, REDACTED)]);
  }
}
