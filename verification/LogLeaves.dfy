/** What a whole record keeps: under every path of groups the next handler finds exactly the attributes logged
    there, in the order they were logged, each with its key and its value. */
module LogLeaves {
  import opened Optional
  import opened LogSanitizer
  import opened LogPython
  import opened LogFidelity

  // ----- what was logged under a path -----

  /** Of one attribute: the attributes it puts under a path of groups. Groups without a name stand for their
      attributes, and what lies under a sensitive key is not looked into. */
  function AttrLeaves(c: Config, a: Attr, path: seq<string>): seq<Attr>
    decreases a, 1
  {
    if a == ZERO_ATTR then []
    else if a.key != "" && c.sensitive(a.key) then if path == [] then [a] else []
    else
      var v := Resolve(a.value);
      if !v.Group? then if path == [] then [a] else []
      else if a.key == "" then AttrsLeaves(c, v.attrs, path)
      else if path != [] && path[0] == a.key then AttrsLeaves(c, v.attrs, path[1..])
      else []
  }

  function AttrsLeaves(c: Config, attrs: seq<Attr>, path: seq<string>): seq<Attr>
    decreases attrs, 0
  {
    if attrs == [] then [] else AttrLeaves(c, attrs[0], path) + AttrsLeaves(c, attrs[1..], path)
  }

  /** Of an attribute logged under WithGroup. */
  function UnderLeaves(c: Config, groups: seq<string>, a: Attr, path: seq<string>): seq<Attr> {
    if groups <= path then AttrLeaves(c, a, path[|groups|..]) else []
  }

  function ScopedLeaves(c: Config, attrs: seq<Scoped>, path: seq<string>): seq<Attr> {
    if attrs == [] then [] else UnderLeaves(c, attrs[0].groups, attrs[0].attr, path) + ScopedLeaves(c, attrs[1..], path)
  }

  // ----- what is found under a path -----

  function LeafOf(f: Field): seq<OutEntry> { if f.Leaf? then [OutEntry(f.key, f.value)] else [] }

  function Leaves(fields: seq<Field>): seq<OutEntry> {
    if fields == [] then [] else LeafOf(fields[0]) + Leaves(fields[1..])
  }

  function FieldLeaves(fields: seq<Field>, path: seq<string>): seq<OutEntry> {
    if path == [] then Leaves(fields)
    else
      var i := FindGroup(fields, path[0]);
      if i < |fields| then FieldLeaves(fields[i].children, path[1..]) else []
  }

  /** What the next handler is given: its leaves, and its first group of a name. */
  function OwnLeaves(attrs: seq<Rendered>): seq<OutEntry> {
    if attrs == [] then []
    else (if attrs[0].RLeaf? then [OutEntry(attrs[0].key, attrs[0].value)] else []) + OwnLeaves(attrs[1..])
  }

  function GroupAt(attrs: seq<Rendered>, key: string): (i: nat)
    ensures i <= |attrs|
    ensures i < |attrs| ==> attrs[i].RGroup? && attrs[i].key == key
  {
    if attrs == [] || (attrs[0].RGroup? && attrs[0].key == key) then 0 else 1 + GroupAt(attrs[1..], key)
  }

  function LeavesAt(attrs: seq<Rendered>, path: seq<string>): seq<OutEntry>
    decreases |path|
  {
    if path == [] then OwnLeaves(attrs)
    else
      var i := GroupAt(attrs, path[0]);
      if i < |attrs| then LeavesAt(attrs[i].children, path[1..]) else []
  }

  predicate AllOpen(fields: seq<Field>) {
    forall i :: 0 <= i < |fields| && fields[i].GroupField? ==> fields[i].closed.None? && AllOpen(fields[i].children)
  }

  lemma {:induction false} RenderAt(fields: seq<Field>, i: nat)
    requires i < |fields|
    ensures |Render(fields)| == |fields|
    ensures Render(fields)[i] == match fields[i]
                                 case Leaf(key, v) => RLeaf(key, v)
                                 case GroupField(key, Some(marker), _) => RLeaf(key, marker)
                                 case GroupField(key, None, children) => RGroup(key, Render(children))
    decreases |fields|
  {
    if |fields| > 1 { RenderAt(fields[1..], if i == 0 then 0 else i - 1); }
  }

  lemma {:induction false} RenderTop(fields: seq<Field>, key: string)
    requires AllOpen(fields)
    ensures OwnLeaves(Render(fields)) == Leaves(fields) && GroupAt(Render(fields), key) == FindGroup(fields, key)
    decreases |fields|
  {
    if fields != [] {
      RenderTop(fields[1..], key);
      RenderAt(fields, 0);
      assert Render(fields)[1..] == Render(fields[1..]);
    }
  }

  lemma {:induction false} RenderedLeaves(fields: seq<Field>, path: seq<string>)
    requires AllOpen(fields)
    ensures LeavesAt(Render(fields), path) == FieldLeaves(fields, path)
    decreases |path|
  {
    if path == [] {
      RenderTop(fields, "");
    } else {
      RenderTop(fields, path[0]);
      var i := FindGroup(fields, path[0]);
      if i < |fields| {
        RenderAt(fields, i);
        RenderedLeaves(fields[i].children, path[1..]);
      } else if fields != [] {
        RenderAt(fields, 0);
      }
    }
  }

  // ----- changing fields -----

  lemma {:induction false} FindInAppend(fields: seq<Field>, f: Field, key: string)
    ensures FindGroup(fields + [f], key)
         == if FindGroup(fields, key) < |fields| then FindGroup(fields, key)
            else if f.GroupField? && f.key == key then |fields| else |fields| + 1
  {
    if fields == [] {
      assert [f][1..] == [] && fields + [f] == [f];
    } else {
      assert (fields + [f])[1..] == fields[1..] + [f];
      FindInAppend(fields[1..], f, key);
    }
  }

  lemma {:induction false} LeavesOfAppend(fields: seq<Field>, f: Field)
    ensures Leaves(fields + [f]) == Leaves(fields) + LeafOf(f)
  {
    hide LeafOf;
    if fields == [] {
      assert fields + [f] == [f];
      assert [f][1..] == [];
      assert Leaves([f]) == LeafOf(f) + Leaves([]);
      assert Leaves([]) == [];
    } else {
      var rest := fields[1..];
      assert (fields + [f])[1..] == rest + [f];
      LeavesOfAppend(rest, f);
      assert LeafOf(fields[0]) + (Leaves(rest) + LeafOf(f)) == LeafOf(fields[0]) + Leaves(rest) + LeafOf(f);
    }
  }

  lemma EmptyLeaves(path: seq<string>)
    ensures FieldLeaves([], path) == []
  {
  }

  /** A new leaf is found at the end of its level and nowhere else; a new group holds nothing. */
  lemma AppendLeaves(fields: seq<Field>, f: Field, path: seq<string>)
    requires f.GroupField? ==> f.children == [] && FindGroup(fields, f.key) == |fields|
    ensures FieldLeaves(fields + [f], path)
         == FieldLeaves(fields, path) + if path == [] then LeafOf(f) else []
  {
    if path == [] {
      LeavesOfAppend(fields, f);
    } else {
      FindInAppend(fields, f, path[0]);
      EmptyLeaves(path[1..]);
    }
  }

  lemma {:induction false} FindInUpdate(fields: seq<Field>, i: nat, f: Field, key: string)
    requires i < |fields| && fields[i].GroupField? && f.GroupField? && f.key == fields[i].key
    ensures FindGroup(fields[i := f], key) == FindGroup(fields, key) && Leaves(fields[i := f]) == Leaves(fields)
  {
    if i > 0 {
      assert fields[i := f][1..] == fields[1..][i - 1 := f];
      FindInUpdate(fields[1..], i - 1, f, key);
    } else {
      assert fields[i := f][1..] == fields[1..];
    }
  }

  /** Changing what the group of a name holds changes what is found under that name and nothing else. */
  lemma UpdateLeaves(fields: seq<Field>, key: string, children: seq<Field>, path: seq<string>)
    requires FindGroup(fields, key) < |fields|
    ensures var i := FindGroup(fields, key);
            var next := fields[i := GroupField(key, fields[i].closed, children)];
            FieldLeaves(next, path) == if path != [] && path[0] == key then FieldLeaves(children, path[1..]) else FieldLeaves(fields, path)
  {
    var i := FindGroup(fields, key);
    var f := GroupField(key, fields[i].closed, children);
    FindInUpdate(fields, i, f, if path == [] then key else path[0]);
    if path != [] && path[0] != key {
      var j := FindGroup(fields, path[0]);
      assert j < |fields| ==> fields[i := f][j] == fields[j];
    }
  }

  // ----- what an attribute adds -----

  /** After it the level holds what it held before and then these attributes, each shown. */
  ghost predicate Extends(c: Config, g: Graph, before: seq<OutEntry>, added: seq<Attr>, after: seq<OutEntry>) {
    && before <= after && |after| == |before| + |added|
    && forall i :: 0 <= i < |added| ==>
         after[|before| + i].key == added[i].key && ShowsAs(c, g, added[i].key, added[i].value, after[|before| + i].value)
  }

  lemma ExtendsNothing(c: Config, g: Graph, before: seq<OutEntry>)
    ensures Extends(c, g, before, [], before)
  {
  }

  lemma ExtendsOne(c: Config, g: Graph, before: seq<OutEntry>, a: Attr, o: Out)
    requires ShowsAs(c, g, a.key, a.value, o)
    ensures Extends(c, g, before, [a], before + [OutEntry(a.key, o)])
  {
    hide ShowsAs;
  }

  lemma ExtendsOn(c: Config, g: Graph, x: seq<OutEntry>, a: seq<Attr>, y: seq<OutEntry>, b: seq<Attr>, z: seq<OutEntry>)
    requires Extends(c, g, x, a, y) && Extends(c, g, y, b, z)
    ensures Extends(c, g, x, a + b, z)
  {
    hide ShowsAs;
    var all := a + b;
    forall i | 0 <= i < |all|
      ensures z[|x| + i].key == all[i].key && ShowsAs(c, g, all[i].key, all[i].value, z[|x| + i].value)
    {
      if i < |a| {
        assert z[|x| + i] == y[|x| + i];
      } else {
        assert |x| + i == |y| + (i - |a|) && all[i] == b[i - |a|];
      }
    }
  }

  /** Data within the limits, as an attribute at this depth. */
  predicate PlainAttr(c: Config, g: Graph, a: Attr, depth: nat)
    decreases a, 1
  {
    || a == ZERO_ATTR
    || (a.key != "" && c.sensitive(a.key))
    || (depth <= c.maxDepth
        && var v := Resolve(a.value);
           if !v.Group? then Plain(c, g, v, depth)
           else PlainAttrs(c, g, v.attrs, if a.key == "" then depth else depth + 1))
  }

  predicate PlainAttrs(c: Config, g: Graph, attrs: seq<Attr>, depth: nat)
    decreases attrs, 0
  {
    attrs == [] || (PlainAttr(c, g, attrs[0], depth) && PlainAttrs(c, g, attrs[1..], depth))
  }

  lemma {:induction false} NoWeightNoLeaves(c: Config, g: Graph, a: Attr, depth: nat, path: seq<string>)
    requires AttrWeight(c, g, a, depth) == 0
    ensures AttrLeaves(c, a, path) == []
    decreases a, 1
  {
    hide Weight;
    if a != ZERO_ATTR && !(a.key != "" && c.sensitive(a.key)) {
      var v := Resolve(a.value);
      if v.Group? && a.key == "" { NoWeightsNoLeaves(c, g, v.attrs, depth, path); }
    }
  }

  lemma {:induction false} NoWeightsNoLeaves(c: Config, g: Graph, attrs: seq<Attr>, depth: nat, path: seq<string>)
    requires AttrsWeight(c, g, attrs, depth) == 0
    ensures AttrsLeaves(c, attrs, path) == []
    decreases attrs, 0
  {
    if attrs != [] {
      NoWeightNoLeaves(c, g, attrs[0], depth, path);
      NoWeightsNoLeaves(c, g, attrs[1..], depth, path);
    }
  }

  /** An open group of the name, with what it held. */
  lemma OpenGroupKeeps(c: Config, fields: seq<Field>, key: string, depth: nat, budget: nat, path: seq<string>)
    requires AllOpen(fields) && !c.sensitive(key) && depth <= c.maxDepth
    ensures var (present, i, left) := OpenGroup(c, fields, key, depth, budget);
            && AllOpen(present) && i == FindGroup(present, key) && present[i].closed.None? && budget <= left + 1
            && FieldLeaves(present, path) == FieldLeaves(fields, path)
  {
    var f := GroupField(key, None, []);
    if FindGroup(fields, key) == |fields| {
      AppendLeaves(fields, f, path);
      FindInAppend(fields, f, key);
    }
  }

  lemma GroupUpdated(fields: seq<Field>, i: nat, key: string, children: seq<Field>)
    requires AllOpen(fields) && i < |fields| && AllOpen(children)
    ensures AllOpen(fields[i := GroupField(key, None, children)])
  {
  }

  ghost predicate Kept(c: Config, g: Graph, fields: seq<Field>, added: seq<Attr>, next: seq<Field>, path: seq<string>) {
    AllOpen(next) && Extends(c, g, FieldLeaves(fields, path), added, FieldLeaves(next, path))
  }

  lemma LeafKept(c: Config, g: Graph, fields: seq<Field>, a: Attr, o: Out, path: seq<string>)
    requires AllOpen(fields) && ShowsAs(c, g, a.key, a.value, o)
    ensures Kept(c, g, fields, if path == [] then [a] else [], fields + [Leaf(a.key, o)], path)
  {
    AppendLeaves(fields, Leaf(a.key, o), path);
    ExtendsOne(c, g, FieldLeaves(fields, path), a, o);
    ExtendsNothing(c, g, FieldLeaves(fields, path));
    hide FieldLeaves, Extends, ShowsAs;
    assert FieldLeaves(fields, path) + [] == FieldLeaves(fields, path);
  }

  /** Adding to the group of a name. */
  lemma GroupKept(c: Config, g: Graph, fields: seq<Field>, present: seq<Field>, key: string, added: seq<Attr>, children: seq<Field>,
                  path: seq<string>)
    requires AllOpen(present) && FieldLeaves(present, path) == FieldLeaves(fields, path)
    requires FindGroup(present, key) < |present|
    requires AllOpen(children)
    requires path != [] && path[0] == key ==>
               Extends(c, g, FieldLeaves(present[FindGroup(present, key)].children, path[1..]), added, FieldLeaves(children, path[1..]))
    ensures var i := FindGroup(present, key);
            Kept(c, g, fields, if path != [] && path[0] == key then added else [], present[i := GroupField(key, None, children)], path)
  {
    var i := FindGroup(present, key);
    assert present[i].closed.None?;
    UpdateLeaves(present, key, children, path);
    GroupUpdated(present, i, key, children);
    ExtendsNothing(c, g, FieldLeaves(fields, path));
    hide Extends, AllOpen;
  }

  lemma {:induction false} AddKeeps(c: Config, g: Graph, fields: seq<Field>, a: Attr, depth: nat, budget: nat, path: seq<string>)
    requires ProperConfig(c) && AllOpen(fields) && PlainAttr(c, g, a, depth)
    requires Affords(AttrWeight(c, g, a, depth), budget, Add(c, g, fields, a, depth, budget).1)
    ensures var r := Add(c, g, fields, a, depth, budget);
            budget <= r.1 + AttrWeight(c, g, a, depth) && Kept(c, g, fields, AttrLeaves(c, a, path), r.0, path)
    decreases Room(c, depth), a, 1
  {
    hide Clean, AddAll, OpenGroup, Weight, AttrsWeight, Shows, Plain, FieldLeaves, Extends, AttrsLeaves;
    ExtendsNothing(c, g, FieldLeaves(fields, path));
    if a == ZERO_ATTR {
    } else if budget == 0 {
      NoWeightNoLeaves(c, g, a, depth, path);
    } else if a.key != "" && c.sensitive(a.key) {
      LeafKept(c, g, fields, a, REDACTED, path);
    } else {
      var v := Resolve(a.value);
      if !v.Group? {
        CleanShows(c, g, v, depth, budget - 1);
        var o := Clean(c, g, v, depth, budget - 1).0;
        ResolvedShows(c, g, a.value, o);
        LeafKept(c, g, fields, a, o, path);
      } else if v.attrs == [] {
        NoWeightNoLeaves(c, g, a, depth, path);
      } else if a.key == "" {
        AddAllKeeps(c, g, fields, v.attrs, depth, budget, path);
      } else {
        OpenGroupKeeps(c, fields, a.key, depth, budget, path);
        var (present, i, left) := OpenGroup(c, fields, a.key, depth, budget);
        assert AllOpen(present[i].children);
        var inner := if path == [] then [] else path[1..];
        AddAllKeeps(c, g, present[i].children, v.attrs, depth + 1, left, inner);
        var r := AddAll(c, g, present[i].children, v.attrs, depth + 1, left);
        GroupKept(c, g, fields, present, a.key, AttrsLeaves(c, v.attrs, inner), r.0, path);
      }
    }
  }

  lemma {:induction false} AddAllKeeps(c: Config, g: Graph, fields: seq<Field>, attrs: seq<Attr>, depth: nat, budget: nat,
                                       path: seq<string>)
    requires ProperConfig(c) && AllOpen(fields) && PlainAttrs(c, g, attrs, depth)
    requires Affords(AttrsWeight(c, g, attrs, depth), budget, AddAll(c, g, fields, attrs, depth, budget).1)
    ensures var r := AddAll(c, g, fields, attrs, depth, budget);
            budget <= r.1 + AttrsWeight(c, g, attrs, depth) && Kept(c, g, fields, AttrsLeaves(c, attrs, path), r.0, path)
    decreases Room(c, depth), attrs, 0
  {
    hide Add, AttrWeight, AttrLeaves, PlainAttr, FieldLeaves, Extends, AllOpen;
    ExtendsNothing(c, g, FieldLeaves(fields, path));
    if attrs == [] {
    } else if budget == 0 {
      NoWeightsNoLeaves(c, g, attrs, depth, path);
    } else {
      var head := Add(c, g, fields, attrs[0], depth, budget);
      AddKeeps(c, g, fields, attrs[0], depth, budget, path);
      AddAllKeeps(c, g, head.0, attrs[1..], depth, head.1, path);
      var r := AddAll(c, g, fields, attrs, depth, budget);
      ExtendsOn(c, g, FieldLeaves(fields, path), AttrLeaves(c, attrs[0], path), FieldLeaves(head.0, path),
                AttrsLeaves(c, attrs[1..], path), FieldLeaves(r.0, path));
    }
  }

  // ----- a whole record -----

  /** Within the limits, under open groups. */
  predicate PlainScoped(c: Config, g: Graph, s: Scoped, depth: nat) {
    || s.attr == ZERO_ATTR
    || ((forall i :: 0 <= i < |s.groups| ==> !c.sensitive(s.groups[i]))
        && depth + |s.groups| <= c.maxDepth + 1 && PlainAttr(c, g, s.attr, depth + |s.groups|))
  }

  function ScopedWeight(c: Config, g: Graph, s: Scoped, depth: nat): nat {
    if s.attr == ZERO_ATTR then 0 else |s.groups| + AttrWeight(c, g, s.attr, depth + |s.groups|)
  }

  /** Counts a group once for each attribute logged under it. */
  function RecordWeight(c: Config, g: Graph, attrs: seq<Scoped>): nat {
    if attrs == [] then 0 else ScopedWeight(c, g, attrs[0], 1) + RecordWeight(c, g, attrs[1..])
  }

  lemma UnderGroup(c: Config, group: string, groups: seq<string>, a: Attr, path: seq<string>)
    ensures UnderLeaves(c, [group] + groups, a, path)
         == if path != [] && path[0] == group then UnderLeaves(c, groups, a, path[1..]) else []
  {
    hide AttrLeaves;
    if path != [] {
      assert path == [path[0]] + path[1..];
      if path[0] == group && groups <= path[1..] {
        assert path[1..][|groups|..] == path[|groups| + 1..];
        assert [group] + groups <= path;
      }
      if [group] + groups <= path {
        assert path[0] == ([group] + groups)[0] && groups == ([group] + groups)[1..] == path[1..][..|groups|];
      }
    }
  }

  lemma PlainInside(c: Config, g: Graph, groups: seq<string>, a: Attr, depth: nat)
    requires groups != [] && a != ZERO_ATTR && PlainScoped(c, g, Scoped(groups, a), depth)
    ensures !c.sensitive(groups[0]) && depth <= c.maxDepth && PlainScoped(c, g, Scoped(groups[1..], a), depth + 1)
    ensures ScopedWeight(c, g, Scoped(groups, a), depth) == 1 + ScopedWeight(c, g, Scoped(groups[1..], a), depth + 1)
  {
    hide PlainAttr, AttrWeight;
    assert forall j :: 0 <= j < |groups[1..]| ==> groups[1..][j] == groups[j + 1];
  }

  lemma ZeroLeaves(c: Config, groups: seq<string>, path: seq<string>)
    ensures UnderLeaves(c, groups, ZERO_ATTR, path) == []
  {
  }

  lemma {:induction false} AddUnderKeeps(c: Config, g: Graph, fields: seq<Field>, groups: seq<string>, a: Attr, depth: nat, budget: nat,
                                         path: seq<string>)
    requires ProperConfig(c) && AllOpen(fields) && PlainScoped(c, g, Scoped(groups, a), depth)
    requires Affords(ScopedWeight(c, g, Scoped(groups, a), depth), budget, AddUnder(c, g, fields, groups, a, depth, budget).1)
    ensures var r := AddUnder(c, g, fields, groups, a, depth, budget);
            && budget <= r.1 + ScopedWeight(c, g, Scoped(groups, a), depth)
            && Kept(c, g, fields, UnderLeaves(c, groups, a, path), r.0, path)
    decreases |groups|
  {
    if a == ZERO_ATTR {
      ExtendsNothing(c, g, FieldLeaves(fields, path));
      ZeroLeaves(c, groups, path);
    } else if groups == [] {
      hide Add, AttrWeight, AttrLeaves, PlainAttr, FieldLeaves, Extends;
      assert path[0..] == path;
      AddKeeps(c, g, fields, a, depth, budget, path);
    } else {
      PlainInside(c, g, groups, a, depth);
      hide Add, OpenGroup, UnderLeaves, PlainScoped, ScopedWeight, FieldLeaves, Extends;
      var group, rest := groups[0], groups[1..];
      assert groups == [group] + rest;
      UnderGroup(c, group, rest, a, path);
      OpenGroupKeeps(c, fields, group, depth, budget, path);
      var (present, i, left) := OpenGroup(c, fields, group, depth, budget);
      assert AllOpen(present[i].children);
      var inner := if path == [] then [] else path[1..];
      AddUnderKeeps(c, g, present[i].children, rest, a, depth + 1, left, inner);
      var r := AddUnder(c, g, present[i].children, rest, a, depth + 1, left);
      hide AllOpen, Kept;
      GroupKept(c, g, fields, present, group, UnderLeaves(c, rest, a, inner), r.0, path);
    }
  }

  lemma {:induction false} NoWeightNothingLogged(c: Config, g: Graph, attrs: seq<Scoped>, path: seq<string>)
    requires RecordWeight(c, g, attrs) == 0
    ensures ScopedLeaves(c, attrs, path) == []
  {
    hide AttrWeight, AttrLeaves;
    if attrs != [] {
      var s := attrs[0];
      NoWeightNothingLogged(c, g, attrs[1..], path);
      if s.attr == ZERO_ATTR { ZeroLeaves(c, s.groups, path); } else { NoWeightNoLeaves(c, g, s.attr, 1, path[|s.groups|..]); }
    }
  }

  lemma {:induction false} AddScopedKeeps(c: Config, g: Graph, fields: seq<Field>, attrs: seq<Scoped>, budget: nat, path: seq<string>)
    requires ProperConfig(c) && AllOpen(fields) && forall i :: 0 <= i < |attrs| ==> PlainScoped(c, g, attrs[i], 1)
    requires Affords(RecordWeight(c, g, attrs), budget, AddScoped(c, g, fields, attrs, budget).1)
    ensures var r := AddScoped(c, g, fields, attrs, budget);
            budget <= r.1 + RecordWeight(c, g, attrs) && Kept(c, g, fields, ScopedLeaves(c, attrs, path), r.0, path)
    decreases |attrs|
  {
    ExtendsNothing(c, g, FieldLeaves(fields, path));
    hide AddUnder, ScopedWeight, UnderLeaves, PlainScoped, FieldLeaves, Extends, AllOpen;
    if attrs == [] {
    } else if budget == 0 {
      NoWeightNothingLogged(c, g, attrs, path);
    } else {
      var s, rest := attrs[0], attrs[1..];
      var head := AddUnder(c, g, fields, s.groups, s.attr, 1, budget);
      assert s == Scoped(s.groups, s.attr);
      AddUnderKeeps(c, g, fields, s.groups, s.attr, 1, budget, path);
      AddScopedKeeps(c, g, head.0, rest, head.1, path);
      var r := AddScoped(c, g, head.0, rest, head.1);
      ExtendsOn(c, g, FieldLeaves(fields, path), UnderLeaves(c, s.groups, s.attr, path), FieldLeaves(head.0, path),
                ScopedLeaves(c, rest, path), FieldLeaves(r.0, path));
    }
  }

  /** These attributes, in this order, each shown. */
  ghost predicate AllShown(c: Config, g: Graph, logged: seq<Attr>, found: seq<OutEntry>) {
    |found| == |logged| && forall i :: 0 <= i < |logged| ==>
      found[i].key == logged[i].key && ShowsAs(c, g, logged[i].key, logged[i].value, found[i].value)
  }

  lemma ExtendsAll(c: Config, g: Graph, added: seq<Attr>, after: seq<OutEntry>)
    requires Extends(c, g, [], added, after)
    ensures AllShown(c, g, added, after)
  {
    hide ShowsAs;
  }

  lemma ScopedIsKept(c: Config, g: Graph, attrs: seq<Scoped>, path: seq<string>)
    requires ProperConfig(c) && forall i :: 0 <= i < |attrs| ==> PlainScoped(c, g, attrs[i], 1)
    requires Affords(RecordWeight(c, g, attrs), c.maxAttributes, AddScoped(c, g, [], attrs, c.maxAttributes).1)
    ensures AllShown(c, g, ScopedLeaves(c, attrs, path), LeavesAt(Render(AddScoped(c, g, [], attrs, c.maxAttributes).0), path))
  {
    assert AllOpen([]);
    hide AddScoped, ScopedLeaves, FieldLeaves, LeavesAt, AllOpen, Extends, AllShown, PlainScoped, RecordWeight, Render;
    AddScopedKeeps(c, g, [], attrs, c.maxAttributes, path);
    EmptyLeaves(path);
    var fields := AddScoped(c, g, [], attrs, c.maxAttributes).0;
    RenderedLeaves(fields, path);
    ExtendsAll(c, g, ScopedLeaves(c, attrs, path), FieldLeaves(fields, path));
  }

  /** Nothing plain is lost, moved or changed. Of a record within the limits, as long as the budget covers it or is
      not used up, the next handler finds under every path of groups the attributes logged there, in their order:
      the same keys and the same values, and [REDACTED] under the sensitive keys. */
  lemma RecordIsKept(c: Config, g: Graph, fixed: seq<Scoped>, groups: seq<string>, context: seq<Attr>, own: seq<Attr>, path: seq<string>)
    requires ProperConfig(c)
    requires var all := fixed + Under(groups, context) + Under(groups, own);
             && (forall i :: 0 <= i < |all| ==> PlainScoped(c, g, all[i], 1))
             && Affords(RecordWeight(c, g, all), c.maxAttributes, Record(c, g, fixed, groups, context, own).1)
    ensures var all := fixed + Under(groups, context) + Under(groups, own);
            AllShown(c, g, ScopedLeaves(c, all, path), LeavesAt(Render(Record(c, g, fixed, groups, context, own).0), path))
  {
    hide AddScoped, ScopedLeaves, AllShown, LeavesAt, PlainScoped, RecordWeight, Render, Under, Affords;
    ScopedIsKept(c, g, fixed + Under(groups, context) + Under(groups, own), path);
  }
}
