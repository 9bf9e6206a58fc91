/**
 What each entry of a merged configuration holds, field by field, in terms of the entries
 of the input: which input entry every value comes from.
 */
module Entries {
  import opened Common
  import opened Flat
  import opened Merge
  import opened FieldPaths
  import opened Keyed
  import opened Configuration

  // -------------------------------------------------------------- the entries of a key

  /** The tables that are wanted, in order. */
  function Where(want: Table -> bool, xs: seq<Table>): seq<Table> {
    if xs == [] then [] else (if want(xs[0]) then [xs[0]] else []) + Where(want, xs[1..])
  }

  function IsNamed(name: string): Table -> bool {
    (t: Table) => At(t, [NAME]) == Some(VString(name))
  }

  function IsChannel(name: string, kind: string): Table -> bool {
    (t: Table) => At(t, [NAME]) == Some(VString(name)) && At(t, [TYPE]) == Some(VString(kind))
  }

  lemma {:induction false} WhereMore(want: Table -> bool, xs: seq<Table>, x: Table)
    ensures Where(want, xs + [x]) == Where(want, xs) + if want(x) then [x] else []
    decreases |xs|
  {
    if xs == [] {
      assert xs + [x] == [x] && [x][1..] == [];
    } else {
      assert (xs + [x])[1..] == xs[1..] + [x];
      WhereMore(want, xs[1..], x);
    }
  }

  /** Both ways of selecting the entries of a key select the same ones. */
  lemma {:induction false} WhereIsKeyed(want: Table -> bool, keep: Table -> bool, g: Merger<Table>, xs: seq<Table>,
      k: Key)
    requires forall i :: 0 <= i < |xs| ==> (want(xs[i]) <==> keep(xs[i]) && g.key(xs[i]) == k)
    ensures Where(want, xs) == WithKey(g, Keep(keep, xs), k)
    decreases |xs|
  {
    if xs != [] {
      var ys, x := ButLast(xs), Last(xs);
      assert xs == ys + [x] && x == xs[|xs| - 1];
      WhereMore(want, ys, x);
      WhereIsKeyed(want, keep, g, ys, k);
      var zs := Keep(keep, ys);
      if keep(x) {
        assert ButLast(zs + [x]) == zs && Last(zs + [x]) == x;
      } else {
        assert zs + [] == zs;
      }
    }
  }

  // -------------------------------------------------------------------- plain entries

  predicate AllNamed(c: Types, ty: nat, ts: seq<Table>) {
    forall i :: 0 <= i < |ts| ==> Named(c, ty, ts[i])
  }

  predicate EntryPath(c: Types, ty: nat, path: seq<nat>)
    requires ValidTypes(c)
  {
    IsTable(c.schema, ty) && SchemaPath(c.schema, ty, path)
  }

  /** The value at the path is what the tables say, each on top of those before it. */
  predicate Holds(c: Types, ty: nat, ts: seq<Table>, path: seq<nat>, r: Option<Value>)
    requires ValidTypes(c) && EntryPath(c, ty, path)
  {
    Combined(EndField(c.schema, ty, path), ts, path, r)
  }

  lemma HoldsOne(c: Types, ty: nat, t: Table, path: seq<nat>)
    requires ValidTypes(c) && EntryPath(c, ty, path) && OfType(c, ty, t)
    ensures Holds(c, ty, [t], path, At(t, path))
  {
    AtConforms(c.schema, ty, t, path);
    CombinedOne(EndField(c.schema, ty, path), t, path);
  }

  lemma HoldsMore(c: Types, ty: nat, ts: seq<Table>, t: Table, path: seq<nat>, x: Option<Value>, r: Option<Value>)
    requires ValidTypes(c) && EntryPath(c, ty, path) && ts != [] && Holds(c, ty, ButLast(ts), path, x)
    requires t == Last(ts) && MergedTo(EndField(c.schema, ty, path), x, At(t, path), r)
    ensures Holds(c, ty, ts, path, r)
  {
    CombinedMore(EndField(c.schema, ty, path), ButLast(ts), t, path, x, r);
    assert ts == ButLast(ts) + [t];
  }

  /** A plain merge, with what it means at each path. */
  lemma MergeEntriesAt(c: Types, ty: nat, a: Table, b: Table, path: seq<nat>)
    requires ValidTypes(c) && OfType(c, ty, a) && OfType(c, ty, b) && EntryPath(c, ty, path)
    ensures MergedTo(EndField(c.schema, ty, path), At(a, path), At(b, path), At(MergeEntries(c, ty, a, b), path))
  {
    MergedAt(c.schema, ty, Some(a), Some(b), path);
  }

  lemma {:induction false} FoldNamed(c: Types, ty: nat, ts: seq<Table>, path: seq<nat>)
    requires ValidTypes(c) && EntryPath(c, ty, path) && Text(FieldsOf(c.schema, ty), NAME)
    requires ts != [] && AllNamed(c, ty, ts)
    ensures Named(c, ty, Fold(NamedMerger(c, ty), ts).value)
    ensures Holds(c, ty, ts, path, At(Fold(NamedMerger(c, ty), ts).value, path))
    decreases |ts|
  {
    hide ValidTypes, Named, Holds, SchemaPath, MergeEntries, MergedTo, EndField;
    if |ts| == 1 {
      assert ts == [ts[0]];
      NamedIsOfType(c, ty, ts[0]);
      HoldsOne(c, ty, ts[0], path);
    } else {
      var us, t := ButLast(ts), Last(ts);
      FoldNamed(c, ty, us, path);
      var a := Fold(NamedMerger(c, ty), us).value;
      NamedLawful(c, ty);
      NamedIsOfType(c, ty, a);
      NamedIsOfType(c, ty, t);
      MergeEntriesAt(c, ty, a, t, path);
      HoldsMore(c, ty, ts, t, path, At(a, path), At(MergeEntries(c, ty, a, t), path));
    }
  }

  lemma NamedIsOfType(c: Types, ty: nat, t: Table)
    requires Named(c, ty, t)
    ensures OfType(c, ty, t)
  {
  }

  // ---------------------------------------------------------------------------- nodes

  /** An entry has a name exactly if it counts, and its key is that name. */
  lemma NameIsKey(c: Types, ty: nat, t: Table, name: string)
    requires ValidTypes(c) && OfType(c, ty, t) && Text(FieldsOf(c.schema, ty), NAME)
    ensures IsNamed(name)(t) <==> Has(t, NAME) && [TextOf(t, NAME)] == [name]
  {
    if Has(t, NAME) {
      assert FieldOk(c.schema, FieldsOf(c.schema, ty)[NAME], t[NAME].value);
      assert At(t, [NAME]) == t[NAME];
    }
  }

  lemma NamedSelected(c: Types, ty: nat, g: Merger<Table>, f: FieldDef, x: Option<Value>, name: string)
    requires ValidTypes(c) && IsTable(c.schema, ty) && Text(FieldsOf(c.schema, ty), NAME)
    requires f.elem.Sequence? && f.repeating && f.ref == Some(ty) && FieldOptionOk(c.schema, f, x)
    requires forall t: Table :: g.key(t) == [TextOf(t, NAME)]
    ensures Where(IsNamed(name), TablesOf(x)) == WithKey(g, Keep(HasName(), TablesOf(x)), [name])
  {
    hide ValidTypes, OfType, TextOf, Has, IsNamed;
    var xs := TablesOf(x);
    if x.Some? {
      TablesAreOk(c, f, ty, x.value);
    }
    forall i | 0 <= i < |xs|
      ensures IsNamed(name)(xs[i]) <==> HasName()(xs[i]) && g.key(xs[i]) == [name]
    {
      NameIsKey(c, ty, xs[i], name);
    }
    WhereIsKeyed(IsNamed(name), HasName(), g, xs, [name]);
  }

  lemma WithKeyNamed(c: Types, ty: nat, g: Merger<Table>, xs: seq<Table>, k: Key)
    requires AllNamed(c, ty, xs)
    ensures AllNamed(c, ty, WithKey(g, xs, k))
  {
    forall p | 0 <= p < |WithKey(g, xs, k)|
      ensures Named(c, ty, WithKey(g, xs, k)[p])
    {
      var j := WithKeyFrom(g, xs, k, p);
    }
  }

  predicate SortedByName(ts: seq<Table>) {
    forall i, j :: 0 <= i < j < |ts| ==> Less(TextOf(ts[i], NAME), TextOf(ts[j], NAME))
  }

  /** There is an entry of the name exactly if one was given. */
  predicate ListsName(ts: seq<Table>, name: string, given: seq<Table>) {
    (exists i :: 0 <= i < |ts| && IsNamed(name)(ts[i])) <==> given != []
  }

  /** The entries of the name hold what the given ones hold, each on top of those before it. */
  predicate EntriesHold(c: Types, ty: nat, ts: seq<Table>, name: string, given: seq<Table>, path: seq<nat>)
    requires ValidTypes(c) && EntryPath(c, ty, path)
  {
    forall i :: 0 <= i < |ts| && IsNamed(name)(ts[i]) ==> Holds(c, ty, given, path, At(ts[i], path))
  }

  lemma NamesSorted(g: Merger<Table>, ts: seq<Table>)
    requires Sorted(g, ts) && forall t: Table :: g.key(t) == [TextOf(t, NAME)]
    ensures SortedByName(ts)
  {
    forall i, j | 0 <= i < j < |ts|
      ensures Less(TextOf(ts[i], NAME), TextOf(ts[j], NAME))
    {
      OneName(TextOf(ts[i], NAME), TextOf(ts[j], NAME));
    }
  }

  lemma NameFound(c: Types, ty: nat, g: Merger<Table>, ts: seq<Table>, name: string, i: nat)
    requires ValidTypes(c) && IsTable(c.schema, ty) && Text(FieldsOf(c.schema, ty), NAME) && AllNamed(c, ty, ts)
    requires Distinct(g, ts) && (forall t: Table :: g.key(t) == [TextOf(t, NAME)])
    requires i < |ts| && IsNamed(name)(ts[i])
    ensures Find(g, ts, [name]) == Some(ts[i])
  {
    hide ValidTypes, IsNamed;
    NameIsKey(c, ty, ts[i], name);
    FindDistinct(g, ts, [name], i);
  }

  lemma NameListed(c: Types, ty: nat, g: Merger<Table>, ts: seq<Table>, name: string, given: seq<Table>)
    requires ValidTypes(c) && IsTable(c.schema, ty) && Text(FieldsOf(c.schema, ty), NAME) && AllNamed(c, ty, ts)
    requires Distinct(g, ts) && (forall t: Table :: g.key(t) == [TextOf(t, NAME)])
    requires Find(g, ts, [name]) == Fold(g, given)
    ensures ListsName(ts, name, given)
  {
    hide ValidTypes, IsNamed;
    FindNone(g, ts, [name]);
    if i :| 0 <= i < |ts| && IsNamed(name)(ts[i]) {
      NameFound(c, ty, g, ts, name, i);
    } else if Find(g, ts, [name]).Some? {
      var i :| 0 <= i < |ts| && g.key(ts[i]) == [name];
      NameIsKey(c, ty, ts[i], name);
      assert false;
    }
  }

  /**
   The nodes of the result are sorted by name.  There is one of a name exactly if the input
   has one, and it holds what the input nodes of that name hold, each on top of those
   before it.
   */
  lemma NodeEntries(c: Types, t: Table, name: string, path: seq<nat>)
    requires ValidTypes(c) && Mergeable(c, t) && t[NODES].Some? && EntryPath(c, c.node, path)
    ensures var given, nodes := Where(IsNamed(name), TablesOf(t[NODES])), TablesOf(Merged(c, t)[NODES]);
      SortedByName(nodes) && ListsName(nodes, name, given) && EntriesHold(c, c.node, nodes, name, given, path)
  {
    hide Merged, Keep, MergeByKey, IsNamed, Where, Holds, TablesOf, Named;
    var g, nodes := NamedMerger(c, c.node), TablesOf(Merged(c, t)[NODES]);
    var f := FieldsOf(c.schema, c.configuration)[NODES];
    var given := Where(IsNamed(name), TablesOf(t[NODES]));
    NodesMeaning(c, t, [name]);
    NamesSorted(g, nodes);
    NamedSelected(c, c.node, g, f, t[NODES], name);
    NameListed(c, c.node, g, nodes, name, given);
    NamedEntries(c, c.node, f, t[NODES]);
    WithKeyNamed(c, c.node, g, NodesOf(c, t), [name]);
    forall i | 0 <= i < |nodes| && IsNamed(name)(nodes[i])
      ensures Holds(c, c.node, given, path, At(nodes[i], path))
    {
      NameFound(c, c.node, g, nodes, name, i);
      FoldNamed(c, c.node, given, path);
    }
  }

  // --------------------------------------------------------------------- applications

  /** The arguments are those of the later application that has any; all else is merged as usual. */
  lemma MergeApplicationAt(c: Types, a: Table, b: Table, path: seq<nat>)
    requires ValidTypes(c) && Application(c, a) && Application(c, b) && EntryPath(c, c.application, path)
    ensures var r := MergeApplication(c, a, b);
      if path == [ARGS] then At(r, path) == Later(At(a, path), At(b, path))
      else path[0] != ARGS ==>
        MergedTo(EndField(c.schema, c.application, path), At(a, path), At(b, path), At(r, path))
  {
    hide MergedTo, EndField;
    if path[0] != ARGS {
      var a' := if Has(b, ARGS) then a[ARGS := None] else a;
      assert At(a', path) == At(a, path);
      MergeEntriesAt(c, c.application, a', b, path);
    }
  }

  lemma {:induction false} FoldApplication(c: Types, ts: seq<Table>, path: seq<nat>)
    requires ValidTypes(c) && EntryPath(c, c.application, path) && path[0] != ARGS
    requires ts != [] && AllNamed(c, c.application, ts)
    ensures Application(c, Fold(ApplicationMerger(c), ts).value)
    ensures Holds(c, c.application, ts, path, At(Fold(ApplicationMerger(c), ts).value, path))
    decreases |ts|
  {
    hide ValidTypes, Named, Holds, SchemaPath, MergeApplication, MergedTo, EndField;
    var ty := c.application;
    if |ts| == 1 {
      assert ts == [ts[0]];
      NamedIsOfType(c, ty, ts[0]);
      HoldsOne(c, ty, ts[0], path);
    } else {
      var us, t := ButLast(ts), Last(ts);
      FoldApplication(c, us, path);
      var a := Fold(ApplicationMerger(c), us).value;
      MergeApplicationAt(c, a, t, path);
      HoldsMore(c, ty, ts, t, path, At(a, path), At(MergeApplication(c, a, t), path));
    }
  }

  lemma {:induction false} FoldArguments(c: Types, ts: seq<Table>)
    requires ValidTypes(c) && ts != [] && AllNamed(c, c.application, ts)
    ensures Application(c, Fold(ApplicationMerger(c), ts).value)
    ensures At(Fold(ApplicationMerger(c), ts).value, [ARGS]) == LastAt(ts, [ARGS])
    decreases |ts|
  {
    hide Named, MergeApplication, At;
    if |ts| == 1 {
      assert ts == [ts[0]] && ButLast(ts) == [];
    } else {
      FoldArguments(c, ButLast(ts));
      MergeApplicationAt(c, Fold(ApplicationMerger(c), ButLast(ts)).value, Last(ts), [ARGS]);
    }
  }

  /**
   The applications of the result likewise, except that the arguments are those of the last
   input application of the name that has any.
   */
  lemma ApplicationEntries(c: Types, t: Table, name: string, path: seq<nat>)
    requires ValidTypes(c) && Mergeable(c, t) && t[APPLICATIONS].Some?
    requires EntryPath(c, c.application, path) && path[0] != ARGS
    ensures var given, apps := Where(IsNamed(name), TablesOf(t[APPLICATIONS])), TablesOf(Merged(c, t)[APPLICATIONS]);
      && SortedByName(apps) && ListsName(apps, name, given) && EntriesHold(c, c.application, apps, name, given, path)
      && forall i :: 0 <= i < |apps| && IsNamed(name)(apps[i]) ==> At(apps[i], [ARGS]) == LastAt(given, [ARGS])
  {
    hide Merged, Keep, MergeByKey, IsNamed, Where, Holds, TablesOf, Named, At, LastAt;
    var g, apps := ApplicationMerger(c), TablesOf(Merged(c, t)[APPLICATIONS]);
    var f := FieldsOf(c.schema, c.configuration)[APPLICATIONS];
    var given := Where(IsNamed(name), TablesOf(t[APPLICATIONS]));
    ApplicationsMeaning(c, t, [name]);
    NamesSorted(g, apps);
    NamedSelected(c, c.application, g, f, t[APPLICATIONS], name);
    NameListed(c, c.application, g, apps, name, given);
    NamedEntries(c, c.application, f, t[APPLICATIONS]);
    WithKeyNamed(c, c.application, g, ApplicationsOf(c, t), [name]);
    forall i | 0 <= i < |apps| && IsNamed(name)(apps[i])
      ensures Holds(c, c.application, given, path, At(apps[i], path)) && At(apps[i], [ARGS]) == LastAt(given, [ARGS])
    {
      NameFound(c, c.application, g, apps, name, i);
      FoldApplication(c, given, path);
      FoldArguments(c, given);
    }
  }

  // ------------------------------------------------------------------------- channels

  lemma MergedLikeEntries(c: Types, a: Table, b: Table, i: nat)
    requires ValidTypes(c) && Comparable(c, a) && Comparable(c, b) && i < |FieldsOf(c.schema, c.channel)|
    ensures OfType(c, c.channel, a) && OfType(c, c.channel, b)
    ensures |MergeChannel(c, a, b)| == |a| == |b| == |MergeEntries(c, c.channel, a, b)|
    ensures |a| == |FieldsOf(c.schema, c.channel)|
    ensures i == SCHEMA ==> MergeChannel(c, a, b)[i] == Later(a[i], b[i])
    ensures i != SCHEMA && i != DESTINATIONS ==> MergeChannel(c, a, b)[i] == MergeEntries(c, c.channel, a, b)[i]
  {
    hide MergeChannel, Join, Comparable, MergeTables;
    ChannelSizes(c, a);
    ChannelSizes(c, b);
    MergeChannelMeaning(c, a, b, i, "");
    MergedField(c, c.channel, a, b, i);
  }

  /** The schema is that of the later channel that has one; all else but the destinations is merged as usual. */
  lemma MergeChannelAt(c: Types, a: Table, b: Table, path: seq<nat>)
    requires ValidTypes(c) && Comparable(c, a) && Comparable(c, b) && EntryPath(c, c.channel, path)
    ensures var r := MergeChannel(c, a, b);
      if path == [SCHEMA] then At(r, path) == Later(At(a, path), At(b, path))
      else path[0] != SCHEMA && path[0] != DESTINATIONS ==>
        MergedTo(EndField(c.schema, c.channel, path), At(a, path), At(b, path), At(r, path))
  {
    hide MergedTo, EndField, Comparable, MergeChannel, MergeEntries, ValidTypes, OfType;
    MergedLikeEntries(c, a, b, path[0]);
    if path[0] != SCHEMA && path[0] != DESTINATIONS {
      MergeEntriesAt(c, c.channel, a, b, path);
      SameStart(MergeChannel(c, a, b), MergeEntries(c, c.channel, a, b), path);
    }
  }

  lemma ChannelSizes(c: Types, a: Table)
    requires ValidTypes(c) && Comparable(c, a)
    ensures OfType(c, c.channel, a) && |a| == |FieldsOf(c.schema, c.channel)|
  {
  }

  lemma SameStart(t: Table, u: Table, path: seq<nat>)
    requires path != [] && path[0] < |t| == |u| && t[path[0]] == u[path[0]]
    ensures At(t, path) == At(u, path)
  {
  }

  lemma {:induction false} FoldChannel(c: Types, ts: seq<Table>, path: seq<nat>)
    requires ValidTypes(c) && EntryPath(c, c.channel, path) && path[0] != SCHEMA && path[0] != DESTINATIONS
    requires ts != [] && AllComparable(c, ts)
    ensures Holds(c, c.channel, ts, path, At(Fold(ChannelMerger(c), ts).value, path))
    decreases |ts|
  {
    hide ValidTypes, Comparable, Holds, SchemaPath, MergeChannel, MergedTo, EndField;
    var ty := c.channel;
    if |ts| == 1 {
      assert ts == [ts[0]];
      ChannelSizes(c, ts[0]);
      HoldsOne(c, ty, ts[0], path);
    } else {
      var us, t := ButLast(ts), Last(ts);
      FoldChannel(c, us, path);
      FoldComparable(c, us);
      var a := Fold(ChannelMerger(c), us).value;
      MergeChannelAt(c, a, t, path);
      HoldsMore(c, ty, ts, t, path, At(a, path), At(MergeChannel(c, a, t), path));
    }
  }

  lemma {:induction false} FoldSchema(c: Types, ts: seq<Table>)
    requires ValidTypes(c) && ts != [] && AllComparable(c, ts)
    ensures At(Fold(ChannelMerger(c), ts).value, [SCHEMA]) == LastAt(ts, [SCHEMA])
    decreases |ts|
  {
    hide Comparable, MergeChannel, At;
    if |ts| == 1 {
      assert ts == [ts[0]] && ButLast(ts) == [];
    } else {
      FoldSchema(c, ButLast(ts));
      FoldComparable(c, ButLast(ts));
      MergeChannelAt(c, Fold(ChannelMerger(c), ButLast(ts)).value, Last(ts), [SCHEMA]);
    }
  }

  /** The destinations of all the channels, in order. */
  function AllDestinations(ts: seq<Table>): seq<Table> {
    if ts == [] then []
    else AllDestinations(ButLast(ts)) + (if DESTINATIONS < |Last(ts)| then Destinations(Last(ts)) else [])
  }

  /** The step from the destinations merged so far to one more channel. */
  lemma DestinationsOn(c: Types, u: Table, t: Table, before: seq<Table>, name: string)
    requires ValidTypes(c) && Comparable(c, u) && Comparable(c, t)
    requires var g := NamedMerger(c, c.connection);
      || Destinations(u) == before
      || (Distinct(g, Destinations(u)) && Find(g, Destinations(u), [name]) == Fold(g, WithKey(g, before, [name])))
    ensures Comparable(c, MergeChannel(c, u, t))
    ensures var g, r := NamedMerger(c, c.connection), Destinations(MergeChannel(c, u, t));
      Distinct(g, r) && Find(g, r, [name]) == Fold(g, WithKey(g, before + Destinations(t), [name]))
  {
    hide ValidTypes, MergeChannel, Distinct, Destinations, NamedMerger, Find, WithKey;
    var g, ds, k := NamedMerger(c, c.connection), Destinations(t), [name];
    MergeChannelMeaning(c, u, t, NAME, name);
    WithKeyConcat(g, Destinations(u), ds, k);
    WithKeyConcat(g, before, ds, k);
    if Destinations(u) != before {
      DistinctWithKey(g, Destinations(u), k);
      if WithKey(g, before, k) != [] {
        FoldOn(g, WithKey(g, before, k), WithKey(g, ds, k));
      }
    }
  }

  /** Merging two or more channels merges all their destinations by name. */
  lemma {:induction false} FoldDestinations(c: Types, ts: seq<Table>, name: string)
    requires ValidTypes(c) && |ts| > 1 && AllComparable(c, ts)
    ensures Comparable(c, Fold(ChannelMerger(c), ts).value)
    ensures var g, r := NamedMerger(c, c.connection), Destinations(Fold(ChannelMerger(c), ts).value);
      Distinct(g, r) && Find(g, r, [name]) == Fold(g, WithKey(g, AllDestinations(ts), [name]))
    decreases |ts|
  {
    hide ValidTypes, MergeChannel, Distinct, Destinations, NamedMerger, Find, WithKey;
    var us, t := ButLast(ts), Last(ts);
    FoldComparable(c, ts);
    FoldComparable(c, us);
    if |us| > 1 {
      FoldDestinations(c, us, name);
    } else {
      assert us == [us[0]] && ButLast(us) == [];
      assert AllDestinations(us) == [] + Destinations(us[0]) == Destinations(us[0]);
    }
    DestinationsOn(c, Fold(ChannelMerger(c), us).value, t, AllDestinations(us), name);
  }

  lemma TextIsValue(c: Types, ty: nat, t: Table, i: nat, text: string)
    requires ValidTypes(c) && OfType(c, ty, t) && Text(FieldsOf(c.schema, ty), i)
    ensures At(t, [i]) == Some(VString(text)) <==> Has(t, i) && TextOf(t, i) == text
  {
    if Has(t, i) {
      assert FieldOk(c.schema, FieldsOf(c.schema, ty)[i], t[i].value);
      assert At(t, [i]) == t[i];
    }
  }

  /** An entry counts as a channel exactly if it has a name and a type, and they are its key. */
  lemma ChannelIsKey(c: Types, t: Table, name: string, kind: string)
    requires ValidTypes(c) && OfType(c, c.channel, t)
    ensures IsChannel(name, kind)(t) <==> HasNameAndType()(t) && ChannelMerger(c).key(t) == [name, kind]
  {
    TextIsValue(c, c.channel, t, NAME, name);
    TextIsValue(c, c.channel, t, TYPE, kind);
  }

  lemma ChannelsSelected(c: Types, t: Table, name: string, kind: string)
    requires ValidTypes(c) && Config(c, t)
    ensures Where(IsChannel(name, kind), TablesOf(t[CHANNELS])) ==
      WithKey(ChannelMerger(c), ChannelsOf(c, t), [name, kind])
  {
    hide IsChannel, ChannelMerger, HasNameAndType;
    var g, xs := ChannelMerger(c), TablesOf(t[CHANNELS]);
    ChannelTables(c, t);
    forall i | 0 <= i < |xs|
      ensures IsChannel(name, kind)(xs[i]) <==> HasNameAndType()(xs[i]) && g.key(xs[i]) == [name, kind]
    {
      ChannelIsKey(c, xs[i], name, kind);
    }
    WhereIsKeyed(IsChannel(name, kind), HasNameAndType(), g, xs, [name, kind]);
  }

  lemma ChannelTables(c: Types, t: Table)
    requires ValidTypes(c) && Config(c, t)
    ensures forall i :: 0 <= i < |TablesOf(t[CHANNELS])| ==> OfType(c, c.channel, TablesOf(t[CHANNELS])[i])
  {
    if t[CHANNELS].Some? {
      TablesAreOk(c, FieldsOf(c.schema, c.configuration)[CHANNELS], c.channel, t[CHANNELS].value);
    }
  }

  /** The given channels of a key, of which two or more can all be merged. */
  predicate Foldable(c: Types, ts: seq<Table>) {
    AllChannels(c, ts) && (|ts| > 1 ==> AllComparable(c, ts))
  }

  lemma GivenChannels(c: Types, t: Table, name: string, kind: string)
    requires ValidTypes(c) && Mergeable(c, t)
    ensures Foldable(c, Where(IsChannel(name, kind), TablesOf(t[CHANNELS])))
  {
    hide Where, IsChannel, TablesOf, Comparable, Channel, ChannelMerger;
    var xs, k := ChannelsOf(c, t), [name, kind];
    var ws := WithKey(ChannelMerger(c), xs, k);
    ChannelsSelected(c, t, name, kind);
    ChannelsCount(c, t);
    forall p | 0 <= p < |ws|
      ensures Channel(c, ws[p]) && (|ws| > 1 ==> Comparable(c, ws[p]))
    {
      var j := WithKeyFrom(ChannelMerger(c), xs, k, p);
      if |ws| > 1 {
        WithKeyComparable(c, xs, k, p);
      }
    }
  }

  /** The channel of a key in the result is the fold of the given ones. */
  lemma ChannelFound(c: Types, t: Table, name: string, kind: string, i: nat)
    requires ValidTypes(c) && Mergeable(c, t) && i < |TablesOf(Merged(c, t)[CHANNELS])|
    requires IsChannel(name, kind)(TablesOf(Merged(c, t)[CHANNELS])[i])
    ensures Fold(ChannelMerger(c), Where(IsChannel(name, kind), TablesOf(t[CHANNELS]))) ==
      Some(TablesOf(Merged(c, t)[CHANNELS])[i])
  {
    hide Where, IsChannel, TablesOf, Comparable, Merged, Keep, MergeByKey, Find, Fold, WithKey, HasNameAndType;
    var g, r, k := ChannelMerger(c), TablesOf(Merged(c, t)[CHANNELS]), [name, kind];
    ChannelsSelected(c, t, name, kind);
    ChannelsMeaning(c, t, k);
    ChannelTables(c, Merged(c, t));
    ChannelIsKey(c, r[i], name, kind);
    FindAt(g, r, k, i);
  }

  predicate SortedByNameAndType(ts: seq<Table>) {
    forall i, j :: 0 <= i < j < |ts| ==>
      || Less(TextOf(ts[i], NAME), TextOf(ts[j], NAME))
      || (TextOf(ts[i], NAME) == TextOf(ts[j], NAME) && Less(TextOf(ts[i], TYPE), TextOf(ts[j], TYPE)))
  }

  lemma ChannelsSorted(c: Types, t: Table)
    requires ValidTypes(c) && Mergeable(c, t)
    ensures SortedByNameAndType(TablesOf(Merged(c, t)[CHANNELS]))
  {
    hide TablesOf, Merged, Less, KeyLess;
    var r := TablesOf(Merged(c, t)[CHANNELS]);
    ChannelsMeaning(c, t, []);
    forall i, j | 0 <= i < j < |r|
      ensures || Less(TextOf(r[i], NAME), TextOf(r[j], NAME))
        || (TextOf(r[i], NAME) == TextOf(r[j], NAME) && Less(TextOf(r[i], TYPE), TextOf(r[j], TYPE)))
    {
      assert KeyLess(ChannelMerger(c).key(r[i]), ChannelMerger(c).key(r[j]));
      NameThenType(TextOf(r[i], NAME), TextOf(r[i], TYPE), TextOf(r[j], NAME), TextOf(r[j], TYPE));
    }
  }

  lemma ChannelListed(c: Types, t: Table, name: string, kind: string)
    requires ValidTypes(c) && Mergeable(c, t)
    ensures var given, r := Where(IsChannel(name, kind), TablesOf(t[CHANNELS])), TablesOf(Merged(c, t)[CHANNELS]);
      (exists i :: 0 <= i < |r| && IsChannel(name, kind)(r[i])) <==> given != []
  {
    hide Where, IsChannel, TablesOf, Comparable, Merged, Keep, MergeByKey, HasNameAndType, WithKey;
    var g, r, k := ChannelMerger(c), TablesOf(Merged(c, t)[CHANNELS]), [name, kind];
    var given := Where(IsChannel(name, kind), TablesOf(t[CHANNELS]));
    ChannelsSelected(c, t, name, kind);
    ChannelsMeaning(c, t, k);
    if i :| 0 <= i < |r| && IsChannel(name, kind)(r[i]) {
      ChannelFound(c, t, name, kind, i);
    }
    if given != [] {
      FindNone(g, r, k);
      var i :| 0 <= i < |r| && g.key(r[i]) == k;
      MergedChannels(c, t);
      ChannelsOk(c, t);
      ChannelHasKey(c, r[i], name, kind);
    }
  }

  lemma ChannelHasKey(c: Types, t: Table, name: string, kind: string)
    requires ValidTypes(c) && Channel(c, t) && ChannelMerger(c).key(t) == [name, kind]
    ensures IsChannel(name, kind)(t)
  {
    ChannelIsKey(c, t, name, kind);
  }

  lemma FoldedChannel(c: Types, ts: seq<Table>, path: seq<nat>)
    requires ValidTypes(c) && EntryPath(c, c.channel, path) && path[0] != SCHEMA && path[0] != DESTINATIONS
    requires ts != [] && Foldable(c, ts)
    ensures Holds(c, c.channel, ts, path, At(Fold(ChannelMerger(c), ts).value, path))
    ensures At(Fold(ChannelMerger(c), ts).value, [SCHEMA]) == LastAt(ts, [SCHEMA])
  {
    hide ValidTypes, Holds, SchemaPath, MergeChannel;
    if |ts| == 1 {
      assert ts == [ts[0]] && ButLast(ts) == [];
      HoldsOne(c, c.channel, ts[0], path);
    } else {
      FoldChannel(c, ts, path);
      FoldSchema(c, ts);
    }
  }

  /**
   The channels of the result are sorted by name, then by type.  There is one of a name and
   type exactly if the input has one, and it holds what the input channels of that name and
   type hold, each on top of those before it; its schema is the last one given.
   */
  lemma ChannelEntries(c: Types, t: Table, name: string, kind: string, path: seq<nat>)
    requires ValidTypes(c) && Mergeable(c, t)
    requires EntryPath(c, c.channel, path) && path[0] != SCHEMA && path[0] != DESTINATIONS
    ensures var given, r := Where(IsChannel(name, kind), TablesOf(t[CHANNELS])), TablesOf(Merged(c, t)[CHANNELS]);
      && SortedByNameAndType(r)
      && ((exists i :: 0 <= i < |r| && IsChannel(name, kind)(r[i])) <==> given != [])
      && forall i :: 0 <= i < |r| && IsChannel(name, kind)(r[i]) ==>
           Holds(c, c.channel, given, path, At(r[i], path)) && At(r[i], [SCHEMA]) == LastAt(given, [SCHEMA])
  {
    hide Where, IsChannel, TablesOf, Merged, Holds, At, LastAt, SortedByNameAndType, ChannelMerger, Foldable, Fold;
    var given, r := Where(IsChannel(name, kind), TablesOf(t[CHANNELS])), TablesOf(Merged(c, t)[CHANNELS]);
    ChannelsSorted(c, t);
    ChannelListed(c, t, name, kind);
    GivenChannels(c, t, name, kind);
    forall i | 0 <= i < |r| && IsChannel(name, kind)(r[i])
      ensures Holds(c, c.channel, given, path, At(r[i], path)) && At(r[i], [SCHEMA]) == LastAt(given, [SCHEMA])
    {
      ChannelFound(c, t, name, kind, i);
      FoldedChannel(c, given, path);
    }
  }

  // --------------------------------------------------------------------- destinations

  lemma {:induction false} DestinationsNamed(c: Types, ts: seq<Table>)
    requires ValidTypes(c) && AllComparable(c, ts)
    ensures AllNamed(c, c.connection, AllDestinations(ts))
    decreases |ts|
  {
    hide ValidTypes, Named;
    if ts != [] {
      DestinationsNamed(c, ButLast(ts));
    }
  }

  lemma AllNamedSelected(c: Types, ty: nat, g: Merger<Table>, xs: seq<Table>, name: string)
    requires ValidTypes(c) && IsTable(c.schema, ty) && Text(FieldsOf(c.schema, ty), NAME) && AllNamed(c, ty, xs)
    requires forall t: Table :: g.key(t) == [TextOf(t, NAME)]
    ensures Where(IsNamed(name), xs) == WithKey(g, xs, [name])
  {
    hide ValidTypes, IsNamed, OfType, TextOf;
    forall i | 0 <= i < |xs|
      ensures IsNamed(name)(xs[i]) <==> HasName()(xs[i]) && g.key(xs[i]) == [name]
    {
      NameIsKey(c, ty, xs[i], name);
    }
    WhereIsKeyed(IsNamed(name), HasName(), g, xs, [name]);
    KeepEverything(HasName(), xs);
  }

  /**
   Where the input has one channel of a name and type, it is in the result as it was.  Where
   it has more, the result has one destination of each destination name that any of them
   has, and it holds what their destinations of that name hold, each on top of those before
   it.
   */
  lemma DestinationEntries(c: Types, t: Table, name: string, kind: string, i: nat, destination: string, path: seq<nat>)
    requires ValidTypes(c) && Mergeable(c, t) && i < |TablesOf(Merged(c, t)[CHANNELS])|
    requires IsChannel(name, kind)(TablesOf(Merged(c, t)[CHANNELS])[i]) && EntryPath(c, c.connection, path)
    ensures var given, r := Where(IsChannel(name, kind), TablesOf(t[CHANNELS])), TablesOf(Merged(c, t)[CHANNELS])[i];
      && (|given| == 1 ==> r == given[0])
      && (|given| > 1 ==> DESTINATIONS < |r| && MergedDestinations(c, Destinations(r), given, destination, path))
  {
    hide Where, IsChannel, TablesOf, Merged, MergedDestinations, ChannelMerger;
    var given := Where(IsChannel(name, kind), TablesOf(t[CHANNELS]));
    GivenChannels(c, t, name, kind);
    ChannelFound(c, t, name, kind, i);
    if |given| > 1 {
      FoldComparable(c, given);
      FoldedDestinations(c, given, destination, path);
    }
  }

  predicate MergedDestinations(c: Types, ds: seq<Table>, given: seq<Table>, destination: string, path: seq<nat>)
    requires ValidTypes(c) && EntryPath(c, c.connection, path)
  {
    var before := Where(IsNamed(destination), AllDestinations(given));
    && (forall i, j :: 0 <= i < j < |ds| ==> TextOf(ds[i], NAME) != TextOf(ds[j], NAME))
    && ListsName(ds, destination, before) && EntriesHold(c, c.connection, ds, destination, before, path)
  }

  lemma ConnectionEntries(c: Types, ds: seq<Table>, all: seq<Table>, name: string, path: seq<nat>)
    requires ValidTypes(c) && EntryPath(c, c.connection, path)
    requires AllNamed(c, c.connection, ds) && AllNamed(c, c.connection, all)
    requires var g := NamedMerger(c, c.connection);
      Distinct(g, ds) && Find(g, ds, [name]) == Fold(g, WithKey(g, all, [name]))
    ensures var before := Where(IsNamed(name), all);
      ListsName(ds, name, before) && EntriesHold(c, c.connection, ds, name, before, path)
  {
    hide IsNamed, Where, Holds, Named, Distinct;
    var g, before := NamedMerger(c, c.connection), Where(IsNamed(name), all);
    AllNamedSelected(c, c.connection, g, all, name);
    NameListed(c, c.connection, g, ds, name, before);
    WithKeyNamed(c, c.connection, g, all, [name]);
    forall i | 0 <= i < |ds| && IsNamed(name)(ds[i])
      ensures Holds(c, c.connection, before, path, At(ds[i], path))
    {
      NameFound(c, c.connection, g, ds, name, i);
      FoldNamed(c, c.connection, before, path);
    }
  }

  lemma FoldedDestinations(c: Types, ts: seq<Table>, destination: string, path: seq<nat>)
    requires ValidTypes(c) && |ts| > 1 && AllComparable(c, ts) && EntryPath(c, c.connection, path)
    ensures Comparable(c, Fold(ChannelMerger(c), ts).value)
    ensures MergedDestinations(c, Destinations(Fold(ChannelMerger(c), ts).value), ts, destination, path)
  {
    hide IsNamed, Where, Named, AllDestinations, ListsName, EntriesHold, ChannelMerger, WithKey, Find;
    FoldDestinations(c, ts, destination);
    var r := Fold(ChannelMerger(c), ts).value;
    DestinationsNamed(c, ts);
    ConnectionEntries(c, Destinations(r), AllDestinations(ts), destination, path);
    DistinctNames(c, Destinations(r));
  }

  lemma DistinctNames(c: Types, ds: seq<Table>)
    requires ValidTypes(c) && Distinct(NamedMerger(c, c.connection), ds)
    ensures forall i, j :: 0 <= i < j < |ds| ==> TextOf(ds[i], NAME) != TextOf(ds[j], NAME)
  {
  }

  // ------------------------------------------------------------- the whole configuration

  /** Every other field is the input's; applications and nodes are listed if they were. */
  lemma OtherFields(c: Types, t: Table, i: nat)
    requires ValidTypes(c) && Mergeable(c, t) && i < |t|
    ensures |Merged(c, t)| == |t|
    ensures i != CHANNELS && i != APPLICATIONS && i != NODES ==> Merged(c, t)[i] == t[i]
    ensures i == CHANNELS ==> Merged(c, t)[i].Some?
    ensures i == APPLICATIONS || i == NODES ==> (Merged(c, t)[i].Some? <==> t[i].Some?)
  {
    hide Merged, SortedChannels, SortedApplications, SortedNodes;
    MergedFields(c, t);
  }

  /** A channel with a name and a type that has readers and is not pinned, or the reverse. */
  predicate Refused(x: Table) {
    && At(x, [NAME]).Some? && At(x, [TYPE]).Some?
    && (At(x, [READ_METHOD]) == Some(VInt(PIN))) !=
       (At(x, [NUM_READERS]).Some? && At(x, [NUM_READERS]) != Some(VInt(0)))
  }

  /** Merging fails exactly if a channel of the input is refused or the result is not valid. */
  lemma RefusedExactly(c: Types, t: Table)
    requires ValidTypes(c) && Mergeable(c, t)
    ensures MergeConfiguration(c, t).None? <==>
      || (exists i :: 0 <= i < |TablesOf(t[CHANNELS])| && Refused(TablesOf(t[CHANNELS])[i]))
      || !c.valid(Merged(c, t))
    ensures MergeConfiguration(c, t).Some? ==> MergeConfiguration(c, t) == Some(Merged(c, t))
  {
    hide Merged, Refused, TablesOf, PinOk;
    var xs := TablesOf(t[CHANNELS]);
    ChannelTables(c, t);
    forall i | 0 <= i < |xs|
      ensures Refused(xs[i]) <==> HasNameAndType()(xs[i]) && !PinOk(xs[i])
    {
      RefusedChannel(c, xs[i]);
    }
    NoneRefused(xs);
  }

  lemma RefusedChannel(c: Types, x: Table)
    requires ValidTypes(c) && OfType(c, c.channel, x)
    ensures Refused(x) <==> HasNameAndType()(x) && !PinOk(x)
  {
    var fs := FieldsOf(c.schema, c.channel);
    assert x[READ_METHOD].Some? ==> FieldOk(c.schema, fs[READ_METHOD], x[READ_METHOD].value);
    assert x[NUM_READERS].Some? ==> FieldOk(c.schema, fs[NUM_READERS], x[NUM_READERS].value);
  }

  lemma {:induction false} NoneRefused(xs: seq<Table>)
    requires forall i :: 0 <= i < |xs| ==> (Refused(xs[i]) <==> HasNameAndType()(xs[i]) && !PinOk(xs[i]))
    ensures AllPinned(Keep(HasNameAndType(), xs)) <==> forall i :: 0 <= i < |xs| ==> !Refused(xs[i])
    decreases |xs|
  {
    hide Refused, PinOk, HasNameAndType;
    if xs != [] {
      var ys, x := ButLast(xs), Last(xs);
      NoneRefused(ys);
      PinnedMore(Keep(HasNameAndType(), ys), x);
      assert x == xs[|xs| - 1] && forall i :: 0 <= i < |ys| ==> ys[i] == xs[i];
      assert Keep(HasNameAndType(), ys) + [] == Keep(HasNameAndType(), ys);
    }
  }

  lemma PinnedMore(xs: seq<Table>, x: Table)
    ensures AllPinned(xs + [x]) <==> AllPinned(xs) && PinOk(x)
  {
    var zs := xs + [x];
    assert zs[|xs|] == x && forall i :: 0 <= i < |xs| ==> zs[i] == xs[i];
    if AllPinned(zs) {
      forall i | 0 <= i < |xs|
        ensures PinOk(xs[i])
      {
        assert PinOk(zs[i]);
      }
    }
  }
}
