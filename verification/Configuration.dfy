/**
 `MergeConfiguration`: channels, applications and nodes sorted and merged by key, the rest
 of the configuration passed through.
 */
module Configuration {
  import opened Common
  import opened Flat
  import opened Merge
  import opened Keyed

  // --------------------------------------------------------------------- the schema

  // Field ids of Configuration.
  const CHANNELS: nat := 0
  const MAPS: nat := 1
  const APPLICATIONS: nat := 2
  const NODES: nat := 4

  // Field ids of Channel; names come first everywhere.
  const NAME: nat := 0
  const TYPE: nat := 1
  const SCHEMA: nat := 6
  const DESTINATIONS: nat := 8
  const READ_METHOD: nat := 11
  const NUM_READERS: nat := 12

  // Field ids of Application.
  const APPLICATION_MAPS: nat := 1
  const APPLICATION_NODES: nat := 2
  const ARGS: nat := 4

  const PIN := 1

  /** The types of a configuration, and what is checked of a merged one besides the order. */
  datatype Types = Types(
    schema: Schema, configuration: nat, channel: nat, application: nat, node: nat, connection: nat,
    valid: Table -> bool)

  predicate Text(fs: seq<FieldDef>, i: nat) {
    i < |fs| && fs[i].elem.String? && !fs[i].repeating
  }

  predicate Number(fs: seq<FieldDef>, i: nat) {
    i < |fs| && Integral(fs[i].elem) && !fs[i].repeating
  }

  predicate TableList(fs: seq<FieldDef>, i: nat, ty: nat) {
    i < |fs| && fs[i].elem.Sequence? && fs[i].repeating && fs[i].ref == Some(ty)
  }

  predicate ApplicationFields(fs: seq<FieldDef>) {
    && Text(fs, NAME) && ARGS < |fs|
    && fs[APPLICATION_NODES].elem.String? && fs[APPLICATION_NODES].repeating
  }

  predicate ChannelFields(fs: seq<FieldDef>, connection: nat) {
    && Text(fs, NAME) && Text(fs, TYPE) && SCHEMA < |fs| && TableList(fs, DESTINATIONS, connection)
    && Number(fs, READ_METHOD) && Number(fs, NUM_READERS)
  }

  predicate ValidTypes(c: Types) {
    && Supported(c.schema) && IsTable(c.schema, c.configuration) && IsTable(c.schema, c.channel)
    && IsTable(c.schema, c.application) && IsTable(c.schema, c.node) && IsTable(c.schema, c.connection)
    && TableList(FieldsOf(c.schema, c.configuration), CHANNELS, c.channel)
    && TableList(FieldsOf(c.schema, c.configuration), APPLICATIONS, c.application)
    && TableList(FieldsOf(c.schema, c.configuration), NODES, c.node)
    && ChannelFields(FieldsOf(c.schema, c.channel), c.connection)
    && ApplicationFields(FieldsOf(c.schema, c.application))
    && Text(FieldsOf(c.schema, c.node), NAME) && Text(FieldsOf(c.schema, c.connection), NAME)
  }

  /** The string in a field; empty if there is none. */
  function TextOf(t: Table, i: nat): string {
    if i < |t| && t[i].Some? && t[i].value.VString? then t[i].value.s else ""
  }

  /** The integer in a field; its default, zero, if there is none. */
  function NumberOf(t: Table, i: nat): int {
    if i < |t| && t[i].Some? && t[i].value.VInt? then t[i].value.i else 0
  }

  predicate Has(t: Table, i: nat) {
    i < |t| && t[i].Some?
  }

  predicate OfType(c: Types, ty: nat, t: Table) {
    IsTable(c.schema, ty) && TableOk(c.schema, ty, t)
  }

  /** The tables of a vector. */
  function TablesOf(x: Option<Value>): (ts: seq<Table>)
    ensures x.Some? && x.value.VVector? ==> |ts| == |x.value.elems|
  {
    if x.None? || !x.value.VVector? then []
    else
      var xs := x.value.elems;
      seq(|xs|, i requires 0 <= i < |xs| => if xs[i].VTable? then xs[i].fields else [])
  }

  function VectorOf(ts: seq<Table>): (v: Value)
    ensures v.VVector? && |v.elems| == |ts|
  {
    VVector(seq(|ts|, i requires 0 <= i < |ts| => VTable(ts[i])))
  }

  lemma TablesOfVector(ts: seq<Table>)
    ensures TablesOf(Some(VectorOf(ts))) == ts
  {
  }

  lemma TablesAreOk(c: Types, f: FieldDef, ty: nat, v: Value)
    requires f.elem.Sequence? && f.repeating && f.ref == Some(ty) && FieldOk(c.schema, f, v)
    ensures All(t => OfType(c, ty, t), TablesOf(Some(v)))
  {
    assert forall i :: 0 <= i < |v.elems| ==> ElemOk(c.schema, f, v.elems[i]);
  }

  lemma VectorIsOk(c: Types, f: FieldDef, ty: nat, ts: seq<Table>)
    requires f.elem.Sequence? && f.repeating && f.ref == Some(ty) && All(t => OfType(c, ty, t), ts)
    ensures FieldOk(c.schema, f, VectorOf(ts))
  {
    var v := VectorOf(ts);
    forall i | 0 <= i < |v.elems|
      ensures ElemOk(c.schema, f, v.elems[i])
    {
      assert OfType(c, ty, ts[i]);
    }
  }

  // ---------------------------------------------------------------- merging two entries

  predicate Named(c: Types, ty: nat, t: Table) {
    OfType(c, ty, t) && Has(t, NAME)
  }

  /** A channel that counts: it has a name and a type. */
  predicate Channel(c: Types, t: Table) {
    OfType(c, c.channel, t) && Has(t, NAME) && Has(t, TYPE) && DESTINATIONS < |t|
  }

  /** A channel that can be merged with another one: its destinations have names to compare. */
  predicate Comparable(c: Types, t: Table) {
    Channel(c, t) && All(d => Named(c, c.connection, d), TablesOf(t[DESTINATIONS]))
  }

  /** Plain merging of two tables. */
  function MergeEntries(c: Types, ty: nat, a: Table, b: Table): (r: Table)
    requires ValidTypes(c) && OfType(c, ty, a) && OfType(c, ty, b)
    ensures OfType(c, ty, r)
  {
    MergeTables(c.schema, ty, Some(a), Some(b))
  }

  lemma MergedField(c: Types, ty: nat, a: Table, b: Table, i: nat)
    requires ValidTypes(c) && OfType(c, ty, a) && OfType(c, ty, b) && i < |a|
    ensures MergeEntries(c, ty, a, b)[i] == Join(c.schema, FieldsOf(c.schema, ty)[i], a[i], b[i])
  {
  }

  /** The later text wins; the earlier one stays if there is no later one. */
  lemma MergedText(c: Types, ty: nat, a: Table, b: Table, i: nat)
    requires ValidTypes(c) && OfType(c, ty, a) && OfType(c, ty, b) && Text(FieldsOf(c.schema, ty), i)
    ensures MergeEntries(c, ty, a, b)[i] == if b[i].Some? then b[i] else a[i]
  {
    MergedField(c, ty, a, b, i);
  }

  /** Destinations, connections, nodes: merged as they are. */
  function NamedMerger(c: Types, ty: nat): Merger<Table>
    requires ValidTypes(c)
  {
    Merger((t: Table) => [TextOf(t, NAME)],
           (a: Table, b: Table) => if Named(c, ty, a) && Named(c, ty, b) then MergeEntries(c, ty, a, b) else a)
  }

  lemma NamedLawful(c: Types, ty: nat)
    requires ValidTypes(c) && IsTable(c.schema, ty) && Text(FieldsOf(c.schema, ty), NAME)
    ensures Lawful(NamedMerger(c, ty))
    ensures var g := NamedMerger(c, ty);
      forall a, b :: Named(c, ty, a) && Named(c, ty, b) ==> Named(c, ty, g.combine(a, b))
  {
    var g := NamedMerger(c, ty);
    forall a: Table, b: Table | Named(c, ty, a) && Named(c, ty, b)
      ensures Named(c, ty, g.combine(a, b))
      ensures g.key(a) == g.key(b) ==> g.key(g.combine(a, b)) == g.key(a)
    {
      MergedText(c, ty, a, b, NAME);
    }
  }

  // ------------------------------------------------------------------------ destinations

  function Destinations(t: Table): seq<Table>
    requires DESTINATIONS < |t|
  {
    TablesOf(t[DESTINATIONS])
  }

  /** Destinations of the same name are merged; the list changes only if there are any. */
  function MergeDestinations(c: Types, m: Table): (r: Table)
    requires ValidTypes(c) && Comparable(c, m)
  {
    if m[DESTINATIONS].None? then m
    else
      var ds := MergeByKey(NamedMerger(c, c.connection), Destinations(m));
      if |ds| != |Destinations(m)| then m[DESTINATIONS := Some(VectorOf(ds))] else m
  }

  /** The result has one destination of each name: all those of the name, merged in order. */
  lemma DestinationsMerged(c: Types, m: Table, name: string)
    requires ValidTypes(c) && Comparable(c, m)
    ensures Comparable(c, MergeDestinations(c, m))
    ensures var g, r := NamedMerger(c, c.connection), Destinations(MergeDestinations(c, m));
      Distinct(g, r) && Find(g, r, [name]) == Fold(g, WithKey(g, Destinations(m), [name]))
  {
    var g := NamedMerger(c, c.connection);
    var before := Destinations(m);
    var ds := MergeByKey(g, before);
    DestinationsOk(c, m);
    MergedSize(g, before);
    if |ds| != |before| {
      TablesOfVector(ds);
      MergedSorted(g, before);
      SortedDistinct(g, ds);
      MergedFind(g, before, [name]);
    } else {
      DistinctFind(g, before, [name]);
    }
  }

  lemma DestinationsOk(c: Types, m: Table)
    requires ValidTypes(c) && Comparable(c, m)
    ensures Lawful(NamedMerger(c, c.connection))
    ensures Comparable(c, MergeDestinations(c, m))
  {
    var g := NamedMerger(c, c.connection);
    NamedLawful(c, c.connection);
    var good := d => Named(c, c.connection, d);
    MergedAll(g, good, Destinations(m));
    var ds := MergeByKey(g, Destinations(m));
    TablesOfVector(ds);
    VectorIsOk(c, FieldsOf(c.schema, c.channel)[DESTINATIONS], c.connection, ds);
  }

  // ---------------------------------------------------------------------------- channels

  /** Schemas merge poorly: if both have one, the earlier one goes. */
  function DropOlderSchema(a: Table, b: Table): Table {
    if Has(a, SCHEMA) && Has(b, SCHEMA) then a[SCHEMA := None] else a
  }

  function MergeChannel(c: Types, a: Table, b: Table): (r: Table)
    requires ValidTypes(c) && Comparable(c, a) && Comparable(c, b)
    ensures Comparable(c, r) && TextOf(r, NAME) == TextOf(b, NAME) && TextOf(r, TYPE) == TextOf(b, TYPE)
  {
    ChannelsMerged(c, a, b);
    DestinationsOk(c, MergeEntries(c, c.channel, DropOlderSchema(a, b), b));
    MergeDestinations(c, MergeEntries(c, c.channel, DropOlderSchema(a, b), b))
  }

  lemma ChannelsMerged(c: Types, a: Table, b: Table)
    requires ValidTypes(c) && Comparable(c, a) && Comparable(c, b)
    ensures OfType(c, c.channel, DropOlderSchema(a, b))
    ensures var m := MergeEntries(c, c.channel, DropOlderSchema(a, b), b);
      && Comparable(c, m) && m[NAME] == b[NAME] && m[TYPE] == b[TYPE]
      && Destinations(m) == Destinations(a) + Destinations(b)
  {
    var a' := DropOlderSchema(a, b);
    MergedText(c, c.channel, a', b, NAME);
    MergedText(c, c.channel, a', b, TYPE);
    MergedField(c, c.channel, a', b, DESTINATIONS);
    JoinedTables(c, FieldsOf(c.schema, c.channel)[DESTINATIONS], a[DESTINATIONS], b[DESTINATIONS]);
  }

  lemma JoinedTables(c: Types, f: FieldDef, x: Option<Value>, y: Option<Value>)
    requires ValidTypes(c) && ValidField(c.schema, f) && f.elem.Sequence? && f.repeating
    requires FieldOptionOk(c.schema, f, x) && FieldOptionOk(c.schema, f, y)
    ensures TablesOf(Join(c.schema, f, x, y)) == TablesOf(x) + TablesOf(y)
  {
    hide Join, TablesOf;
    if x.Some? && y.Some? {
      JoinVectors(c.schema, f, x.value, y.value);
      TablesConcat(x.value.elems, y.value.elems);
    } else if x.Some? {
      JoinNeutral(c.schema, f, x);
      NoTables();
      assert TablesOf(x) + [] == TablesOf(x);
    } else {
      JoinNeutral(c.schema, f, y);
      NoTables();
      assert [] + TablesOf(y) == TablesOf(y);
    }
  }

  lemma NoTables()
    ensures TablesOf(None) == []
  {
  }

  lemma TablesConcat(xs: seq<Value>, ys: seq<Value>)
    ensures TablesOf(Some(VVector(xs + ys))) == TablesOf(Some(VVector(xs))) + TablesOf(Some(VVector(ys)))
  {
  }

  function ChannelMerger(c: Types): Merger<Table>
    requires ValidTypes(c)
  {
    Merger((t: Table) => [TextOf(t, NAME), TextOf(t, TYPE)],
           (a: Table, b: Table) => if Comparable(c, a) && Comparable(c, b) then MergeChannel(c, a, b) else a)
  }

  lemma ChannelLawful(c: Types)
    requires ValidTypes(c)
    ensures Lawful(ChannelMerger(c))
    ensures var g := ChannelMerger(c); forall a, b :: Channel(c, a) && Channel(c, b) ==> Channel(c, g.combine(a, b))
    ensures var g := ChannelMerger(c);
      forall a, b :: Comparable(c, a) && Comparable(c, b) ==> Comparable(c, g.combine(a, b))
  {
  }

  /**
   What merging two channels means: for each destination name all connections of either
   side, merged in order; the later schema; every other field merged as usual.
   */
  lemma MergeChannelMeaning(c: Types, a: Table, b: Table, i: nat, name: string)
    requires ValidTypes(c) && Comparable(c, a) && Comparable(c, b) && i < |a|
    ensures |MergeChannel(c, a, b)| == |a| == |b|
    ensures var r, g := MergeChannel(c, a, b), NamedMerger(c, c.connection);
      && (i == SCHEMA ==> r[i] == if b[i].Some? then b[i] else a[i])
      && (i != SCHEMA && i != DESTINATIONS ==> r[i] == Join(c.schema, FieldsOf(c.schema, c.channel)[i], a[i], b[i]))
      && Distinct(g, Destinations(r))
      && Find(g, Destinations(r), [name]) == Fold(g, WithKey(g, Destinations(a) + Destinations(b), [name]))
  {
    ChannelsMerged(c, a, b);
    var a' := DropOlderSchema(a, b);
    var m := MergeEntries(c, c.channel, a', b);
    DestinationsMerged(c, m, name);
    MergedField(c, c.channel, a', b, i);
    JoinNeutral(c.schema, FieldsOf(c.schema, c.channel)[i], a[i]);
    JoinNeutral(c.schema, FieldsOf(c.schema, c.channel)[i], b[i]);
  }

  // ------------------------------------------------------------------------ applications

  predicate Application(c: Types, t: Table) {
    Named(c, c.application, t)
  }

  /** New arguments replace the earlier ones instead of being appended. */
  function MergeApplication(c: Types, a: Table, b: Table): (r: Table)
    requires ValidTypes(c) && Application(c, a) && Application(c, b)
    ensures Application(c, r) && TextOf(r, NAME) == TextOf(b, NAME)
    ensures r[ARGS] == if b[ARGS].Some? then b[ARGS] else a[ARGS]
  {
    var a' := if Has(b, ARGS) then a[ARGS := None] else a;
    MergedText(c, c.application, a', b, NAME);
    JoinNeutral(c.schema, FieldsOf(c.schema, c.application)[ARGS], a[ARGS]);
    JoinNeutral(c.schema, FieldsOf(c.schema, c.application)[ARGS], b[ARGS]);
    MergedField(c, c.application, a', b, ARGS);
    MergeEntries(c, c.application, a', b)
  }

  /** What merging two applications means: the later arguments; every other field merged as usual. */
  lemma MergeApplicationMeaning(c: Types, a: Table, b: Table, i: nat)
    requires ValidTypes(c) && Application(c, a) && Application(c, b) && i < |a|
    ensures |MergeApplication(c, a, b)| == |a| == |b|
    ensures MergeApplication(c, a, b)[i] ==
      if i != ARGS then Join(c.schema, FieldsOf(c.schema, c.application)[i], a[i], b[i])
      else if b[i].Some? then b[i] else a[i]
  {
    MergedField(c, c.application, if Has(b, ARGS) then a[ARGS := None] else a, b, i);
  }

  function ApplicationMerger(c: Types): Merger<Table>
    requires ValidTypes(c)
  {
    Merger((t: Table) => [TextOf(t, NAME)],
           (a: Table, b: Table) => if Application(c, a) && Application(c, b) then MergeApplication(c, a, b) else a)
  }

  lemma ApplicationLawful(c: Types)
    requires ValidTypes(c)
    ensures Lawful(ApplicationMerger(c))
    ensures var g := ApplicationMerger(c);
      forall a, b :: Application(c, a) && Application(c, b) ==> Application(c, g.combine(a, b))
  {
  }

  // ------------------------------------------------------------- the whole configuration

  /** The entries that have what they are keyed by; the others are ignored. */
  function Keep(want: Table -> bool, xs: seq<Table>): seq<Table> {
    if xs == [] then [] else Keep(want, ButLast(xs)) + if want(Last(xs)) then [Last(xs)] else []
  }

  lemma {:induction false} KeepAll(want: Table -> bool, good: Table -> bool, xs: seq<Table>)
    requires All(good, xs)
    ensures All(good, Keep(want, xs)) && All(want, Keep(want, xs))
    decreases |xs|
  {
    if xs != [] {
      KeepAll(want, good, ButLast(xs));
    }
  }

  lemma {:induction false} KeepEverything(want: Table -> bool, xs: seq<Table>)
    requires All(want, xs)
    ensures Keep(want, xs) == xs
    decreases |xs|
  {
    if xs != [] {
      KeepEverything(want, ButLast(xs));
      assert xs == ButLast(xs) + [Last(xs)];
    }
  }

  function HasName(): Table -> bool {
    (t: Table) => Has(t, NAME)
  }

  function HasNameAndType(): Table -> bool {
    (t: Table) => Has(t, NAME) && Has(t, TYPE)
  }

  /** Readers are counted exactly for pinned channels. */
  predicate PinOk(t: Table) {
    NumberOf(t, READ_METHOD) == PIN <==> NumberOf(t, NUM_READERS) != 0
  }

  predicate AllPinned(xs: seq<Table>) {
    forall i :: 0 <= i < |xs| ==> PinOk(xs[i])
  }

  predicate AllChannels(c: Types, xs: seq<Table>) {
    forall i :: 0 <= i < |xs| ==> Channel(c, xs[i])
  }

  predicate Config(c: Types, t: Table)
    requires ValidTypes(c)
  {
    OfType(c, c.configuration, t)
  }

  function ChannelsOf(c: Types, t: Table): seq<Table>
    requires ValidTypes(c) && Config(c, t)
  {
    Keep(HasNameAndType(), TablesOf(t[CHANNELS]))
  }

  function ApplicationsOf(c: Types, t: Table): seq<Table>
    requires ValidTypes(c) && Config(c, t)
  {
    Keep(HasName(), TablesOf(t[APPLICATIONS]))
  }

  function NodesOf(c: Types, t: Table): seq<Table>
    requires ValidTypes(c) && Config(c, t)
  {
    Keep(HasName(), TablesOf(t[NODES]))
  }

  /** Where two channels share a key, their destinations have names. */
  predicate SharedComparable(c: Types, xs: seq<Table>)
    requires ValidTypes(c)
  {
    forall i, j :: 0 <= i < j < |xs| && ChannelMerger(c).key(xs[i]) == ChannelMerger(c).key(xs[j]) ==>
      Comparable(c, xs[i]) && Comparable(c, xs[j])
  }

  /** A configuration whose channels can be merged. */
  predicate Mergeable(c: Types, t: Table)
    requires ValidTypes(c)
  {
    Config(c, t) && SharedComparable(c, ChannelsOf(c, t))
  }

  lemma ChannelsCount(c: Types, t: Table)
    requires ValidTypes(c) && Config(c, t)
    ensures AllChannels(c, ChannelsOf(c, t))
  {
    if t[CHANNELS].Some? {
      TablesAreOk(c, FieldsOf(c.schema, c.configuration)[CHANNELS], c.channel, t[CHANNELS].value);
    }
    KeepAll(HasNameAndType(), x => OfType(c, c.channel, x), TablesOf(t[CHANNELS]));
  }

  function SortedChannels(c: Types, t: Table): seq<Table>
    requires ValidTypes(c) && Mergeable(c, t)
  {
    MergeByKey(ChannelMerger(c), ChannelsOf(c, t))
  }

  function SortedApplications(c: Types, t: Table): seq<Table>
    requires ValidTypes(c) && Config(c, t)
  {
    MergeByKey(ApplicationMerger(c), ApplicationsOf(c, t))
  }

  function SortedNodes(c: Types, t: Table): seq<Table>
    requires ValidTypes(c) && Config(c, t)
  {
    MergeByKey(NamedMerger(c, c.node), NodesOf(c, t))
  }

  /** The table with the three lists replaced. */
  function WithLists(t: Table, cs: Option<Value>, ps: Option<Value>, ns: Option<Value>): Table
    requires NODES < |t|
  {
    t[CHANNELS := cs][APPLICATIONS := ps][NODES := ns]
  }

  /** The table with the sorted lists; applications and nodes only if they were there. */
  function WithSorted(c: Types, t: Table, base: Table): Table
    requires ValidTypes(c) && Mergeable(c, t) && |base| == |t|
  {
    WithLists(base, Some(VectorOf(SortedChannels(c, t))),
              if t[APPLICATIONS].None? then None else Some(VectorOf(SortedApplications(c, t))),
              if t[NODES].None? then None else Some(VectorOf(SortedNodes(c, t))))
  }

  /** The configuration with only the three sorted lists. */
  function Modified(c: Types, t: Table): Table
    requires ValidTypes(c) && Mergeable(c, t)
  {
    WithSorted(c, t, EmptyTable(|t|))
  }

  /** The configuration without them. */
  function Rest(t: Table): Table
    requires NODES < |t|
  {
    WithLists(t, None, None, None)
  }

  lemma ChannelsOk(c: Types, t: Table)
    requires ValidTypes(c) && Mergeable(c, t)
    ensures Lawful(ChannelMerger(c)) && AllChannels(c, SortedChannels(c, t))
    ensures FieldOk(c.schema, FieldsOf(c.schema, c.configuration)[CHANNELS], VectorOf(SortedChannels(c, t)))
  {
    ChannelLawful(c);
    ChannelsCount(c, t);
    MergedAll(ChannelMerger(c), x => Channel(c, x), ChannelsOf(c, t));
    VectorIsOk(c, FieldsOf(c.schema, c.configuration)[CHANNELS], c.channel, SortedChannels(c, t));
  }

  lemma NamedEntries(c: Types, ty: nat, f: FieldDef, x: Option<Value>)
    requires f.elem.Sequence? && f.repeating && f.ref == Some(ty) && FieldOptionOk(c.schema, f, x)
    ensures All(t => Named(c, ty, t), Keep(HasName(), TablesOf(x)))
  {
    if x.Some? {
      TablesAreOk(c, f, ty, x.value);
    }
    KeepAll(HasName(), t => OfType(c, ty, t), TablesOf(x));
  }

  lemma ApplicationsOk(c: Types, t: Table)
    requires ValidTypes(c) && Config(c, t)
    ensures Lawful(ApplicationMerger(c)) && All(x => Application(c, x), SortedApplications(c, t))
    ensures FieldOk(c.schema, FieldsOf(c.schema, c.configuration)[APPLICATIONS], VectorOf(SortedApplications(c, t)))
  {
    var f := FieldsOf(c.schema, c.configuration)[APPLICATIONS];
    NamedEntries(c, c.application, f, t[APPLICATIONS]);
    ApplicationLawful(c);
    MergedAll(ApplicationMerger(c), x => Application(c, x), ApplicationsOf(c, t));
    VectorIsOk(c, f, c.application, SortedApplications(c, t));
  }

  lemma NodesOk(c: Types, t: Table)
    requires ValidTypes(c) && Config(c, t)
    ensures Lawful(NamedMerger(c, c.node)) && All(x => Named(c, c.node, x), SortedNodes(c, t))
    ensures FieldOk(c.schema, FieldsOf(c.schema, c.configuration)[NODES], VectorOf(SortedNodes(c, t)))
  {
    var f := FieldsOf(c.schema, c.configuration)[NODES];
    NamedEntries(c, c.node, f, t[NODES]);
    NamedLawful(c, c.node);
    MergedAll(NamedMerger(c, c.node), x => Named(c, c.node, x), NodesOf(c, t));
    VectorIsOk(c, f, c.node, SortedNodes(c, t));
  }

  lemma ReplaceOk(c: Types, t: Table, cs: Option<Value>, ps: Option<Value>, ns: Option<Value>)
    requires ValidTypes(c) && Config(c, t)
    requires FieldOptionOk(c.schema, FieldsOf(c.schema, c.configuration)[CHANNELS], cs)
    requires FieldOptionOk(c.schema, FieldsOf(c.schema, c.configuration)[APPLICATIONS], ps)
    requires FieldOptionOk(c.schema, FieldsOf(c.schema, c.configuration)[NODES], ns)
    ensures Config(c, WithLists(t, cs, ps, ns))
  {
  }

  lemma PartsOk(c: Types, t: Table)
    requires ValidTypes(c) && Mergeable(c, t)
    ensures Config(c, Modified(c, t)) && Config(c, Rest(t))
  {
    ReplaceOk(c, t, None, None, None);
    var ps := if t[APPLICATIONS].None? then None else Some(VectorOf(SortedApplications(c, t)));
    var ns := if t[NODES].None? then None else Some(VectorOf(SortedNodes(c, t)));
    ChannelsOk(c, t);
    ApplicationsOk(c, t);
    NodesOk(c, t);
    ReplaceOk(c, EmptyTable(|t|), Some(VectorOf(SortedChannels(c, t))), ps, ns);
  }

  /** The sorted lists with everything else merged in. */
  function Merged(c: Types, t: Table): (r: Table)
    requires ValidTypes(c) && Mergeable(c, t)
    ensures Config(c, r)
  {
    PartsOk(c, t);
    MergeEntries(c, c.configuration, Modified(c, t), Rest(t))
  }

  /** Fails where a channel that counts has readers and no pinning, or the reverse. */
  function MergeConfiguration(c: Types, t: Table): Option<Table>
    requires ValidTypes(c) && Mergeable(c, t)
  {
    if AllPinned(ChannelsOf(c, t)) && c.valid(Merged(c, t)) then Some(Merged(c, t)) else None
  }

  // --------------------------------------------------------------------------- its meaning

  /** Three lists are replaced, and every other field passes through. */
  lemma MergedFields(c: Types, t: Table)
    requires ValidTypes(c) && Mergeable(c, t)
    ensures Merged(c, t) == WithSorted(c, t, t)
  {
    hide SortedChannels, SortedApplications, SortedNodes, Join, VectorOf;
    PartsOk(c, t);
    var m, r := Modified(c, t), Rest(t);
    forall i | 0 <= i < |t|
      ensures Merged(c, t)[i] == if r[i].None? then m[i] else t[i]
    {
      MergedField(c, c.configuration, m, r, i);
      JoinNeutral(c.schema, FieldsOf(c.schema, c.configuration)[i], m[i]);
      JoinNeutral(c.schema, FieldsOf(c.schema, c.configuration)[i], r[i]);
    }
  }

  /** What the result lists as channels. */
  lemma MergedChannels(c: Types, t: Table)
    requires ValidTypes(c) && Mergeable(c, t)
    ensures TablesOf(Merged(c, t)[CHANNELS]) == SortedChannels(c, t) == ChannelsOf(c, Merged(c, t))
    ensures Mergeable(c, Merged(c, t))
  {
    MergedFields(c, t);
    ChannelsOk(c, t);
    TablesOfVector(SortedChannels(c, t));
    KeepEverything(HasNameAndType(), SortedChannels(c, t));
    MergedSorted(ChannelMerger(c), ChannelsOf(c, t));
    SortedDistinct(ChannelMerger(c), SortedChannels(c, t));
  }

  /**
   The channels of the result are strictly sorted by name and type.  For each key there is
   exactly one if the key occurs in the input, and it is the merge, in order, of the input
   channels with that key.
   */
  lemma ChannelsMeaning(c: Types, t: Table, k: Key)
    requires ValidTypes(c) && Mergeable(c, t)
    ensures var g, r := ChannelMerger(c), TablesOf(Merged(c, t)[CHANNELS]);
      && Sorted(g, r) && Distinct(g, r)
      && Find(g, r, k) == Fold(g, WithKey(g, ChannelsOf(c, t), k))
      && (Find(g, r, k).None? <==> forall i :: 0 <= i < |ChannelsOf(c, t)| ==> g.key(ChannelsOf(c, t)[i]) != k)
  {
    var g := ChannelMerger(c);
    MergedChannels(c, t);
    ChannelLawful(c);
    MergedSorted(g, ChannelsOf(c, t));
    SortedDistinct(g, SortedChannels(c, t));
    MergedFind(g, ChannelsOf(c, t), k);
    WithKeyEmpty(g, ChannelsOf(c, t), k);
  }

  /** Applications likewise, sorted by name. */
  lemma ApplicationsMeaning(c: Types, t: Table, k: Key)
    requires ValidTypes(c) && Mergeable(c, t) && t[APPLICATIONS].Some?
    ensures var g, r := ApplicationMerger(c), TablesOf(Merged(c, t)[APPLICATIONS]);
      && Sorted(g, r) && Distinct(g, r) && All(x => Application(c, x), r)
      && Find(g, r, k) == Fold(g, WithKey(g, ApplicationsOf(c, t), k))
  {
    hide Merged, Keep, MergeByKey;
    var g := ApplicationMerger(c);
    MergedFields(c, t);
    TablesOfVector(SortedApplications(c, t));
    ApplicationsOk(c, t);
    MergedSorted(g, ApplicationsOf(c, t));
    SortedDistinct(g, SortedApplications(c, t));
    MergedFind(g, ApplicationsOf(c, t), k);
  }

  /** Nodes likewise. */
  lemma NodesMeaning(c: Types, t: Table, k: Key)
    requires ValidTypes(c) && Mergeable(c, t) && t[NODES].Some?
    ensures var g, r := NamedMerger(c, c.node), TablesOf(Merged(c, t)[NODES]);
      && Sorted(g, r) && Distinct(g, r) && All(x => Named(c, c.node, x), r)
      && Find(g, r, k) == Fold(g, WithKey(g, NodesOf(c, t), k))
  {
    hide Merged, Keep, MergeByKey;
    var g := NamedMerger(c, c.node);
    MergedFields(c, t);
    TablesOfVector(SortedNodes(c, t));
    NodesOk(c, t);
    MergedSorted(g, NodesOf(c, t));
    SortedDistinct(g, SortedNodes(c, t));
    MergedFind(g, NodesOf(c, t), k);
  }

  /** Entries that are ignored, and the order of channels with different keys, do not matter. */
  lemma ChannelOrderIrrelevant(c: Types, t: Table, u: Table)
    requires ValidTypes(c) && Mergeable(c, t) && Mergeable(c, u) && Rest(t) == Rest(u)
    requires t[APPLICATIONS] == u[APPLICATIONS] && t[NODES] == u[NODES]
    requires var g := ChannelMerger(c);
      forall k: Key :: WithKey(g, ChannelsOf(c, t), k) == WithKey(g, ChannelsOf(c, u), k)
    ensures Merged(c, t) == Merged(c, u)
  {
    ChannelLawful(c);
    OrderIrrelevant(ChannelMerger(c), ChannelsOf(c, t), ChannelsOf(c, u));
  }

  // -------------------------------------------------------------------------- idempotence

  lemma MergedTwice(c: Types, t: Table)
    requires ValidTypes(c) && Mergeable(c, t)
    ensures Mergeable(c, Merged(c, t)) && Merged(c, Merged(c, t)) == Merged(c, t)
  {
    hide SortedChannels, SortedApplications, SortedNodes, Merged;
    var r := Merged(c, t);
    MergedFields(c, t);
    SortedChannelsTwice(c, t);
    SortedApplicationsTwice(c, t);
    SortedNodesTwice(c, t);
    MergedFields(c, r);
  }

  lemma SortedChannelsTwice(c: Types, t: Table)
    requires ValidTypes(c) && Mergeable(c, t)
    ensures Mergeable(c, Merged(c, t)) && SortedChannels(c, Merged(c, t)) == SortedChannels(c, t)
  {
    MergedChannels(c, t);
    ChannelLawful(c);
    MergedSorted(ChannelMerger(c), ChannelsOf(c, t));
    MergeSorted(ChannelMerger(c), SortedChannels(c, t));
  }

  lemma SortedApplicationsTwice(c: Types, t: Table)
    requires ValidTypes(c) && Mergeable(c, t)
    ensures t[APPLICATIONS].Some? ==> SortedApplications(c, Merged(c, t)) == SortedApplications(c, t)
  {
    var s := SortedApplications(c, t);
    ApplicationsOk(c, t);
    MergedFields(c, t);
    TablesOfVector(s);
    KeepEverything(HasName(), s);
    MergedSorted(ApplicationMerger(c), ApplicationsOf(c, t));
    MergeSorted(ApplicationMerger(c), s);
  }

  lemma SortedNodesTwice(c: Types, t: Table)
    requires ValidTypes(c) && Mergeable(c, t)
    ensures t[NODES].Some? ==> SortedNodes(c, Merged(c, t)) == SortedNodes(c, t)
  {
    var s := SortedNodes(c, t);
    NodesOk(c, t);
    MergedFields(c, t);
    TablesOfVector(s);
    KeepEverything(HasName(), s);
    MergedSorted(NamedMerger(c, c.node), NodesOf(c, t));
    MergeSorted(NamedMerger(c, c.node), s);
  }

  // ------------------------------------------------- the check on readers, from the input

  /** The last number given for the field; its default, zero, if there is none. */
  function LastSet(xs: seq<Table>, i: nat): int {
    if xs == [] then 0 else if Has(Last(xs), i) then NumberOf(Last(xs), i) else LastSet(ButLast(xs), i)
  }

  /**
   Of all channels with the key, the last read method is to pin if and only if the last
   number of readers is not zero.
   */
  predicate PinnedAt(c: Types, t: Table, k: Key)
    requires ValidTypes(c) && Config(c, t)
  {
    var xs := WithKey(ChannelMerger(c), ChannelsOf(c, t), k);
    LastSet(xs, READ_METHOD) == PIN <==> LastSet(xs, NUM_READERS) != 0
  }

  lemma {:induction false} WithKeyFrom(g: Merger<Table>, xs: seq<Table>, k: Key, p: nat) returns (j: nat)
    requires p < |WithKey(g, xs, k)|
    ensures j < |xs| && xs[j] == WithKey(g, xs, k)[p] && g.key(xs[j]) == k
    decreases |xs|
  {
    if p < |WithKey(g, ButLast(xs), k)| {
      j := WithKeyFrom(g, ButLast(xs), k, p);
    } else {
      j := |xs| - 1;
    }
  }

  /** The channels of a key that occurs more than once can all be merged. */
  lemma {:induction false} WithKeyComparable(c: Types, xs: seq<Table>, k: Key, p: nat)
    requires ValidTypes(c) && SharedComparable(c, xs)
    requires |WithKey(ChannelMerger(c), xs, k)| > 1 && p < |WithKey(ChannelMerger(c), xs, k)|
    ensures Comparable(c, WithKey(ChannelMerger(c), xs, k)[p])
    decreases |xs|
  {
    hide Comparable, ChannelMerger;
    var g, ys, x := ChannelMerger(c), ButLast(xs), Last(xs);
    var ws := WithKey(g, ys, k);
    if g.key(x) != k {
      WithKeyComparable(c, ys, k, p);
    } else {
      var q := if p < |ws| then p else 0;
      var j := WithKeyFrom(g, ys, k, q);
      assert xs[j] == ys[j] && xs[|xs| - 1] == x;
      assert Comparable(c, xs[j]) && Comparable(c, xs[|xs| - 1]);
    }
  }

  predicate AllComparable(c: Types, xs: seq<Table>) {
    forall i :: 0 <= i < |xs| ==> Comparable(c, xs[i])
  }

  lemma {:induction false} FoldComparable(c: Types, xs: seq<Table>)
    requires ValidTypes(c) && xs != [] && AllComparable(c, xs)
    ensures Comparable(c, Fold(ChannelMerger(c), xs).value)
    decreases |xs|
  {
    ChannelLawful(c);
    if |xs| > 1 {
      FoldComparable(c, ButLast(xs));
    }
  }

  lemma MergedNumber(c: Types, a: Table, b: Table, i: nat)
    requires ValidTypes(c) && Comparable(c, a) && Comparable(c, b) && (i == READ_METHOD || i == NUM_READERS)
    ensures NumberOf(MergeChannel(c, a, b), i) == if Has(b, i) then NumberOf(b, i) else NumberOf(a, i)
  {
    MergeChannelMeaning(c, a, b, i, "");
    var f := FieldsOf(c.schema, c.channel)[i];
    assert a[i].Some? ==> FieldOk(c.schema, f, a[i].value);
    assert b[i].Some? ==> FieldOk(c.schema, f, b[i].value);
  }

  /** Merging channels keeps the last numbers given. */
  lemma {:induction false} FoldNumber(c: Types, xs: seq<Table>, i: nat)
    requires ValidTypes(c) && xs != [] && (|xs| > 1 ==> AllComparable(c, xs))
    requires i == READ_METHOD || i == NUM_READERS
    ensures NumberOf(Fold(ChannelMerger(c), xs).value, i) == LastSet(xs, i)
    decreases |xs|
  {
    hide Comparable, MergeChannel;
    if |xs| > 1 {
      FoldNumber(c, ButLast(xs), i);
      FoldComparable(c, ButLast(xs));
      MergedNumber(c, Fold(ChannelMerger(c), ButLast(xs)).value, Last(xs), i);
    } else {
      assert ButLast(xs) == [];
    }
  }

  lemma PinnedFold(c: Types, t: Table, k: Key)
    requires ValidTypes(c) && Mergeable(c, t) && WithKey(ChannelMerger(c), ChannelsOf(c, t), k) != []
    ensures PinOk(Fold(ChannelMerger(c), WithKey(ChannelMerger(c), ChannelsOf(c, t), k)).value) <==> PinnedAt(c, t, k)
  {
    hide Comparable;
    var xs := WithKey(ChannelMerger(c), ChannelsOf(c, t), k);
    if |xs| > 1 {
      forall p | 0 <= p < |xs|
        ensures Comparable(c, xs[p])
      {
        WithKeyComparable(c, ChannelsOf(c, t), k, p);
      }
    }
    FoldNumber(c, xs, READ_METHOD);
    FoldNumber(c, xs, NUM_READERS);
  }

  /** The merged channels count readers correctly exactly if for each key the last settings of the input do. */
  lemma PinnedInput(c: Types, t: Table)
    requires ValidTypes(c) && Mergeable(c, t)
    ensures AllPinned(SortedChannels(c, t)) <==> forall k: Key :: PinnedAt(c, t, k)
  {
    hide PinOk, PinnedAt, Comparable, ChannelMerger;
    var g, xs, r := ChannelMerger(c), ChannelsOf(c, t), SortedChannels(c, t);
    ChannelLawful(c);
    MergedSorted(g, xs);
    if AllPinned(r) {
      forall k: Key
        ensures PinnedAt(c, t, k)
      {
        MergedFind(g, xs, k);
        if WithKey(g, xs, k) == [] {
          NothingPinned(c, t, k);
        } else {
          FindNone(g, r, k);
          PinnedFold(c, t, k);
        }
      }
    }
    if forall k: Key :: PinnedAt(c, t, k) {
      forall i | 0 <= i < |r|
        ensures PinOk(r[i])
      {
        var k := g.key(r[i]);
        FindAt(g, r, k, i);
        MergedFind(g, xs, k);
        PinnedFold(c, t, k);
      }
    }
  }

  lemma NothingPinned(c: Types, t: Table, k: Key)
    requires ValidTypes(c) && Config(c, t) && WithKey(ChannelMerger(c), ChannelsOf(c, t), k) == []
    ensures PinnedAt(c, t, k)
  {
  }

  /**
   Merging a merged configuration again gives the same configuration if and only if, for
   each key of the input, the last read method and the last number of readers given agree.
   */
  lemma Idempotent(c: Types, t: Table, r: Table)
    requires ValidTypes(c) && Mergeable(c, t) && MergeConfiguration(c, t) == Some(r)
    ensures Mergeable(c, r)
    ensures MergeConfiguration(c, r) == Some(r) <==> forall k: Key :: PinnedAt(c, t, k)
    ensures MergeConfiguration(c, r).Some? ==> MergeConfiguration(c, r) == Some(r)
  {
    hide PinnedAt;
    MergedTwice(c, t);
    MergedChannels(c, t);
    PinnedInput(c, t);
  }

  /** Channel tables with just a name, a type, a read method and a number of readers. */
  function Sample(n: nat, pinned: int, readers: Option<Value>): (t: Table)
    requires n > NUM_READERS
  {
    EmptyTable(n)[NAME := Some(VString("/a"))][TYPE := Some(VString("T"))]
      [READ_METHOD := Some(VInt(pinned))][NUM_READERS := readers]
  }

  lemma SampleIsChannel(c: Types, pinned: int, readers: Option<Value>)
    requires ValidTypes(c) && 0 <= pinned <= 1 && (readers.None? || readers == Some(VInt(1)))
    ensures Comparable(c, Sample(|FieldsOf(c.schema, c.channel)|, pinned, readers))
  {
  }

  lemma Samples(c: Types) returns (a: Table, b: Table)
    requires ValidTypes(c)
    ensures Comparable(c, a) && Comparable(c, b) && PinOk(a) && PinOk(b)
    ensures TextOf(a, NAME) == TextOf(b, NAME) && TextOf(a, TYPE) == TextOf(b, TYPE)
    ensures b[READ_METHOD] == Some(VInt(0)) && a[NUM_READERS] == Some(VInt(1)) && b[NUM_READERS].None?
  {
    var n := |FieldsOf(c.schema, c.channel)|;
    a, b := Sample(n, PIN, Some(VInt(1))), Sample(n, 0, None);
    SampleIsChannel(c, PIN, Some(VInt(1)));
    SampleIsChannel(c, 0, None);
  }

  /** The second run can fail: a pinned channel with readers, then the same channel not pinned. */
  lemma SecondRunFails(c: Types) returns (t: Table)
    requires ValidTypes(c)
    ensures Mergeable(c, t) && Mergeable(c, Merged(c, t))
    ensures c.valid(Merged(c, t)) ==>
      MergeConfiguration(c, t) == Some(Merged(c, t)) && MergeConfiguration(c, Merged(c, t)).None?
  {
    t := UnpinnedConfig(c);
    RefusedTwice(c, t);
  }

  lemma RefusedTwice(c: Types, t: Table)
    requires ValidTypes(c) && Mergeable(c, t)
    requires AllPinned(ChannelsOf(c, t)) && !AllPinned(SortedChannels(c, t))
    ensures Mergeable(c, Merged(c, t)) && MergeConfiguration(c, Merged(c, t)).None?
    ensures c.valid(Merged(c, t)) ==> MergeConfiguration(c, t) == Some(Merged(c, t))
  {
    hide AllPinned, SortedChannels, Merged, ValidTypes;
    MergedChannels(c, t);
  }

  lemma UnpinnedConfig(c: Types) returns (t: Table)
    requires ValidTypes(c)
    ensures Mergeable(c, t) && AllPinned(ChannelsOf(c, t)) && !AllPinned(SortedChannels(c, t))
  {
    hide Comparable, MergeChannel, ValidTypes, Config, PinOk;
    var a, b := Samples(c);
    t := SampleConfig(c, [a, b]);
    SamplesMerge(c, a, b);
    var m := MergeChannel(c, a, b);
    assert SortedChannels(c, t) == [m];
    assert !AllPinned([m]) by {
      assert [m][0] == m;
    }
  }

  lemma SamplesMerge(c: Types, a: Table, b: Table)
    requires ValidTypes(c) && Comparable(c, a) && Comparable(c, b)
    requires TextOf(a, NAME) == TextOf(b, NAME) && TextOf(a, TYPE) == TextOf(b, TYPE)
    requires b[READ_METHOD] == Some(VInt(0)) && a[NUM_READERS] == Some(VInt(1)) && b[NUM_READERS].None?
    ensures MergeByKey(ChannelMerger(c), [a, b]) == [MergeChannel(c, a, b)] && !PinOk(MergeChannel(c, a, b))
  {
    MergePair(ChannelMerger(c), a, b);
    SampleUnpinned(c, a, b);
  }

  lemma SampleUnpinned(c: Types, a: Table, b: Table)
    requires ValidTypes(c) && Comparable(c, a) && Comparable(c, b)
    requires b[READ_METHOD] == Some(VInt(0)) && a[NUM_READERS] == Some(VInt(1)) && b[NUM_READERS].None?
    ensures !PinOk(MergeChannel(c, a, b))
  {
    MergeChannelMeaning(c, a, b, READ_METHOD, "");
    MergeChannelMeaning(c, a, b, NUM_READERS, "");
  }

  lemma SampleConfig(c: Types, cs: seq<Table>) returns (t: Table)
    requires ValidTypes(c) && AllChannels(c, cs) && SharedComparable(c, cs)
    ensures Mergeable(c, t) && ChannelsOf(c, t) == cs && SortedChannels(c, t) == MergeByKey(ChannelMerger(c), cs)
  {
    t := EmptyTable(|FieldsOf(c.schema, c.configuration)|)[CHANNELS := Some(VectorOf(cs))];
    TablesOfVector(cs);
    VectorIsOk(c, FieldsOf(c.schema, c.configuration)[CHANNELS], c.channel, cs);
    KeepEverything(HasNameAndType(), cs);
  }
}
