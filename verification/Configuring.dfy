/** The loops of `MergeConfiguration`, against the meaning in `Configuration`. */
module Configuring {
  import opened Common
  import opened Flat
  import opened Merge
  import opened Keyed
  import opened Configuration

  /** A set kept in the order of the keys. */
  class SortedSet {
    var items: seq<Table>

    constructor ()
      ensures items == []
    {
      items := [];
    }

    /** Inserts an entry unless its key is there; says where it is, or where the other one is. */
    method Add(g: Merger<Table>, x: Table) returns (p: nat, added: bool)
      modifies this
      ensures p == LowerBound(g, old(items), g.key(x)) < |items|
      ensures added ==> items == Insert(g, old(items), x)
      ensures !added ==> items == old(items) && g.key(items[p]) == g.key(x)
    {
      p := LowerBound(g, items, g.key(x));
      added := !(p < |items| && g.key(items[p]) == g.key(x));
      if added {
        items := items[..p] + [x] + items[p..];
      }
    }

    /** Overwrites an entry where it is. */
    method Replace(p: nat, x: Table)
      requires p < |items|
      modifies this
      ensures items == old(items)[p := x]
    {
      items := items[p := x];
    }
  }

  /** A recursive copy. */
  method Copy(c: Types, ty: nat, t: Table) returns (r: Table)
    requires ValidTypes(c) && OfType(c, ty, t)
    ensures r == t
  {
    CopyTable(c.schema, ty, t);
    r := MergeTables(c.schema, ty, Some(t), None);
  }

  lemma Grows<T>(g: Merger<T>, xs: seq<T>, k: nat)
    requires k < |xs|
    ensures MergeByKey(g, xs[..k + 1]) == Insert(g, MergeByKey(g, xs[..k]), xs[k])
  {
    assert ButLast(xs[..k + 1]) == xs[..k];
  }

  lemma KeepGrows(want: Table -> bool, g: Merger<Table>, xs: seq<Table>, k: nat)
    requires k < |xs|
    ensures Keep(want, xs[..k + 1]) == Keep(want, xs[..k]) + if want(xs[k]) then [xs[k]] else []
    ensures MergeByKey(g, Keep(want, xs[..k + 1])) ==
      if want(xs[k]) then Insert(g, MergeByKey(g, Keep(want, xs[..k])), xs[k]) else MergeByKey(g, Keep(want, xs[..k]))
  {
    assert ButLast(xs[..k + 1]) == xs[..k];
    var ys := Keep(want, xs[..k]);
    if want(xs[k]) {
      assert ButLast(ys + [xs[k]]) == ys;
    } else {
      assert ys + [] == ys;
    }
  }

  /** What an entry does to the set: inserted, or merged into the entry of its key. */
  method MergeIn(c: Types, ty: nat, entries: SortedSet, x: Table)
    requires ValidTypes(c) && Named(c, ty, x)
    requires forall i :: 0 <= i < |entries.items| ==> Named(c, ty, entries.items[i])
    modifies entries
    ensures entries.items == Insert(NamedMerger(c, ty), old(entries.items), x)
  {
    var copy := Copy(c, ty, x);
    var p, added := entries.Add(NamedMerger(c, ty), copy);
    if !added {
      copy := Copy(c, ty, x);
      entries.Replace(p, MergeEntries(c, ty, entries.items[p], copy));
    }
  }

  lemma NamedSoFar(c: Types, ty: nat, xs: seq<Table>)
    requires ValidTypes(c) && IsTable(c.schema, ty) && Text(FieldsOf(c.schema, ty), NAME)
    requires forall i :: 0 <= i < |xs| ==> Named(c, ty, xs[i])
    ensures var s := MergeByKey(NamedMerger(c, ty), xs); forall i :: 0 <= i < |s| ==> Named(c, ty, s[i])
  {
    NamedLawful(c, ty);
    MergedAll(NamedMerger(c, ty), t => Named(c, ty, t), xs);
  }

  /** Merges the destinations of a merged channel. */
  method MergeConnections(c: Types, ds: seq<Table>) returns (connections: SortedSet)
    requires ValidTypes(c) && forall i :: 0 <= i < |ds| ==> Named(c, c.connection, ds[i])
    ensures fresh(connections) && connections.items == MergeByKey(NamedMerger(c, c.connection), ds)
  {
    connections := new SortedSet();
    for k := 0 to |ds|
      invariant fresh(connections) && connections.items == MergeByKey(NamedMerger(c, c.connection), ds[..k])
    {
      NamedSoFar(c, c.connection, ds[..k]);
      Grows(NamedMerger(c, c.connection), ds, k);
      MergeIn(c, c.connection, connections, ds[k]);
    }
    assert ds[..|ds|] == ds;
  }

  /** One field over an otherwise cleared one. */
  lemma OnlyField(c: Types, ty: nat, m: Table, i: nat, v: Value)
    requires ValidTypes(c) && OfType(c, ty, m) && i < |m| && FieldOk(c.schema, FieldsOf(c.schema, ty)[i], v)
    ensures OfType(c, ty, m[i := None]) && OfType(c, ty, EmptyTable(|m|)[i := Some(v)])
    ensures MergeEntries(c, ty, m[i := None], EmptyTable(|m|)[i := Some(v)]) == m[i := Some(v)]
  {
    var a, b := m[i := None], EmptyTable(|m|)[i := Some(v)];
    forall j | 0 <= j < |m|
      ensures MergeEntries(c, ty, a, b)[j] == m[i := Some(v)][j]
    {
      MergedField(c, ty, a, b, j);
      JoinNeutral(c.schema, FieldsOf(c.schema, ty)[j], a[j]);
      JoinNeutral(c.schema, FieldsOf(c.schema, ty)[j], b[j]);
    }
  }

  method MergeTwoChannels(c: Types, a: Table, b: Table) returns (merged: Table)
    requires ValidTypes(c) && Comparable(c, a) && Comparable(c, b)
    ensures merged == MergeChannel(c, a, b)
  {
    var first := a;
    if Has(first, SCHEMA) && Has(b, SCHEMA) {
      first := first[SCHEMA := None];
    }
    ChannelsMerged(c, a, b);
    merged := MergeEntries(c, c.channel, first, b);
    if merged[DESTINATIONS].Some? {
      var connections := MergeConnections(c, Destinations(merged));
      if |connections.items| != |Destinations(merged)| {
        NamedSoFar(c, c.connection, Destinations(merged));
        var v := VectorOf(connections.items);
        VectorIsOk(c, FieldsOf(c.schema, c.channel)[DESTINATIONS], c.connection, connections.items);
        OnlyField(c, c.channel, merged, DESTINATIONS, v);
        var destinations := EmptyTable(|merged|)[DESTINATIONS := Some(v)];
        merged := MergeEntries(c, c.channel, merged[DESTINATIONS := None], destinations);
      }
    }
  }

  lemma ChannelsSoFar(c: Types, xs: seq<Table>)
    requires ValidTypes(c) && AllChannels(c, xs)
    ensures AllChannels(c, MergeByKey(ChannelMerger(c), xs))
  {
    ChannelLawful(c);
    MergedAll(ChannelMerger(c), x => Channel(c, x), xs);
  }

  lemma SharedPrefix(c: Types, xs: seq<Table>, ys: seq<Table>)
    requires ValidTypes(c) && ys <= xs && SharedComparable(c, xs)
    ensures SharedComparable(c, ys)
  {
    hide Comparable, ChannelMerger;
    forall i, j | 0 <= i < j < |ys| && ChannelMerger(c).key(ys[i]) == ChannelMerger(c).key(ys[j])
      ensures Comparable(c, ys[i]) && Comparable(c, ys[j])
    {
      assert ys[i] == xs[i] && ys[j] == xs[j];
    }
  }

  /** An entry that is there already, and a channel with its key, have destinations with names. */
  lemma SoFarComparable(c: Types, xs: seq<Table>, x: Table)
    requires ValidTypes(c) && SharedComparable(c, xs + [x])
    ensures var g, s := ChannelMerger(c), MergeByKey(ChannelMerger(c), xs);
      forall i :: 0 <= i < |s| && g.key(s[i]) == g.key(x) ==> Comparable(c, s[i]) && Comparable(c, x)
  {
    hide Comparable, ChannelMerger;
    var g, s := ChannelMerger(c), MergeByKey(ChannelMerger(c), xs);
    var k, ys := g.key(x), xs + [x];
    var ws := WithKey(g, xs, k);
    ChannelLawful(c);
    MergedSorted(g, xs);
    MergedFind(g, xs, k);
    assert ButLast(ys) == xs && Last(ys) == x && WithKey(g, ys, k) == ws + [x];
    forall i | 0 <= i < |s| && g.key(s[i]) == k
      ensures Comparable(c, s[i]) && Comparable(c, x)
    {
      FindAt(g, s, k, i);
      forall p | 0 <= p < |ws| + 1
        ensures Comparable(c, (ws + [x])[p])
      {
        WithKeyComparable(c, ys, k, p);
      }
      assert (ws + [x])[|ws|] == x;
      assert forall p :: 0 <= p < |ws| ==> (ws + [x])[p] == ws[p];
      FoldComparable(c, ws);
    }
  }

  method MergeInChannel(c: Types, channels: SortedSet, x: Table)
    requires ValidTypes(c) && Channel(c, x) && AllChannels(c, channels.items)
    requires var g, s := ChannelMerger(c), channels.items;
      forall i :: 0 <= i < |s| && g.key(s[i]) == g.key(x) ==> Comparable(c, s[i]) && Comparable(c, x)
    modifies channels
    ensures channels.items == Insert(ChannelMerger(c), old(channels.items), x)
  {
    var copy := Copy(c, c.channel, x);
    var p, added := channels.Add(ChannelMerger(c), copy);
    if !added {
      var merged := MergeTwoChannels(c, channels.items[p], x);
      channels.Replace(p, merged);
    }
  }

  lemma {:induction false} KeepPrefix(want: Table -> bool, xs: seq<Table>, k: nat)
    requires k <= |xs|
    ensures Keep(want, xs[..k]) <= Keep(want, xs)
    decreases |xs| - k
  {
    if k == |xs| {
      assert xs[..k] == xs;
    } else {
      KeepPrefix(want, xs, k + 1);
      assert ButLast(xs[..k + 1]) == xs[..k];
    }
  }

  lemma NothingKept(want: Table -> bool, g: Merger<Table>, xs: seq<Table>)
    ensures MergeByKey(g, Keep(want, xs[..0])) == []
  {
  }

  /** The loop over the channels; stops where a channel's readers and pinning disagree. */
  method MergeChannels(c: Types, xs: seq<Table>) returns (ok: bool, channels: SortedSet)
    requires ValidTypes(c) && AllChannels(c, Keep(HasNameAndType(), xs))
    requires SharedComparable(c, Keep(HasNameAndType(), xs))
    ensures ok <==> AllPinned(Keep(HasNameAndType(), xs))
    ensures ok ==> channels.items == MergeByKey(ChannelMerger(c), Keep(HasNameAndType(), xs))
  {
    hide Insert, ChannelMerger, Channel, ValidTypes;
    var g, want := ChannelMerger(c), HasNameAndType();
    channels := new SortedSet();
    for k := 0 to |xs|
      invariant fresh(channels) && channels.items == MergeByKey(g, Keep(want, xs[..k]))
      invariant AllPinned(Keep(want, xs[..k]))
    {
      KeepGrows(want, g, xs, k);
      KeepPrefix(want, xs, k + 1);
      if !Has(xs[k], NAME) {
        continue;
      }
      if !Has(xs[k], TYPE) {
        continue;
      }
      assert Last(Keep(want, xs[..k + 1])) == xs[k];
      if (NumberOf(xs[k], READ_METHOD) == PIN) != (NumberOf(xs[k], NUM_READERS) != 0) {
        return false, channels;
      }
      KeepPrefix(want, xs, k);
      ChannelsSoFar(c, Keep(want, xs[..k]));
      SharedPrefix(c, Keep(want, xs), Keep(want, xs[..k + 1]));
      SoFarComparable(c, Keep(want, xs[..k]), xs[k]);
      MergeInChannel(c, channels, xs[k]);
    }
    assert xs[..|xs|] == xs;
    ok := true;
  }

  method MergeInApplication(c: Types, applications: SortedSet, x: Table)
    requires ValidTypes(c) && Application(c, x)
    requires forall i :: 0 <= i < |applications.items| ==> Application(c, applications.items[i])
    modifies applications
    ensures applications.items == Insert(ApplicationMerger(c), old(applications.items), x)
  {
    hide ValidTypes, MergeTables, LowerBound;
    var copy := Copy(c, c.application, x);
    var p, added := applications.Add(ApplicationMerger(c), copy);
    if !added {
      var first := applications.items[p];
      if Has(x, ARGS) {
        first := first[ARGS := None];
      }
      copy := Copy(c, c.application, x);
      applications.Replace(p, MergeEntries(c, c.application, first, copy));
    }
  }

  method MergeApplications(c: Types, xs: seq<Table>) returns (applications: SortedSet)
    requires ValidTypes(c) && forall i :: 0 <= i < |xs| ==> OfType(c, c.application, xs[i])
    ensures applications.items == MergeByKey(ApplicationMerger(c), Keep(HasName(), xs))
  {
    hide Insert, ApplicationMerger, ValidTypes, OfType, MergeByKey, Keep;
    var g, want := ApplicationMerger(c), HasName();
    NothingKept(want, g, xs);
    applications := new SortedSet();
    for k := 0 to |xs|
      invariant fresh(applications) && applications.items == MergeByKey(g, Keep(want, xs[..k]))
    {
      KeepGrows(want, g, xs, k);
      if !Has(xs[k], NAME) {
        continue;
      }
      ApplicationsSoFar(c, xs[..k]);
      MergeInApplication(c, applications, xs[k]);
    }
    assert xs[..|xs|] == xs;
  }

  lemma ApplicationsSoFar(c: Types, xs: seq<Table>)
    requires ValidTypes(c) && forall i :: 0 <= i < |xs| ==> OfType(c, c.application, xs[i])
    ensures var s := MergeByKey(ApplicationMerger(c), Keep(HasName(), xs));
      forall i :: 0 <= i < |s| ==> Application(c, s[i])
  {
    ApplicationLawful(c);
    KeepAll(HasName(), t => OfType(c, c.application, t), xs);
    MergedAll(ApplicationMerger(c), t => Application(c, t), Keep(HasName(), xs));
  }

  method MergeNodes(c: Types, xs: seq<Table>) returns (nodes: SortedSet)
    requires ValidTypes(c) && forall i :: 0 <= i < |xs| ==> OfType(c, c.node, xs[i])
    ensures nodes.items == MergeByKey(NamedMerger(c, c.node), Keep(HasName(), xs))
  {
    hide Insert, NamedMerger, MergeByKey, Keep;
    var g, want := NamedMerger(c, c.node), HasName();
    NothingKept(want, g, xs);
    nodes := new SortedSet();
    for k := 0 to |xs|
      invariant fresh(nodes) && nodes.items == MergeByKey(g, Keep(want, xs[..k]))
    {
      KeepGrows(want, g, xs, k);
      if !Has(xs[k], NAME) {
        continue;
      }
      KeepAll(want, t => OfType(c, c.node, t), xs[..k]);
      NamedSoFar(c, c.node, Keep(want, xs[..k]));
      MergeIn(c, c.node, nodes, xs[k]);
    }
    assert xs[..|xs|] == xs;
  }

  lemma ListedTables(c: Types, t: Table)
    requires ValidTypes(c) && Config(c, t)
    ensures var xs := TablesOf(t[APPLICATIONS]); forall i :: 0 <= i < |xs| ==> OfType(c, c.application, xs[i])
    ensures var xs := TablesOf(t[NODES]); forall i :: 0 <= i < |xs| ==> OfType(c, c.node, xs[i])
  {
    var fs := FieldsOf(c.schema, c.configuration);
    if t[APPLICATIONS].Some? {
      TablesAreOk(c, fs[APPLICATIONS], c.application, t[APPLICATIONS].value);
    }
    if t[NODES].Some? {
      TablesAreOk(c, fs[NODES], c.node, t[NODES].value);
    }
  }

  /** The whole merge; `None` where the original stops the program. */
  method MergeConfigurationTable(c: Types, t: Table) returns (r: Option<Table>)
    requires ValidTypes(c) && Mergeable(c, t)
    ensures r == MergeConfiguration(c, t)
  {
    hide MergeByKey, Keep, MergeTables;
    ChannelsCount(c, t);
    var rest := Copy(c, c.configuration, t);
    var ok, channels := MergeChannels(c, TablesOf(t[CHANNELS]));
    if !ok {
      return None;
    }
    ListedTables(c, t);
    var applications := MergeApplications(c, TablesOf(t[APPLICATIONS]));
    var nodes := MergeNodes(c, TablesOf(t[NODES]));
    rest := rest[CHANNELS := None][APPLICATIONS := None][NODES := None];
    var modified := EmptyTable(|t|)[CHANNELS := Some(VectorOf(channels.items))];
    if t[APPLICATIONS].Some? {
      modified := modified[APPLICATIONS := Some(VectorOf(applications.items))];
    }
    if t[NODES].Some? {
      modified := modified[NODES := Some(VectorOf(nodes.items))];
    }
    PartsOk(c, t);
    assert modified == Modified(c, t);
    var result := MergeEntries(c, c.configuration, modified, rest);
    r := if c.valid(result) then Some(result) else None;
  }
}
