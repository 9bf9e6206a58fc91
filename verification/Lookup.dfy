/** Looking channels up by name: renaming by maps, and binary search for the key. */
module Lookup {
  import opened Common
  import opened Flat
  import FieldPaths
  import opened Keyed
  import opened Configuration

  // ------------------------------------------------------------------------- renaming

  /** A map that is filled out: what it matches, and the new name. */
  datatype Rule = Rule(name: string, kind: Option<string>, node: Option<string>, rename: string)

  const MATCH: nat := 0
  const RENAME: nat := 1
  const SOURCE_NODE: nat := 7

  function TextIn(t: Table, i: nat): Option<string> {
    if Has(t, i) && t[i].value.VString? then Some(t[i].value.s) else None
  }

  function TableIn(t: Table, i: nat): Option<Table> {
    if Has(t, i) && t[i].value.VTable? then Some(t[i].value.fields) else None
  }

  /** The rule in a map table; none if a part that is needed is missing. */
  function RuleOf(m: Table): Option<Rule> {
    match (TableIn(m, MATCH), TableIn(m, RENAME))
    case (Some(a), Some(b)) =>
      (match (TextIn(a, NAME), TextIn(b, NAME))
       case (Some(x), Some(y)) => Some(Rule(x, TextIn(a, TYPE), TextIn(a, SOURCE_NODE), y))
       case _ => None)
    case _ => None
  }

  function AsText(x: Option<Value>): Option<string> {
    if x.Some? && x.value.VString? then Some(x.value.s) else None
  }

  /** A map matches by the name, type and source node of its match, and renames to the name of its rename. */
  lemma RuleMeaning(m: Table, r: Rule)
    ensures RuleOf(m) == Some(r) <==>
      && FieldPaths.At(m, [MATCH, NAME]) == Some(VString(r.name))
      && FieldPaths.At(m, [RENAME, NAME]) == Some(VString(r.rename))
      && AsText(FieldPaths.At(m, [MATCH, TYPE])) == r.kind
      && AsText(FieldPaths.At(m, [MATCH, SOURCE_NODE])) == r.node
  {
    AtTwo(m, MATCH, NAME);
    AtTwo(m, RENAME, NAME);
    AtTwo(m, MATCH, TYPE);
    AtTwo(m, MATCH, SOURCE_NODE);
  }

  lemma AtTwo(m: Table, i: nat, j: nat)
    ensures AsText(FieldPaths.At(m, [i, j])) == if TableIn(m, i).None? then None else TextIn(TableIn(m, i).value, j)
  {
    assert [i, j][1..] == [j];
  }

  predicate Starred(name: string) {
    name != "" && Last(name) == '*'
  }

  /** The first position of a star; the length if there is none. */
  function FirstStar(s: string): (i: nat)
    ensures i <= |s| && (i < |s| ==> s[i] == '*') && (forall j :: 0 <= j < i ==> s[j] != '*')
  {
    if s == "" || s[0] == '*' then 0 else 1 + FirstStar(s[1..])
  }

  /** The filters on the type and, if the node is known, on the node. */
  predicate Applies(r: Rule, kind: string, node: Option<string>) {
    && (r.kind.Some? ==> r.kind.value == kind)
    && (node.Some? && r.node.Some? ==> r.node.value == node.value)
  }

  /**
   One rule.  `None` where the original stops the program (a star before the end of the
   match) or looks at the last character of an empty match.
   */
  function Rewrite(r: Rule, name: string, kind: string, node: Option<string>): Option<string> {
    if r.name != name && r.name == "" then None
    else if r.name != name && !(Starred(r.name) && ButLast(r.name) <= name) then Some(name)
    else if r.name != name && FirstStar(r.name) != |r.name| - 1 then None
    else if !Applies(r, kind, node) then Some(name)
    else if r.name == "" then None
    else if Starred(r.name) then assert ButLast(r.name) <= name; Some(r.rename + name[|r.name| - 1..])
    else Some(r.rename)
  }

  /** A match that names one channel or one folder. */
  predicate Proper(r: Rule) {
    r.name != "" && forall j :: 0 <= j < |r.name| - 1 ==> r.name[j] != '*'
  }

  /**
   A rule for a folder moves everything in the folder and keeps the rest of the name; a rule
   for a channel renames just that channel; both only if their filters apply.
   */
  lemma RewriteMeaning(r: Rule, name: string, kind: string, node: Option<string>, out: string)
    requires Proper(r)
    ensures Rewrite(r, name, kind, node) == Some(out) <==>
      if !Applies(r, kind, node) then out == name
      else if !Starred(r.name) then out == if name == r.name then r.rename else name
      else if ButLast(r.name) <= name then exists rest :: name == ButLast(r.name) + rest && out == r.rename + rest
      else out == name
  {
    if Starred(r.name) && ButLast(r.name) <= name {
      var p := |r.name| - 1;
      assert name == ButLast(r.name) + name[p..];
      forall rest | name == ButLast(r.name) + rest
        ensures rest == name[p..]
      {
        assert name[p..] == rest;
      }
      assert r.name == ButLast(r.name) + [Last(r.name)];
    }
  }

  /** When a rule fails. */
  lemma RewriteFails(r: Rule, name: string, kind: string, node: Option<string>)
    ensures Rewrite(r, name, kind, node).None? <==>
      if r.name == "" then name != "" || Applies(r, kind, node)
      else !Proper(r) && name != r.name && Starred(r.name) && ButLast(r.name) <= name
  {
  }

  /** A list of rules, from the last to the first, each applied to what the later ones made. */
  function RewriteAll(rules: seq<Option<Rule>>, name: string, kind: string, node: Option<string>): Option<string> {
    if rules == [] then Some(name)
    else
      var next := if Last(rules).None? then Some(name) else Rewrite(Last(rules).value, name, kind, node);
      if next.None? then None else RewriteAll(ButLast(rules), next.value, kind, node)
  }

  /** Two lists, the second one first, are one list. */
  lemma {:induction false} RewriteConcat(a: seq<Option<Rule>>, b: seq<Option<Rule>>, name: string,
      kind: string, node: Option<string>)
    ensures RewriteAll(a + b, name, kind, node) ==
      (match RewriteAll(b, name, kind, node) case None => None case Some(n) => RewriteAll(a, n, kind, node))
    decreases |b|
  {
    if b == [] {
      assert a + b == a;
    } else {
      assert ButLast(a + b) == a + ButLast(b);
      var next := if Last(b).None? then Some(name) else Rewrite(Last(b).value, name, kind, node);
      if next.Some? {
        RewriteConcat(a, ButLast(b), next.value, kind, node);
      }
    }
  }

  function Rules(maps: seq<Table>): (rs: seq<Option<Rule>>)
    ensures |rs| == |maps|
  {
    seq(|maps|, i requires 0 <= i < |maps| => RuleOf(maps[i]))
  }

  /** The loop over the maps; `ok` is false where the original stops or is undefined. */
  method HandleMaps(maps: seq<Table>, name: string, kind: string, node: Option<string>) returns (ok: bool, out: string)
    ensures ok <==> RewriteAll(Rules(maps), name, kind, node).Some?
    ensures ok ==> RewriteAll(Rules(maps), name, kind, node) == Some(out)
  {
    var rules := Rules(maps);
    out := name;
    ok := true;
    var i := |maps|;
    assert rules[..i] == rules;
    while i > 0
      invariant i <= |maps| && RewriteAll(rules[..i], out, kind, node) == RewriteAll(rules, name, kind, node)
    {
      i := i - 1;
      assert ButLast(rules[..i + 1]) == rules[..i] && Last(rules[..i + 1]) == RuleOf(maps[i]);
      var rule := RuleOf(maps[i]);
      if rule.None? {
        continue;
      }
      var r := rule.value;
      if r.name != out {
        if r.name == "" {
          return false, out;
        }
        if Last(r.name) == '*' && ButLast(r.name) <= out {
          if FirstStar(r.name) != |r.name| - 1 {
            return false, out;
          }
        } else {
          continue;
        }
      }
      if r.kind.Some? && r.kind.value != kind {
        continue;
      }
      if node.Some? && r.node.Some? && r.node.value != node.value {
        continue;
      }
      if r.name == "" {
        return false, out;
      }
      var renamed := r.rename;
      if Last(r.name) == '*' {
        assert r.name == ButLast(r.name) + [Last(r.name)];
        renamed := renamed + out[|r.name| - 1..];
      }
      out := renamed;
    }
  }

  // ------------------------------------------------------------------------- searching

  /** The standard binary search for the first entry that is not less than the key. */
  method SearchKey(g: Merger<Table>, s: seq<Table>, k: Key) returns (p: nat)
    requires Sorted(g, s)
    ensures p == LowerBound(g, s, k)
  {
    var first: nat, count: nat := 0, |s|;
    while count > 0
      invariant first + count <= |s|
      invariant forall i :: 0 <= i < first ==> KeyLess(g.key(s[i]), k)
      invariant first + count < |s| ==> !KeyLess(g.key(s[first + count]), k)
    {
      var step := count / 2;
      var middle := first + step;
      if KeyLess(g.key(s[middle]), k) {
        AllLess(g, s, k, middle);
        first, count := middle + 1, count - step - 1;
      } else {
        count := step;
      }
    }
    p := first;
    BoundUnique(g, s, k, p);
  }

  lemma AllLess(g: Merger<Table>, s: seq<Table>, k: Key, m: nat)
    requires Sorted(g, s) && m < |s| && KeyLess(g.key(s[m]), k)
    ensures forall i :: 0 <= i <= m ==> KeyLess(g.key(s[i]), k)
  {
    forall i | 0 <= i < m
      ensures KeyLess(g.key(s[i]), k)
    {
      KeyTransitive(g.key(s[i]), g.key(s[m]), k);
    }
  }

  lemma {:induction false} BoundUnique(g: Merger<Table>, s: seq<Table>, k: Key, p: nat)
    requires p <= |s| && (forall i :: 0 <= i < p ==> KeyLess(g.key(s[i]), k))
    requires p < |s| ==> !KeyLess(g.key(s[p]), k)
    ensures p == LowerBound(g, s, k)
  {
    var q := LowerBound(g, s, k);
  }

  /** What binary search finds is what a linear search finds. */
  lemma BoundFinds(g: Merger<Table>, s: seq<Table>, k: Key, i: nat)
    requires Sorted(g, s) && i < |s|
    ensures g.key(s[i]) == k <==> i == LowerBound(g, s, k) && g.key(s[LowerBound(g, s, k)]) == k
  {
    var p := LowerBound(g, s, k);
    if g.key(s[i]) == k {
      KeyIrreflexive(k);
    }
  }

  // ------------------------------------------------------------------------- channels

  function KeyOf(t: Table): Key {
    [TextOf(t, NAME), TextOf(t, TYPE)]
  }

  /** A configuration that can be searched: what merging makes of any configuration. */
  predicate Searchable(c: Types, t: Table)
    requires ValidTypes(c)
  {
    && Config(c, t) && MAPS < |t|
    && Sorted(ChannelMerger(c), TablesOf(t[CHANNELS])) && AllChannels(c, TablesOf(t[CHANNELS]))
    && Sorted(ApplicationMerger(c), TablesOf(t[APPLICATIONS]))
    && forall i :: 0 <= i < |TablesOf(t[APPLICATIONS])| ==> Application(c, TablesOf(t[APPLICATIONS])[i])
  }

  lemma MergedSearchable(c: Types, t: Table)
    requires ValidTypes(c) && Mergeable(c, t)
    ensures Searchable(c, Merged(c, t))
  {
    hide ValidTypes, ChannelMerger, ApplicationMerger, Merged, Channel, Application, Keep, MergeByKey;
    ChannelsMeaning(c, t, []);
    MergedChannels(c, t);
    ChannelsOk(c, t);
    ApplicationsListed(c, t);
    MapsFit(c, Merged(c, t));
  }

  lemma MapsFit(c: Types, t: Table)
    requires ValidTypes(c) && Config(c, t)
    ensures MAPS < |t| && CHANNELS < |t| && APPLICATIONS < |t|
  {
  }

  lemma ApplicationsListed(c: Types, t: Table)
    requires ValidTypes(c) && Mergeable(c, t)
    ensures var apps := TablesOf(Merged(c, t)[APPLICATIONS]);
      Sorted(ApplicationMerger(c), apps) && forall i :: 0 <= i < |apps| ==> Application(c, apps[i])
  {
    hide Merged, Keep, MergeByKey;
    if t[APPLICATIONS].Some? {
      ApplicationsMeaning(c, t, []);
    } else {
      MergedFields(c, t);
    }
  }

  function Strings(x: Option<Value>): seq<string> {
    if x.None? || !x.value.VVector? then []
    else
      var xs := x.value.elems;
      seq(|xs|, i requires 0 <= i < |xs| => if xs[i].VString? then xs[i].s else "")
  }

  /** An application that runs on the node; always in a configuration without nodes. */
  datatype Started = Stop | Yes | No

  function ShouldStart(t: Table, a: Table, node: Option<string>): Started {
    if !Has(t, NODES) then Yes
    else if !Has(a, APPLICATION_NODES) || node.None? then Stop
    else if node.value in Strings(a[APPLICATION_NODES]) then Yes
    else No
  }

  /** The maps that apply first: those of the application with the name, if it runs on the node. */
  function ApplicationMaps(c: Types, t: Table, application: string, node: Option<string>): seq<Option<Rule>>
    requires ValidTypes(c) && Searchable(c, t)
  {
    match Find(ApplicationMerger(c), TablesOf(t[APPLICATIONS]), [application])
    case None => []
    case Some(a) =>
      if ShouldStart(t, a, node).Yes? && Has(a, APPLICATION_MAPS) then Rules(TablesOf(a[APPLICATION_MAPS])) else []
  }

  /** The original stops if there are nodes and the application or the caller has none. */
  predicate ApplicationFails(c: Types, t: Table, application: string, node: Option<string>)
    requires ValidTypes(c) && Searchable(c, t)
  {
    var a := Find(ApplicationMerger(c), TablesOf(t[APPLICATIONS]), [application]);
    a.Some? && ShouldStart(t, a.value, node).Stop?
  }

  /** The name after all maps: application maps first, then the global ones, each from last to first. */
  function Resolve(c: Types, t: Table, name: string, kind: string, application: string,
      node: Option<string>): Option<string>
    requires ValidTypes(c) && Searchable(c, t)
  {
    if ApplicationFails(c, t, application, node) then None
    else RewriteAll(Rules(TablesOf(t[MAPS])) + ApplicationMaps(c, t, application, node), name, kind, node)
  }

  datatype Search = Stopped | NotFound | At(index: nat)

  predicate NamedAs(t: Table, name: string) {
    Has(t, NAME) && t[NAME].value == VString(name)
  }

  /** The configuration has no nodes, or the application lists the node by name. */
  predicate RunsOn(t: Table, a: Table, node: Option<string>) {
    !Has(t, NODES) || (node.Some? && Has(a, APPLICATION_NODES) &&
      exists k :: 0 <= k < |FieldPaths.ElemsAt(a[APPLICATION_NODES])| &&
        FieldPaths.ElemsAt(a[APPLICATION_NODES])[k] == VString(node.value))
  }

  /** There are nodes, but the application lists none, or the caller did not give one. */
  predicate Undecided(t: Table, a: Table, node: Option<string>) {
    Has(t, NODES) && (!Has(a, APPLICATION_NODES) || node.None?)
  }

  lemma StringsListed(c: Types, a: Table, s: string)
    requires ValidTypes(c) && Application(c, a) && Has(a, APPLICATION_NODES)
    ensures s in Strings(a[APPLICATION_NODES]) <==>
      exists k :: 0 <= k < |FieldPaths.ElemsAt(a[APPLICATION_NODES])| &&
        FieldPaths.ElemsAt(a[APPLICATION_NODES])[k] == VString(s)
  {
    var f, v := FieldsOf(c.schema, c.application)[APPLICATION_NODES], a[APPLICATION_NODES].value;
    assert FieldOk(c.schema, f, v);
    var xs, ys := Strings(a[APPLICATION_NODES]), FieldPaths.ElemsAt(a[APPLICATION_NODES]);
    forall k | 0 <= k < |ys|
      ensures xs[k] == s <==> ys[k] == VString(s)
    {
      assert ElemOk(c.schema, f, v.elems[k]);
    }
  }

  lemma StartedMeaning(c: Types, t: Table, a: Table, node: Option<string>)
    requires ValidTypes(c) && Application(c, a)
    ensures ShouldStart(t, a, node).Stop? <==> Undecided(t, a, node)
    ensures ShouldStart(t, a, node).Yes? <==> RunsOn(t, a, node)
  {
    hide ValidTypes, Application, Strings;
    if Has(a, APPLICATION_NODES) && node.Some? {
      StringsListed(c, a, node.value);
    }
  }

  lemma NameText(c: Types, a: Table, name: string)
    requires ValidTypes(c) && Application(c, a)
    ensures TextOf(a, NAME) == name <==> NamedAs(a, name)
  {
    assert FieldOk(c.schema, FieldsOf(c.schema, c.application)[NAME], a[NAME].value);
  }

  /**
   The application with the name, if it runs on the node.  Stops if the configuration has
   nodes, but the application of that name or the caller has none.
   */
  method GetApplication(c: Types, t: Table, application: string, node: Option<string>) returns (r: Search)
    requires ValidTypes(c) && Searchable(c, t)
    ensures var apps := TablesOf(t[APPLICATIONS]);
      && (r.At? ==> r.index < |apps|)
      && (forall i :: 0 <= i < |apps| ==> (r == At(i) <==> NamedAs(apps[i], application) && RunsOn(t, apps[i], node)))
      && (r.Stopped? <==>
           exists i :: 0 <= i < |apps| && NamedAs(apps[i], application) && Undecided(t, apps[i], node))
  {
    hide RunsOn, Undecided, NamedAs, Application;
    var g, apps := ApplicationMerger(c), TablesOf(t[APPLICATIONS]);
    var p := SearchKey(g, apps, [application]);
    forall i | 0 <= i < |apps|
      ensures NamedAs(apps[i], application) <==> i == p && TextOf(apps[p], NAME) == application
    {
      NameText(c, apps[i], application);
      BoundFinds(g, apps, [application], i);
    }
    if p < |apps| && TextOf(apps[p], NAME) == application {
      StartedMeaning(c, t, apps[p], node);
      match ShouldStart(t, apps[p], node)
      case Stop => r := Stopped;
      case Yes => r := At(p);
      case No => r := NotFound;
    } else {
      r := NotFound;
    }
  }

  lemma FoundApplication(c: Types, t: Table, application: string, i: nat)
    requires ValidTypes(c) && Searchable(c, t) && i < |TablesOf(t[APPLICATIONS])|
    requires NamedAs(TablesOf(t[APPLICATIONS])[i], application)
    ensures Find(ApplicationMerger(c), TablesOf(t[APPLICATIONS]), [application]) == Some(TablesOf(t[APPLICATIONS])[i])
  {
    hide NamedAs, Application;
    NameText(c, TablesOf(t[APPLICATIONS])[i], application);
    FindAt(ApplicationMerger(c), TablesOf(t[APPLICATIONS]), [application], i);
  }

  lemma FoundAt(c: Types, t: Table, application: string) returns (i: nat)
    requires ValidTypes(c) && Searchable(c, t)
    requires Find(ApplicationMerger(c), TablesOf(t[APPLICATIONS]), [application]).Some?
    ensures i < |TablesOf(t[APPLICATIONS])| && NamedAs(TablesOf(t[APPLICATIONS])[i], application)
    ensures Find(ApplicationMerger(c), TablesOf(t[APPLICATIONS]), [application]) == Some(TablesOf(t[APPLICATIONS])[i])
  {
    hide NamedAs, Application;
    var g, apps := ApplicationMerger(c), TablesOf(t[APPLICATIONS]);
    FindNone(g, apps, [application]);
    i :| 0 <= i < |apps| && apps[i] == Find(g, apps, [application]).value && g.key(apps[i]) == [application];
    NameText(c, apps[i], application);
  }

  /** The program stops exactly if the application of that name is undecided. */
  lemma FailsMeaning(c: Types, t: Table, application: string, node: Option<string>)
    requires ValidTypes(c) && Searchable(c, t)
    ensures var apps := TablesOf(t[APPLICATIONS]);
      ApplicationFails(c, t, application, node) <==>
      exists i :: 0 <= i < |apps| && NamedAs(apps[i], application) && Undecided(t, apps[i], node)
  {
    hide NamedAs, Application, Undecided, ShouldStart, RunsOn;
    var apps := TablesOf(t[APPLICATIONS]);
    if ApplicationFails(c, t, application, node) {
      var i := FoundAt(c, t, application);
      StartedMeaning(c, t, apps[i], node);
    }
    if i :| 0 <= i < |apps| && NamedAs(apps[i], application) && Undecided(t, apps[i], node) {
      FoundApplication(c, t, application, i);
      StartedMeaning(c, t, apps[i], node);
    }
  }

  /** The maps of the application of that name, if it runs on the node. */
  lemma MapsOfApplication(c: Types, t: Table, application: string, node: Option<string>, i: nat)
    requires ValidTypes(c) && Searchable(c, t) && i < |TablesOf(t[APPLICATIONS])|
    requires NamedAs(TablesOf(t[APPLICATIONS])[i], application) && RunsOn(t, TablesOf(t[APPLICATIONS])[i], node)
    ensures APPLICATION_MAPS < |TablesOf(t[APPLICATIONS])[i]|
    ensures ApplicationMaps(c, t, application, node) ==
      Rules(TablesOf(TablesOf(t[APPLICATIONS])[i][APPLICATION_MAPS]))
  {
    hide NamedAs, Undecided, ShouldStart, RunsOn;
    FoundApplication(c, t, application, i);
    StartedMeaning(c, t, TablesOf(t[APPLICATIONS])[i], node);
  }

  lemma NoApplicationMaps(c: Types, t: Table, application: string, node: Option<string>)
    requires ValidTypes(c) && Searchable(c, t)
    requires var apps := TablesOf(t[APPLICATIONS]);
      forall i :: 0 <= i < |apps| ==> !(NamedAs(apps[i], application) && RunsOn(t, apps[i], node))
    ensures ApplicationMaps(c, t, application, node) == []
  {
    hide NamedAs, Application, Undecided, ShouldStart, RunsOn;
    if Find(ApplicationMerger(c), TablesOf(t[APPLICATIONS]), [application]).Some? {
      var i := FoundAt(c, t, application);
      StartedMeaning(c, t, TablesOf(t[APPLICATIONS])[i], node);
    }
  }

  /** Two lists of maps, one after the other. */
  predicate Stages(first: seq<Table>, second: seq<Table>, name: string, kind: string, node: Option<string>,
      out: string) {
    var middle := RewriteAll(Rules(first), name, kind, node);
    middle.Some? && RewriteAll(Rules(second), middle.value, kind, node) == Some(out)
  }

  lemma StagesAre(first: seq<Table>, second: seq<Table>, name: string, kind: string, node: Option<string>, out: string)
    ensures RewriteAll(Rules(second) + Rules(first), name, kind, node) == Some(out) <==>
      Stages(first, second, name, kind, node, out)
  {
    RewriteConcat(Rules(second), Rules(first), name, kind, node);
  }

  /** With an application of that name that runs on the node: its maps first, and the outcome by the global ones. */
  lemma ResolveWith(c: Types, t: Table, name: string, kind: string, application: string, node: Option<string>,
      i: nat, out: string)
    requires ValidTypes(c) && Searchable(c, t) && i < |TablesOf(t[APPLICATIONS])|
    requires NamedAs(TablesOf(t[APPLICATIONS])[i], application) && RunsOn(t, TablesOf(t[APPLICATIONS])[i], node)
    ensures var a := TablesOf(t[APPLICATIONS])[i];
      APPLICATION_MAPS < |a| &&
      (Resolve(c, t, name, kind, application, node) == Some(out) <==>
        Stages(TablesOf(a[APPLICATION_MAPS]), TablesOf(t[MAPS]), name, kind, node, out))
  {
    hide NamedAs, Application, Undecided, ShouldStart, RunsOn, RewriteAll, Rules, Stages;
    var a := TablesOf(t[APPLICATIONS])[i];
    MapsOfApplication(c, t, application, node, i);
    FoundApplication(c, t, application, i);
    StartedMeaning(c, t, a, node);
    StagesAre(TablesOf(a[APPLICATION_MAPS]), TablesOf(t[MAPS]), name, kind, node, out);
  }

  /** Without one: just the global maps, unless the program stops at an undecided application. */
  lemma ResolveWithout(c: Types, t: Table, name: string, kind: string, application: string, node: Option<string>,
      out: string)
    requires ValidTypes(c) && Searchable(c, t)
    requires var apps := TablesOf(t[APPLICATIONS]);
      forall i :: 0 <= i < |apps| ==> !(NamedAs(apps[i], application) && RunsOn(t, apps[i], node))
    ensures var apps := TablesOf(t[APPLICATIONS]);
      Resolve(c, t, name, kind, application, node) == Some(out) <==>
        && (forall i :: 0 <= i < |apps| ==> !(NamedAs(apps[i], application) && Undecided(t, apps[i], node)))
        && RewriteAll(Rules(TablesOf(t[MAPS])), name, kind, node) == Some(out)
  {
    hide NamedAs, Application, Undecided, ShouldStart, RunsOn, RewriteAll;
    NoApplicationMaps(c, t, application, node);
    FailsMeaning(c, t, application, node);
    assert Rules(TablesOf(t[MAPS])) + [] == Rules(TablesOf(t[MAPS]));
  }

  lemma NoRules(name: string, kind: string, node: Option<string>)
    ensures Rules([]) == [] && RewriteAll(Rules([]), name, kind, node) == Some(name)
  {
  }

  /**
   The one channel whose name is the rewritten name and whose type is the given one, or
   nothing if there is no such channel.
   */
  method GetChannel(c: Types, t: Table, name: string, kind: string, application: string, node: Option<string>)
    returns (r: Search)
    requires ValidTypes(c) && Searchable(c, t)
    ensures t[CHANNELS].None? ==> r == NotFound
    ensures t[CHANNELS].Some? ==> (r.Stopped? <==> Resolve(c, t, name, kind, application, node).None?)
    ensures t[CHANNELS].Some? && !r.Stopped? ==>
      var n := Resolve(c, t, name, kind, application, node).value;
      forall i :: 0 <= i < |TablesOf(t[CHANNELS])| ==> (r == At(i) <==> KeyOf(TablesOf(t[CHANNELS])[i]) == [n, kind])
    ensures r.At? ==> r.index < |TablesOf(t[CHANNELS])|
  {
    hide NamedAs, Undecided, ShouldStart, RunsOn, RewriteAll, Stages, Rules, ApplicationMaps, ApplicationFails;
    if t[CHANNELS].None? {
      return NotFound;
    }
    var found := GetApplication(c, t, application, node);
    FailsMeaning(c, t, application, node);
    if found.Stopped? {
      return Stopped;
    }
    var mutableName, ok := name, true;
    ghost var first := [];
    NoRules(name, kind, node);
    if found.At? {
      MapsOfApplication(c, t, application, node, found.index);
      var maps := TablesOf(t[APPLICATIONS])[found.index][APPLICATION_MAPS];
      if maps.Some? {
        first := TablesOf(maps);
        ok, mutableName := HandleMaps(TablesOf(maps), mutableName, kind, node);
      }
    } else {
      NoApplicationMaps(c, t, application, node);
    }
    assert ApplicationMaps(c, t, application, node) == Rules(first);
    RewriteConcat(Rules(TablesOf(t[MAPS])), Rules(first), name, kind, node);
    if !ok {
      return Stopped;
    }
    NoRules(mutableName, kind, node);
    if t[MAPS].Some? {
      ok, mutableName := HandleMaps(TablesOf(t[MAPS]), mutableName, kind, node);
      if !ok {
        return Stopped;
      }
    }
    r := SearchChannel(c, TablesOf(t[CHANNELS]), [mutableName, kind]);
  }

  method SearchChannel(c: Types, channels: seq<Table>, k: Key) returns (r: Search)
    requires ValidTypes(c) && Sorted(ChannelMerger(c), channels)
    ensures !r.Stopped? && (r.At? ==> r.index < |channels|)
    ensures forall i :: 0 <= i < |channels| ==> (r == At(i) <==> KeyOf(channels[i]) == k)
  {
    var g := ChannelMerger(c);
    var p := SearchKey(g, channels, k);
    r := if p < |channels| && KeyOf(channels[p]) == k then At(p) else NotFound;
    forall i | 0 <= i < |channels|
      ensures r == At(i) <==> KeyOf(channels[i]) == k
    {
      BoundFinds(g, channels, k, i);
    }
  }

  /**
   The index of a channel of the configuration.  `position` is where the channel is, or
   nothing if it is not part of this configuration; then the original stops.
   */
  method ChannelIndex(c: Types, t: Table, channel: Table, position: Option<nat>) returns (r: Option<nat>)
    requires ValidTypes(c) && Searchable(c, t)
    requires var channels := TablesOf(t[CHANNELS]);
      position.Some? ==> position.value < |channels| && channels[position.value] == channel
    ensures r == position
  {
    if t[CHANNELS].None? {
      return None;
    }
    var channels := TablesOf(t[CHANNELS]);
    var p := SearchKey(ChannelMerger(c), channels, KeyOf(channel));
    if position.Some? {
      BoundFinds(ChannelMerger(c), channels, KeyOf(channel), position.value);
    }
    if p == |channels| {
      return None;
    }
    r := if position == Some(p) then Some(p) else None;
  }
}
