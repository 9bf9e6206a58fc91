/**
 Reading a configuration with its imports.  File lookup (which file a path names, once the
 `.bfbs` next to it and the extra import paths have been tried) and the parsed contents
 of the files are parameters.
 */
module Imports {
  import opened Common
  import opened Flat
  import opened Merge
  import opened FieldPaths

  /** The configuration type, its field of imports, the file a path resolves to, and the parsed files. */
  datatype Files = Files(
    types: Schema, ty: nat, imports: nat, resolve: string -> Option<string>, content: map<string, Table>)

  predicate ValidFiles(e: Files) {
    && Supported(e.types) && IsTable(e.types, e.ty) && e.imports < |FieldsOf(e.types, e.ty)|
    && FieldsOf(e.types, e.ty)[e.imports].repeating && FieldsOf(e.types, e.ty)[e.imports].elem.String?
    && forall a :: a in e.content ==> TableOk(e.types, e.ty, e.content[a])
  }

  function MergeConfigs(e: Files, a: Table, b: Table): (c: Table)
    requires ValidFiles(e) && TableOk(e.types, e.ty, a) && TableOk(e.types, e.ty, b)
    ensures TableOk(e.types, e.ty, c)
  {
    MergeTables(e.types, e.ty, Some(a), Some(b))
  }

  function Empty(e: Files): (t: Table)
    requires ValidFiles(e)
    ensures TableOk(e.types, e.ty, t)
  {
    EmptyTable(|FieldsOf(e.types, e.ty)|)
  }

  /** The listed imports, if the file has the field. */
  function ImportsOf(e: Files, a: string): Option<seq<string>>
    requires ValidFiles(e) && a in e.content
  {
    match e.content[a][e.imports]
    case None => None
    case Some(v) =>
      assert FieldOk(e.types, FieldsOf(e.types, e.ty)[e.imports], v);
      Some(seq(|v.elems|, i requires 0 <= i < |v.elems| =>
        assert ElemOk(e.types, FieldsOf(e.types, e.ty)[e.imports], v.elems[i]);
        v.elems[i].s))
  }

  /** The file's own configuration, without its imports. */
  function Own(e: Files, a: string): (t: Table)
    requires ValidFiles(e) && a in e.content
    ensures TableOk(e.types, e.ty, t)
  {
    e.content[a][e.imports := None]
  }

  /** The folder part of a path, with its last separator; the current one if there is none. */
  function ExtractFolder(path: string): string {
    if path == "" then "./"
    else if Last(path) == '/' || Last(path) == '\\' then path
    else ExtractFolder(ButLast(path))
  }

  predicate EndsFolder(s: string) {
    s != "" && (Last(s) == '/' || Last(s) == '\\')
  }

  /** The longest part of the path that ends in a separator, or the current folder if none does. */
  predicate IsFolder(path: string, folder: string) {
    || (folder <= path && EndsFolder(folder) && forall n :: |folder| < n <= |path| ==> !EndsFolder(path[..n]))
    || (folder == "./" && forall n :: 0 <= n <= |path| ==> !EndsFolder(path[..n]))
  }

  lemma {:induction false} FolderExtracted(path: string)
    ensures IsFolder(path, ExtractFolder(path))
    decreases |path|
  {
    if path != "" && !EndsFolder(path) {
      var short := ButLast(path);
      FolderExtracted(short);
      assert path[..|path|] == path;
      assert forall n :: 0 <= n < |path| ==> path[..n] == short[..n];
      assert short <= path;
    }
  }

  lemma FolderMeaning(path: string, folder: string)
    ensures ExtractFolder(path) == folder <==> IsFolder(path, folder)
    ensures forall name: string :: IsFolder(path, folder) ==> ImportPath(path, name) == folder + "/" + name
  {
    FolderExtracted(path);
    var f := ExtractFolder(path);
    if IsFolder(path, folder) {
      assert folder <= path ==> folder == path[..|folder|];
      assert f <= path ==> f == path[..|f|];
    }
  }

  /** The path under which an import is read. */
  function ImportPath(path: string, name: string): string {
    ExtractFolder(path) + "/" + name
  }

  datatype ReadResult = Fatal | Config(config: Table, visited: set<string>)

  function Unvisited(e: Files, visited: set<string>): set<string> {
    e.content.Keys - visited
  }

  /** Depth first: everything a file imports, then the file itself on top of it. */
  function ReadConfig(e: Files, path: string, visited: set<string>): (r: ReadResult)
    requires ValidFiles(e)
    ensures r.Config? ==> TableOk(e.types, e.ty, r.config) && visited <= r.visited
    decreases |Unvisited(e, visited)|, 0
  {
    match e.resolve(path)
    case None => Fatal
    case Some(a) =>
      if a !in e.content || a in visited then Fatal
      else
        match ImportsOf(e, a)
        case None => Config(e.content[a], visited + {a})
        case Some(names) =>
          VisitShrinks(e, visited, a);
          match ReadImports(e, path, names, visited + {a})
          case Fatal => Fatal
          case Config(c, v) => Config(MergeConfigs(e, c, Own(e, a)), v)
  }

  /** The imports in order, each merged on top of those before it. */
  function ReadImports(e: Files, path: string, names: seq<string>, visited: set<string>): (r: ReadResult)
    requires ValidFiles(e)
    ensures r.Config? ==> TableOk(e.types, e.ty, r.config) && visited <= r.visited
    decreases |Unvisited(e, visited)|, |names|
  {
    if names == [] then Config(Empty(e), visited)
    else
      match ReadImports(e, path, ButLast(names), visited)
      case Fatal => Fatal
      case Config(c, v) =>
        UnvisitedShrinks(e, visited, v);
        match ReadConfig(e, ImportPath(path, Last(names)), v)
        case Fatal => Fatal
        case Config(d, w) => Config(MergeConfigs(e, c, d), w)
  }

  lemma UnvisitedShrinks(e: Files, v: set<string>, w: set<string>)
    requires v <= w
    ensures |Unvisited(e, w)| <= |Unvisited(e, v)|
  {
    assert Unvisited(e, w) <= Unvisited(e, v);
    SubsetSize(Unvisited(e, w), Unvisited(e, v));
  }

  lemma VisitShrinks(e: Files, v: set<string>, a: string)
    requires a in e.content && a !in v
    ensures |Unvisited(e, v + {a})| < |Unvisited(e, v)|
  {
    assert Unvisited(e, v + {a}) == Unvisited(e, v) - {a};
  }

  lemma {:induction false} SubsetSize<T>(a: set<T>, b: set<T>)
    requires a <= b
    ensures |a| <= |b|
  {
    assert b == a + (b - a);
  }

  // -------------------------------------------------------------------- import trees

  /** A file and what it imports, all the way down. */
  datatype Tree = Node(path: string, file: string, children: seq<Tree>)

  /** The tree of imports that starts at the path. */
  predicate Unfolds(e: Files, path: string, t: Tree)
    requires ValidFiles(e)
    decreases t
  {
    && t.path == path && e.resolve(path) == Some(t.file) && t.file in e.content
    && var names := match ImportsOf(e, t.file) case None => [] case Some(ns) => ns;
       |t.children| == |names| &&
       forall i :: 0 <= i < |names| ==> Unfolds(e, ImportPath(path, names[i]), t.children[i])
  }

  /** The files of a tree, imports before importers. */
  function PostOrder(t: Tree): seq<string>
    decreases t, 1, 0
  {
    PostOrderOf(t, |t.children|) + [t.file]
  }

  function PostOrderOf(t: Tree, k: nat): seq<string>
    requires k <= |t.children|
    decreases t, 0, k
  {
    if k == 0 then [] else PostOrderOf(t, k - 1) + PostOrder(t.children[k - 1])
  }

  predicate NoRepeats(xs: seq<string>) {
    forall i, j :: 0 <= i < j < |xs| ==> xs[i] != xs[j]
  }

  function FilesIn(xs: seq<string>): set<string> {
    set i | 0 <= i < |xs| :: xs[i]
  }

  predicate AllFiles(e: Files, xs: seq<string>) {
    forall i :: 0 <= i < |xs| ==> xs[i] in e.content
  }

  /** One merge from left to right. */
  function MergeAll(e: Files, xs: seq<string>): (t: Table)
    requires ValidFiles(e) && AllFiles(e, xs)
    ensures TableOk(e.types, e.ty, t)
  {
    if xs == [] then Empty(e) else MergeConfigs(e, MergeAll(e, ButLast(xs)), Own(e, Last(xs)))
  }

  lemma {:induction false} MergeAllConcat(e: Files, xs: seq<string>, ys: seq<string>)
    requires ValidFiles(e) && AllFiles(e, xs) && AllFiles(e, ys)
    ensures AllFiles(e, xs + ys) && MergeAll(e, xs + ys) == MergeConfigs(e, MergeAll(e, xs), MergeAll(e, ys))
    decreases |ys|
  {
    hide Own, TableOk, MergeTables, Supported;
    if ys == [] {
      assert xs + ys == xs;
      EmptyIsNeutral(e.types, e.ty, MergeAll(e, xs));
    } else {
      MergeAllConcat(e, xs, ButLast(ys));
      assert ButLast(xs + ys) == xs + ButLast(ys);
      MergeAssociative(e.types, e.ty, Some(MergeAll(e, xs)), Some(MergeAll(e, ButLast(ys))), Some(Own(e, Last(ys))));
    }
  }

  lemma MergeAllOne(e: Files, a: string)
    requires ValidFiles(e) && a in e.content
    ensures MergeAll(e, [a]) == Own(e, a)
  {
    assert ButLast([a]) == [];
    EmptyIsNeutral(e.types, e.ty, Own(e, a));
  }

  lemma {:induction false} TreeFiles(e: Files, path: string, t: Tree)
    requires ValidFiles(e) && Unfolds(e, path, t)
    ensures AllFiles(e, PostOrder(t))
    decreases t, 1, 0
  {
    TreeFilesOf(e, path, t, |t.children|);
  }

  lemma {:induction false} TreeFilesOf(e: Files, path: string, t: Tree, k: nat)
    requires ValidFiles(e) && Unfolds(e, path, t) && k <= |t.children|
    ensures AllFiles(e, PostOrderOf(t, k))
    decreases t, 0, k
  {
    if k > 0 {
      TreeFilesOf(e, path, t, k - 1);
      TreeFiles(e, t.children[k - 1].path, t.children[k - 1]);
    }
  }

  /** What reading along the list of files adds to the visited ones. */
  predicate Reads(e: Files, xs: seq<string>, visited: set<string>, r: ReadResult)
    requires ValidFiles(e)
  {
    && AllFiles(e, xs) && NoRepeats(xs) && FilesIn(xs) !! visited
    && r == Config(MergeAll(e, xs), visited + FilesIn(xs))
  }

  lemma FilesInConcat(xs: seq<string>, ys: seq<string>)
    ensures FilesIn(xs + ys) == FilesIn(xs) + FilesIn(ys)
    ensures NoRepeats(xs + ys) <==> NoRepeats(xs) && NoRepeats(ys) && FilesIn(xs) !! FilesIn(ys)
  {
    var zs := xs + ys;
    assert forall i :: 0 <= i < |xs| ==> zs[i] == xs[i];
    assert forall i :: 0 <= i < |ys| ==> zs[|xs| + i] == ys[i];
    assert FilesIn(zs) == FilesIn(xs) + FilesIn(ys) by {
      forall x | x in FilesIn(ys) ensures x in FilesIn(zs) {
        var i :| 0 <= i < |ys| && ys[i] == x;
        assert zs[|xs| + i] == x;
      }
    }
    if NoRepeats(zs) {
      forall i, j | 0 <= i < |xs| && 0 <= j < |ys| ensures xs[i] != ys[j] {
        assert zs[i] != zs[|xs| + j];
      }
      forall i, j | 0 <= i < j < |ys| ensures ys[i] != ys[j] {
        assert zs[|xs| + i] != zs[|xs| + j];
      }
      forall i, j | 0 <= i < j < |xs| ensures xs[i] != xs[j] {
        assert zs[i] != zs[j];
      }
    }
    if NoRepeats(xs) && NoRepeats(ys) && FilesIn(xs) !! FilesIn(ys) {
      JoinedNoRepeats(xs, ys);
    }
  }

  lemma JoinedNoRepeats(xs: seq<string>, ys: seq<string>)
    requires NoRepeats(xs) && NoRepeats(ys) && FilesIn(xs) !! FilesIn(ys)
    ensures NoRepeats(xs + ys)
  {
    var zs := xs + ys;
    forall i, j | 0 <= i < j < |zs| ensures zs[i] != zs[j] {
      if i < |xs| <= j {
        assert xs[i] in FilesIn(xs) && ys[j - |xs|] in FilesIn(ys);
      } else if |xs| <= i {
        assert ys[i - |xs|] != ys[j - |xs|];
      }
    }
  }

  /** Reading one list after another is reading their concatenation. */
  lemma ReadsConcat(e: Files, xs: seq<string>, ys: seq<string>, visited: set<string>, q: ReadResult, r: ReadResult)
    requires ValidFiles(e) && Reads(e, xs, visited, q) && Reads(e, ys, q.visited, r)
    ensures Reads(e, xs + ys, visited, Config(MergeConfigs(e, q.config, r.config), r.visited))
  {
    FilesInConcat(xs, ys);
    MergeAllConcat(e, xs, ys);
    UnionAssoc(visited, FilesIn(xs), FilesIn(ys));
  }

  lemma UnionAssoc(a: set<string>, b: set<string>, c: set<string>)
    ensures (a + b) + c == a + (b + c)
  {
  }

  lemma OneFile(e: Files, a: string, visited: set<string>)
    requires ValidFiles(e) && a in e.content && a !in visited
    ensures Reads(e, [a], visited, Config(Own(e, a), visited + {a}))
  {
    MergeAllOne(e, a);
    SingleFile(a);
  }

  lemma SingleFile(a: string)
    ensures FilesIn([a]) == {a}
  {
    assert [a][0] in FilesIn([a]);
  }

  lemma NoFile(e: Files, visited: set<string>)
    requires ValidFiles(e)
    ensures Reads(e, [], visited, Config(Empty(e), visited))
  {
    assert FilesIn([]) == {};
  }

  // ----------------------------------------------------------------------- the theorem

  lemma {:induction false} TreeRead(e: Files, path: string, visited: set<string>) returns (t: Tree)
    requires ValidFiles(e) && ReadConfig(e, path, visited).Config?
    ensures Unfolds(e, path, t) && Reads(e, PostOrder(t), visited, ReadConfig(e, path, visited))
    decreases |Unvisited(e, visited)|, 0
  {
    var a := e.resolve(path).value;
    if ImportsOf(e, a).None? {
      t := Node(path, a, []);
      LeafRead(e, t, visited);
    } else {
      var names := ImportsOf(e, a).value;
      VisitShrinks(e, visited, a);
      var ts := TreesRead(e, path, names, visited + {a});
      t := Node(path, a, ts);
      RootRead(e, t, visited, ReadImports(e, path, names, visited + {a}));
    }
  }

  /** A file without imports. */
  lemma LeafRead(e: Files, t: Tree, visited: set<string>)
    requires ValidFiles(e) && t.children == [] && t.file in e.content && t.file !in visited
    requires ImportsOf(e, t.file).None?
    ensures Reads(e, PostOrder(t), visited, Config(e.content[t.file], visited + {t.file}))
  {
    OneFile(e, t.file, visited);
    assert Own(e, t.file) == e.content[t.file];
    assert PostOrder(t) == [] + [t.file] == [t.file];
  }

  /** The files of the first trees, one after another. */
  function OrderOf(ts: seq<Tree>): seq<string> {
    if ts == [] then [] else OrderOf(ButLast(ts)) + PostOrder(Last(ts))
  }

  lemma {:induction false} OrderOfChildren(t: Tree, k: nat)
    requires k <= |t.children|
    ensures PostOrderOf(t, k) == OrderOf(t.children[..k])
    decreases k
  {
    if k > 0 {
      OrderOfChildren(t, k - 1);
      assert ButLast(t.children[..k]) == t.children[..k - 1];
    }
  }

  lemma PostOrderIs(t: Tree)
    ensures PostOrder(t) == OrderOf(t.children) + [t.file]
  {
    OrderOfChildren(t, |t.children|);
    assert t.children[..|t.children|] == t.children;
  }

  /** The imports have been read; the importer comes last. */
  lemma RootRead(e: Files, t: Tree, visited: set<string>, r: ReadResult)
    requires ValidFiles(e) && t.file in e.content && t.file !in visited
    requires Reads(e, OrderOf(t.children), visited + {t.file}, r)
    ensures Reads(e, PostOrder(t), visited, Config(MergeConfigs(e, r.config, Own(e, t.file)), r.visited))
  {
    PostOrderIs(t);
    var xs := OrderOf(t.children);
    var q := Config(r.config, visited + FilesIn(xs));
    assert Reads(e, xs, visited, q);
    OneFile(e, t.file, q.visited);
    ReadsConcat(e, xs, [t.file], visited, q, Config(Own(e, t.file), q.visited + {t.file}));
    UnionSwap(visited, FilesIn(xs), {t.file});
  }

  lemma UnionSwap(a: set<string>, b: set<string>, c: set<string>)
    ensures (a + b) + c == (a + c) + b
  {
  }

  /** The trees unfold the imports of those names. */
  predicate UnfoldsAll(e: Files, path: string, names: seq<string>, ts: seq<Tree>)
    requires ValidFiles(e)
  {
    |ts| == |names| && forall i :: 0 <= i < |names| ==> Unfolds(e, ImportPath(path, names[i]), ts[i])
  }

  lemma UnfoldsMore(e: Files, path: string, names: seq<string>, ts: seq<Tree>, t: Tree)
    requires ValidFiles(e) && names != [] && UnfoldsAll(e, path, ButLast(names), ts)
    requires Unfolds(e, ImportPath(path, Last(names)), t)
    ensures UnfoldsAll(e, path, names, ts + [t])
  {
  }

  lemma {:induction false} TreesRead(e: Files, path: string, names: seq<string>, visited: set<string>)
    returns (ts: seq<Tree>)
    requires ValidFiles(e) && ReadImports(e, path, names, visited).Config?
    ensures UnfoldsAll(e, path, names, ts)
    ensures Reads(e, OrderOf(ts), visited, ReadImports(e, path, names, visited))
    decreases |Unvisited(e, visited)|, |names|
  {
    if names == [] {
      ts := [];
      NoFile(e, visited);
    } else {
      hide ReadConfig, Reads, FilesIn, NoRepeats;
      var us := TreesRead(e, path, ButLast(names), visited);
      var q := ReadImports(e, path, ButLast(names), visited);
      UnvisitedShrinks(e, visited, q.visited);
      var t := TreeRead(e, ImportPath(path, Last(names)), q.visited);
      ts := us + [t];
      UnfoldsMore(e, path, names, us, t);
      assert ButLast(ts) == us;
      ReadsConcat(e, OrderOf(us), PostOrder(t), visited, q, ReadConfig(e, ImportPath(path, Last(names)), q.visited));
    }
  }

  lemma {:induction false} ReadTree(e: Files, path: string, visited: set<string>, t: Tree)
    requires ValidFiles(e) && Unfolds(e, path, t) && NoRepeats(PostOrder(t)) && FilesIn(PostOrder(t)) !! visited
    ensures Reads(e, PostOrder(t), visited, ReadConfig(e, path, visited))
    decreases t, 1, 0
  {
    var a := t.file;
    PostOrderIs(t);
    FilesInConcat(OrderOf(t.children), [a]);
    SingleFile(a);
    if ImportsOf(e, a).Some? {
      var names := ImportsOf(e, a).value;
      assert names[..|names|] == names && t.children[..|names|] == t.children;
      ReadTrees(e, path, visited + {a}, t, |names|);
      RootRead(e, t, visited, ReadImports(e, path, names, visited + {a}));
    } else {
      LeafRead(e, t, visited);
    }
  }

  lemma SplitOrder(xs: seq<string>, ys: seq<string>, visited: set<string>)
    requires NoRepeats(xs + ys) && FilesIn(xs + ys) !! visited
    ensures NoRepeats(xs) && FilesIn(xs) !! visited && NoRepeats(ys) && FilesIn(ys) !! visited + FilesIn(xs)
  {
    FilesInConcat(xs, ys);
  }

  lemma {:induction false} ReadTrees(e: Files, path: string, visited: set<string>, t: Tree, k: nat)
    requires ValidFiles(e) && Unfolds(e, path, t) && ImportsOf(e, t.file).Some? && k <= |t.children|
    requires NoRepeats(OrderOf(t.children[..k])) && FilesIn(OrderOf(t.children[..k])) !! visited
    ensures Reads(e, OrderOf(t.children[..k]), visited, ReadImports(e, path, ImportsOf(e, t.file).value[..k], visited))
    decreases t, 0, k
  {
    hide NoRepeats, FilesIn, ReadConfig, MergeAll, AllFiles, ImportPath;
    var names := ImportsOf(e, t.file).value;
    if k == 0 {
      NoFile(e, visited);
    } else {
      var c := t.children[k - 1];
      assert ButLast(t.children[..k]) == t.children[..k - 1] && Last(t.children[..k]) == c;
      var xs, ys := OrderOf(t.children[..k - 1]), PostOrder(c);
      SplitOrder(xs, ys, visited);
      ReadTrees(e, path, visited, t, k - 1);
      var q := ReadImports(e, path, names[..k - 1], visited);
      assert Unfolds(e, ImportPath(path, names[k - 1]), c);
      ReadTree(e, ImportPath(path, names[k - 1]), q.visited, c);
      ReadsConcat(e, xs, ys, visited, q, ReadConfig(e, ImportPath(path, names[k - 1]), q.visited));
      assert ButLast(names[..k]) == names[..k - 1] && Last(names[..k]) == names[k - 1];
    }
  }

  /**
   Reading succeeds exactly when the imports form a finite tree in which no file occurs
   twice (so not when they form a cycle).  The result is then one merge of all files,
   imports before importers: what a file says overrides its imports, and later imports
   override earlier ones.
   */
  lemma ReadConfigMeaning(e: Files, path: string, visited: set<string>, c: Table, v: set<string>)
    requires ValidFiles(e)
    ensures ReadConfig(e, path, visited) == Config(c, v) <==>
      exists t: Tree :: Unfolds(e, path, t) && Reads(e, PostOrder(t), visited, Config(c, v))
  {
    if ReadConfig(e, path, visited) == Config(c, v) {
      var t := TreeRead(e, path, visited);
    }
    if t: Tree :| Unfolds(e, path, t) && Reads(e, PostOrder(t), visited, Config(c, v)) {
      ReadTree(e, path, visited, t);
    }
  }

  // ------------------------------------------------------- the result, field by field

  /** The files as they were parsed. */
  function Contents(e: Files, xs: seq<string>): (ts: seq<Table>)
    requires AllFiles(e, xs)
    ensures |ts| == |xs|
  {
    seq(|xs|, i requires 0 <= i < |xs| => e.content[xs[i]])
  }

  /** A path to a value of the configuration other than its imports. */
  predicate ConfigPath(e: Files, p: seq<nat>)
    requires ValidFiles(e)
  {
    SchemaPath(e.types, e.ty, p) && p[0] != e.imports
  }

  /** The table has what the files say, each file on top of those before it. */
  predicate SaysAll(e: Files, xs: seq<string>, p: seq<nat>, c: Table)
    requires ValidFiles(e) && AllFiles(e, xs) && ConfigPath(e, p)
  {
    Combined(EndField(e.types, e.ty, p), Contents(e, xs), p, At(c, p))
  }

  lemma {:induction false} MergeAllSays(e: Files, xs: seq<string>, p: seq<nat>)
    requires ValidFiles(e) && AllFiles(e, xs) && ConfigPath(e, p)
    ensures SaysAll(e, xs, p, MergeAll(e, xs))
    decreases |xs|
  {
    hide TableOk, MergeTables, Combined, MergedTo, EndField;
    var f := EndField(e.types, e.ty, p);
    if xs == [] {
      NothingSaid(e, p);
    } else {
      var ys, a := ButLast(xs), Last(xs);
      MergeAllSays(e, ys, p);
      MergedAt(e.types, e.ty, Some(MergeAll(e, ys)), Some(Own(e, a)), p);
      OwnAt(e, a, p);
      CombinedMore(f, Contents(e, ys), e.content[a], p, At(MergeAll(e, ys), p), At(MergeAll(e, xs), p));
      assert Contents(e, xs) == Contents(e, ys) + [e.content[a]];
    }
  }

  lemma NothingSaid(e: Files, p: seq<nat>)
    requires ValidFiles(e) && ConfigPath(e, p)
    ensures SaysAll(e, [], p, Empty(e))
  {
  }

  lemma OwnAt(e: Files, a: string, p: seq<nat>)
    requires ValidFiles(e) && a in e.content && ConfigPath(e, p)
    ensures At(Own(e, a), p) == At(e.content[a], p)
  {
  }

  lemma {:induction false} MergeAllImports(e: Files, xs: seq<string>)
    requires ValidFiles(e) && AllFiles(e, xs)
    ensures MergeAll(e, xs)[e.imports].None?
    decreases |xs|
  {
    hide Join;
    if xs != [] {
      var a, b := Some(MergeAll(e, ButLast(xs))), Some(Own(e, Last(xs)));
      MergeAllImports(e, ButLast(xs));
      JoinedField(e.types, e.ty, a, b, e.imports);
      assert Get(a, e.imports) == None == Get(b, e.imports);
      JoinNeutral(e.types, FieldsOf(e.types, e.ty)[e.imports], None);
    }
  }

  /** The imports of a path unfold in one way only. */
  lemma {:induction false} UnfoldsUnique(e: Files, path: string, t: Tree, u: Tree)
    requires ValidFiles(e) && Unfolds(e, path, t) && Unfolds(e, path, u)
    ensures t == u
    decreases t
  {
    forall i | 0 <= i < |t.children|
      ensures t.children[i] == u.children[i]
    {
      UnfoldsUnique(e, t.children[i].path, t.children[i], u.children[i]);
    }
    assert t.children == u.children;
  }

  /**
   What was read, in terms of the files alone.  At every path of the configuration: for a
   scalar or string, the value in the last file that has one, in the order imports before
   importers; for a vector, the elements of all files in that order.  The imports are gone.
   */
  lemma ReadConfigSays(e: Files, path: string, visited: set<string>, t: Tree, p: seq<nat>)
    requires ValidFiles(e) && ReadConfig(e, path, visited).Config? && Unfolds(e, path, t) && ConfigPath(e, p)
    ensures AllFiles(e, PostOrder(t)) && SaysAll(e, PostOrder(t), p, ReadConfig(e, path, visited).config)
    ensures ReadConfig(e, path, visited).config[e.imports].None?
  {
    hide SaysAll, MergeAll, Unfolds, ReadConfig;
    var u := TreeRead(e, path, visited);
    UnfoldsUnique(e, path, t, u);
    MergeAllSays(e, PostOrder(t), p);
    MergeAllImports(e, PostOrder(t));
  }

  /** The configuration is what the files below the path say. */
  ghost predicate Says(e: Files, path: string, c: Table)
    requires ValidFiles(e)
  {
    exists t: Tree :: Unfolds(e, path, t) && AllFiles(e, PostOrder(t)) &&
      forall p: seq<nat> :: ConfigPath(e, p) ==> SaysAll(e, PostOrder(t), p, c)
  }

  lemma ReadSays(e: Files, path: string, visited: set<string>)
    requires ValidFiles(e) && ReadConfig(e, path, visited).Config?
    ensures Says(e, path, ReadConfig(e, path, visited).config)
  {
    hide SaysAll, MergeAll, Unfolds, ReadConfig, ConfigPath;
    var t := TreeRead(e, path, visited);
    forall p: seq<nat> | ConfigPath(e, p)
      ensures SaysAll(e, PostOrder(t), p, ReadConfig(e, path, visited).config)
    {
      ReadConfigSays(e, path, visited, t, p);
    }
  }

  // ------------------------------------------------------------------------ the reader

  /** The set of files seen so far, shared by the whole recursion. */
  class VisitedPaths {
    var paths: set<string>

    constructor ()
      ensures paths == {}
    {
      paths := {};
    }

    /** Adds a path; false if it was there already. */
    method Insert(path: string) returns (added: bool)
      modifies this
      ensures added <==> path !in old(paths)
      ensures paths == old(paths) + {path}
    {
      added := path !in paths;
      paths := paths + {path};
    }
  }

  lemma {:induction false} FatalImport(e: Files, path: string, names: seq<string>, k: nat, visited: set<string>)
    requires ValidFiles(e) && k <= |names| && ReadImports(e, path, names[..k], visited).Fatal?
    ensures ReadImports(e, path, names, visited).Fatal?
    decreases |names| - k
  {
    if k == |names| {
      assert names[..k] == names;
    } else {
      assert ButLast(names[..k + 1]) == names[..k];
      FatalImport(e, path, names, k + 1, visited);
    }
  }

  /** The recursive reader; `ok` is false where the original stops the program. */
  method ReadConfigFile(e: Files, path: string, visited: VisitedPaths) returns (ok: bool, config: Table)
    requires ValidFiles(e)
    modifies visited
    ensures ok <==> ReadConfig(e, path, old(visited.paths)).Config?
    ensures ok ==> ReadConfig(e, path, old(visited.paths)) == Config(config, visited.paths) && Says(e, path, config)
    decreases |Unvisited(e, visited.paths)|, 0
  {
    hide Says;
    config := [];
    var found := e.resolve(path);
    if found.None? || found.value !in e.content {
      return false, config;
    }
    var a := found.value;
    ghost var before := visited.paths;
    var added := visited.Insert(a);
    if !added {
      return false, config;
    }
    VisitShrinks(e, before, a);
    var imports := ImportsOf(e, a);
    if imports.None? {
      ReadSays(e, path, before);
      return true, e.content[a];
    }
    ok, config := ReadImportFiles(e, path, imports.value, visited);
    if ok {
      config := MergeConfigs(e, config, Own(e, a));
      ReadSays(e, path, before);
    }
  }

  /** The loop over the imports of one file. */
  method ReadImportFiles(e: Files, path: string, names: seq<string>, visited: VisitedPaths)
    returns (ok: bool, merged: Table)
    requires ValidFiles(e)
    modifies visited
    ensures ok <==> ReadImports(e, path, names, old(visited.paths)).Config?
    ensures ok ==> ReadImports(e, path, names, old(visited.paths)) == Config(merged, visited.paths)
    decreases |Unvisited(e, visited.paths)|, 1
  {
    hide ReadConfig, MergeConfigs, Empty, ImportPath, Unvisited, Says;
    ghost var before := visited.paths;
    merged := Empty(e);
    for k := 0 to |names|
      invariant ReadImports(e, path, names[..k], before) == Config(merged, visited.paths)
    {
      assert ButLast(names[..k + 1]) == names[..k] && Last(names[..k + 1]) == names[k];
      UnvisitedShrinks(e, before, visited.paths);
      var imported;
      ok, imported := ReadConfigFile(e, ImportPath(path, names[k]), visited);
      if !ok {
        FatalImport(e, path, names, k + 1, before);
        return false, merged;
      }
      merged := MergeConfigs(e, merged, imported);
    }
    assert names[..|names|] == names;
    ok := true;
  }
}
