/** `RemoveDotDots`: the normal form of an import path. */
module Paths {
  import opened Common

  // --------------------------------------------------------------- splitting and joining

  /** The pieces between the slashes; one empty piece for the empty string. */
  function Split(s: string): (xs: seq<string>)
    ensures xs != []
  {
    if s == "" then [""]
    else if s[0] == '/' then [""] + Split(s[1..])
    else var xs := Split(s[1..]); [[s[0]] + xs[0]] + xs[1..]
  }

  function Join(xs: seq<string>): string {
    if xs == [] then "" else if |xs| == 1 then xs[0] else xs[0] + "/" + Join(xs[1..])
  }

  predicate NoSlash(x: string) {
    '/' !in x
  }

  predicate NoSlashes(xs: seq<string>) {
    forall i :: 0 <= i < |xs| ==> NoSlash(xs[i])
  }

  lemma {:induction false} SplitPieces(s: string)
    ensures NoSlashes(Split(s)) && Join(Split(s)) == s
    decreases |s|
  {
    if s != "" {
      var t := s[1..];
      SplitPieces(t);
      var xs := Split(t);
      assert s == [s[0]] + t;
      if s[0] == '/' {
        assert ([""] + xs)[1..] == xs;
      } else {
        var ys := [[s[0]] + xs[0]] + xs[1..];
        assert ys[1..] == xs[1..];
        assert Join(ys) == [s[0]] + Join(xs);
      }
    }
  }

  /** Splitting what was joined gives the pieces back. */
  lemma {:induction false} SplitJoin(xs: seq<string>)
    requires xs != [] && NoSlashes(xs)
    ensures Split(Join(xs)) == xs
    decreases |xs|
  {
    if |xs| == 1 {
      SplitOne(xs[0]);
    } else {
      SplitJoin(xs[1..]);
      SplitFirst(xs[0], Join(xs[1..]));
      assert xs == [xs[0]] + xs[1..];
      assert xs[0] + "/" + Join(xs[1..]) == xs[0] + ("/" + Join(xs[1..]));
    }
  }

  lemma {:induction false} SplitOne(x: string)
    requires NoSlash(x)
    ensures Split(x) == [x]
    decreases |x|
  {
    if x != "" {
      SplitOne(x[1..]);
      assert x == [x[0]] + x[1..];
    }
  }

  lemma {:induction false} SplitFirst(x: string, rest: string)
    requires NoSlash(x)
    ensures Split(x + ("/" + rest)) == [x] + Split(rest)
    decreases |x|
  {
    var s := x + ("/" + rest);
    if x == "" {
      assert s[1..] == rest;
    } else {
      SplitFirst(x[1..], rest);
      assert s[1..] == x[1..] + ("/" + rest);
      assert x == [x[0]] + x[1..];
    }
  }

  // ------------------------------------------------------------------ walking the folders

  predicate Silent(x: string) {
    x == "" || x == "."
  }

  /** A piece that names a file or folder. */
  predicate Name(x: string) {
    !Silent(x) && x != ".."
  }

  predicate Names(xs: seq<string>) {
    forall i :: 0 <= i < |xs| ==> Name(xs[i])
  }

  /** The folder reached from a folder, piece by piece; none above the start. */
  function Walk(at: seq<string>, path: seq<string>): Option<seq<string>>
    decreases |path|
  {
    if path == [] then Some(at)
    else if Silent(path[0]) then Walk(at, path[1..])
    else if path[0] == ".." then if at == [] then None else Walk(ButLast(at), path[1..])
    else Walk(at + [path[0]], path[1..])
  }

  /** How deep a path leads: negative if it leads above its start. */
  function Depth(path: seq<string>): int {
    if path == [] then 0
    else (if Silent(path[0]) then 0 else if path[0] == ".." then -1 else 1) + Depth(path[1..])
  }

  /** Some beginning of the path leads more than `n` folders up. */
  ghost predicate Climbs(n: nat, path: seq<string>) {
    exists k :: 0 <= k <= |path| && n + Depth(path[..k]) < 0
  }

  lemma ClimbsLater(n: nat, path: seq<string>, m: nat)
    requires path != [] && m == n + Depth(path[..1])
    ensures Climbs(n, path) <==> Climbs(m, path[1..])
  {
    if Climbs(n, path) {
      var k :| 0 <= k <= |path| && n + Depth(path[..k]) < 0;
      assert k > 0;
      assert path[..k][1..] == path[1..][..k - 1] && path[..1][1..] == [];
      assert m + Depth(path[1..][..k - 1]) < 0;
    }
    if Climbs(m, path[1..]) {
      var k :| 0 <= k <= |path[1..]| && m + Depth(path[1..][..k]) < 0;
      assert path[..k + 1][1..] == path[1..][..k] && path[..1][1..] == [];
      assert n + Depth(path[..k + 1]) < 0;
    }
  }

  /** A walk fails exactly if the path climbs above the start. */
  lemma {:induction false} WalkFails(at: seq<string>, path: seq<string>)
    ensures Walk(at, path).None? <==> Climbs(|at|, path)
    decreases |path|
  {
    if path != [] {
      var one := path[..1];
      assert one[1..] == [] && Depth(one) == if Silent(path[0]) then 0 else if path[0] == ".." then -1 else 1;
      if Silent(path[0]) {
        WalkFails(at, path[1..]);
        ClimbsLater(|at|, path, |at|);
      } else if path[0] != ".." {
        WalkFails(at + [path[0]], path[1..]);
        ClimbsLater(|at|, path, |at| + 1);
      } else if at == [] {
        assert |at| + Depth(path[..1]) < 0;
      } else {
        WalkFails(ButLast(at), path[1..]);
        ClimbsLater(|at|, path, |at| - 1);
      }
    } else {
      assert path[..0] == [];
    }
  }

  lemma {:induction false} WalkNames(at: seq<string>, path: seq<string>)
    requires Names(at) && NoSlashes(at) && NoSlashes(path)
    ensures Walk(at, path).Some? ==> Names(Walk(at, path).value) && NoSlashes(Walk(at, path).value)
    decreases |path|
  {
    if path != [] {
      if Silent(path[0]) {
        WalkNames(at, path[1..]);
      } else if path[0] != ".." {
        WalkNames(at + [path[0]], path[1..]);
      } else if at != [] {
        WalkNames(ButLast(at), path[1..]);
      }
    }
  }

  /** Walking along names just appends them. */
  lemma {:induction false} WalkAppends(at: seq<string>, path: seq<string>)
    requires Names(path)
    ensures Walk(at, path) == Some(at + path)
    decreases |path|
  {
    if path == [] {
      assert at + path == at;
    } else {
      WalkAppends(at + [path[0]], path[1..]);
      assert at + path == (at + [path[0]]) + path[1..];
    }
  }

  /** A walk that works from one folder works the same way further down. */
  lemma {:induction false} WalkFrom(base: seq<string>, at: seq<string>, path: seq<string>)
    requires Walk(at, path).Some?
    ensures Walk(base + at, path) == Some(base + Walk(at, path).value)
    decreases |path|
  {
    if path != [] {
      if Silent(path[0]) {
        WalkFrom(base, at, path[1..]);
      } else if path[0] == ".." {
        WalkFrom(base, ButLast(at), path[1..]);
        assert ButLast(base + at) == base + ButLast(at);
      } else {
        WalkFrom(base, at + [path[0]], path[1..]);
        assert (base + at) + [path[0]] == base + (at + [path[0]]);
      }
    }
  }

  // ------------------------------------------------------------------------ the function

  function Normal(path: string): Option<string> {
    match Walk([], Split(path))
    case None => None
    case Some(xs) => Some(Join(xs))
  }

  /** What splitting a joined list of names leaves to walk. */
  lemma SplitNormal(xs: seq<string>)
    requires Names(xs) && NoSlashes(xs)
    ensures forall base :: Walk(base, Split(Join(xs))) == Some(base + xs)
  {
    forall base
      ensures Walk(base, Split(Join(xs))) == Some(base + xs)
    {
      if xs == [] {
        assert Split(Join(xs)) == [""] && [""][1..] == [];
        assert base + xs == base;
      } else {
        SplitJoin(xs);
        WalkAppends(base, xs);
      }
    }
  }

  /** The path fails to normalise exactly if some beginning of it climbs above the start. */
  lemma NormalFails(path: string)
    ensures Normal(path).None? <==> Climbs(0, Split(path))
  {
    WalkFails([], Split(path));
  }

  /** The normal form consists of names only, and leads to the same place from every folder. */
  lemma NormalMeaning(path: string, base: seq<string>)
    requires Normal(path).Some?
    ensures exists xs :: Names(xs) && NoSlashes(xs) && Normal(path).value == Join(xs)
    ensures Walk(base, Split(Normal(path).value)) == Walk(base, Split(path))
  {
    var xs := Walk([], Split(path)).value;
    SplitPieces(path);
    WalkNames([], Split(path));
    SplitNormal(xs);
    WalkFrom(base, [], Split(path));
    assert base + [] == base;
  }

  /** Normalising again changes nothing. */
  lemma NormalTwice(path: string)
    requires Normal(path).Some?
    ensures Normal(Normal(path).value) == Normal(path)
  {
    NormalMeaning(path, []);
  }

  /** From every folder the paths lead to the same place, if anywhere. */
  ghost predicate SamePlace(p: string, q: string) {
    forall base :: Walk(base, Split(p)) == Walk(base, Split(q))
  }

  /** Paths have the same normal form exactly if they always lead to the same place. */
  lemma NormalUnique(p: string, q: string)
    requires Normal(p).Some? && Normal(q).Some?
    ensures Normal(p) == Normal(q) <==> SamePlace(p, q)
  {
    if Normal(p) == Normal(q) {
      forall base
        ensures Walk(base, Split(p)) == Walk(base, Split(q))
      {
        NormalMeaning(p, base);
        NormalMeaning(q, base);
      }
      assert SamePlace(p, q);
    }
    if SamePlace(p, q) {
      assert Walk([], Split(p)) == Walk([], Split(q));
    }
  }

  /** The erasing loop; `ok` is false where the original stops. */
  method RemoveDotDots(path: string) returns (ok: bool, normal: string)
    ensures ok <==> Normal(path).Some?
    ensures ok ==> normal == Normal(path).value
  {
    var split := Split(path);
    var i := 0;
    assert split[..0] == [] && split[0..] == split;
    while i < |split|
      invariant i <= |split| && Walk(split[..i], split[i..]) == Walk([], Split(path))
      decreases |split| - i
    {
      assert split[i..][0] == split[i] && split[i..][1..] == split[i + 1..];
      if split[i] == "" || split[i] == "." {
        split := Erase(split, i);
      } else if split[i] == ".." {
        if i == 0 {
          return false, "";
        }
        assert ButLast(split[..i]) == split[..i - 1];
        split := EraseTwo(split, i);
        i := i - 1;
      } else {
        assert split[..i] + [split[i]] == split[..i + 1];
        i := i + 1;
      }
    }
    assert split[..i] == split && split[i..] == [];
    ok, normal := true, Join(split);
  }

  function Erase(xs: seq<string>, i: nat): (r: seq<string>)
    requires i < |xs|
    ensures |r| == |xs| - 1 && r[..i] == xs[..i] && r[i..] == xs[i + 1..]
  {
    xs[..i] + xs[i + 1..]
  }

  /** Erases a piece and the one before it. */
  function EraseTwo(xs: seq<string>, i: nat): (r: seq<string>)
    requires 0 < i < |xs|
    ensures |r| == |xs| - 2 && r[..i - 1] == xs[..i - 1] && r[i - 1..] == xs[i + 1..]
  {
    var ys := Erase(xs, i);
    assert ys[..i][..i - 1] == ys[..i - 1] && xs[..i][..i - 1] == xs[..i - 1];
    Erase(ys, i - 1)
  }
}
