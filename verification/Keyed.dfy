/**
 Sorted sets of entries that are merged by key, as the configuration keeps its channels,
 applications, nodes and connections.  A key is the list of strings compared in turn: name
 and type of a channel, or just a name.
 */
module Keyed {
  import opened Common

  // ------------------------------------------------------------------------ the order

  predicate Less(a: string, b: string) {
    b != "" && (a == "" || a[0] < b[0] || (a[0] == b[0] && Less(a[1..], b[1..])))
  }

  type Key = seq<string>

  predicate KeyLess(a: Key, b: Key) {
    b != [] && (a == [] || Less(a[0], b[0]) || (a[0] == b[0] && KeyLess(a[1..], b[1..])))
  }

  /** Where the two strings part, the smaller one ends or has the smaller character. */
  predicate PartAt(a: string, b: string, n: nat) {
    && n <= |a| && n < |b| && a[..n] == b[..n]
    && (n == |a| || a[n] < b[n])
  }

  /** Strings are compared at the first place where they differ. */
  lemma {:induction false} LessMeaning(a: string, b: string)
    ensures Less(a, b) <==> exists n: nat :: PartAt(a, b, n)
  {
    if Less(a, b) && a != "" && a[0] == b[0] {
      LessMeaning(a[1..], b[1..]);
      var n: nat :| PartAt(a[1..], b[1..], n);
      assert a[..n + 1] == [a[0]] + a[1..][..n] && b[..n + 1] == [b[0]] + b[1..][..n];
      assert PartAt(a, b, n + 1);
    } else if Less(a, b) {
      assert PartAt(a, b, 0);
    }
    if n: nat :| PartAt(a, b, n) && n > 0 {
      assert a[0] == a[..n][0] == b[..n][0] == b[0];
      assert a[1..][..n - 1] == a[..n][1..] && b[1..][..n - 1] == b[..n][1..];
      assert PartAt(a[1..], b[1..], n - 1);
      LessMeaning(a[1..], b[1..]);
    }
  }

  lemma {:induction false} LessTotal(a: string, b: string)
    ensures Less(a, b) || a == b || Less(b, a)
  {
    if a != "" && b != "" && a[0] == b[0] {
      LessTotal(a[1..], b[1..]);
      assert a == [a[0]] + a[1..] && b == [b[0]] + b[1..];
    }
  }

  lemma {:induction false} LessTransitive(a: string, b: string, c: string)
    requires Less(a, b) && Less(b, c)
    ensures Less(a, c)
  {
    if a != "" && a[0] == b[0] && b[0] == c[0] {
      LessTransitive(a[1..], b[1..], c[1..]);
    }
  }

  lemma {:induction false} LessIrreflexive(a: string)
    ensures !Less(a, a)
  {
    if a != "" {
      LessIrreflexive(a[1..]);
    }
  }

  lemma {:induction false} KeyTotal(a: Key, b: Key)
    ensures KeyLess(a, b) || a == b || KeyLess(b, a)
  {
    if a != [] && b != [] {
      LessTotal(a[0], b[0]);
      if a[0] == b[0] {
        KeyTotal(a[1..], b[1..]);
        assert a == [a[0]] + a[1..] && b == [b[0]] + b[1..];
      }
    }
  }

  lemma {:induction false} KeyTransitive(a: Key, b: Key, c: Key)
    requires KeyLess(a, b) && KeyLess(b, c)
    ensures KeyLess(a, c)
  {
    if a != [] {
      if Less(a[0], b[0]) && Less(b[0], c[0]) {
        LessTransitive(a[0], b[0], c[0]);
      } else if a[0] == b[0] && b[0] == c[0] && !Less(a[0], c[0]) {
        LessIrreflexive(a[0]);
        KeyTransitive(a[1..], b[1..], c[1..]);
      }
    }
  }

  lemma {:induction false} KeyIrreflexive(a: Key)
    ensures !KeyLess(a, a)
  {
    if a != [] {
      LessIrreflexive(a[0]);
      KeyIrreflexive(a[1..]);
    }
  }

  lemma KeyAsymmetric(a: Key, b: Key)
    requires KeyLess(a, b)
    ensures !KeyLess(b, a) && a != b
  {
    if KeyLess(b, a) {
      KeyTransitive(a, b, a);
    }
    KeyIrreflexive(a);
  }

  lemma OneName(a: string, b: string)
    ensures KeyLess([a], [b]) <==> Less(a, b)
  {
    assert [a][1..] == [] && [b][1..] == [];
  }

  /** Channels are ordered by name, then by type. */
  lemma NameThenType(a: string, b: string, x: string, y: string)
    ensures KeyLess([a, b], [x, y]) <==> Less(a, x) || (a == x && Less(b, y))
  {
    assert [a, b][1..] == [b] && [x, y][1..] == [y];
    OneName(b, y);
  }

  // ------------------------------------------------------------------------- the sets

  /** How entries are keyed, and how a later entry is merged into an earlier one. */
  datatype Merger<!T> = Merger(key: T -> Key, combine: (T, T) -> T)

  /** Merging entries of the same key keeps the key. */
  ghost predicate Lawful<T(!new)>(g: Merger<T>) {
    forall a, b :: g.key(a) == g.key(b) ==> g.key(g.combine(a, b)) == g.key(a)
  }

  predicate Sorted<T>(g: Merger<T>, s: seq<T>) {
    forall i, j :: 0 <= i < j < |s| ==> KeyLess(g.key(s[i]), g.key(s[j]))
  }

  /** The first position whose key is not less than `k`. */
  function LowerBound<T>(g: Merger<T>, s: seq<T>, k: Key): (p: nat)
    ensures p <= |s| && (forall i :: 0 <= i < p ==> KeyLess(g.key(s[i]), k))
    ensures p < |s| ==> !KeyLess(g.key(s[p]), k)
  {
    if s == [] || !KeyLess(g.key(s[0]), k) then 0 else 1 + LowerBound(g, s[1..], k)
  }

  /** Puts an entry in its place, or merges it into the entry of the same key. */
  function Insert<T>(g: Merger<T>, s: seq<T>, x: T): seq<T> {
    var p := LowerBound(g, s, g.key(x));
    if p < |s| && g.key(s[p]) == g.key(x) then s[p := g.combine(s[p], x)]
    else s[..p] + [x] + s[p..]
  }

  function MergeByKey<T>(g: Merger<T>, xs: seq<T>): seq<T> {
    if xs == [] then [] else Insert(g, MergeByKey(g, ButLast(xs)), Last(xs))
  }

  lemma AfterBound<T>(g: Merger<T>, s: seq<T>, x: T)
    requires Sorted(g, s)
    ensures var p := LowerBound(g, s, g.key(x));
      forall i :: p <= i < |s| && g.key(s[i]) != g.key(x) ==> KeyLess(g.key(x), g.key(s[i]))
    ensures var p := LowerBound(g, s, g.key(x));
      forall i :: p < i < |s| ==> KeyLess(g.key(x), g.key(s[i]))
  {
    var p := LowerBound(g, s, g.key(x));
    forall i | p <= i < |s| && (i > p || g.key(s[i]) != g.key(x))
      ensures KeyLess(g.key(x), g.key(s[i]))
    {
      KeyTotal(g.key(s[p]), g.key(x));
      if i > p && g.key(s[p]) != g.key(x) {
        KeyTransitive(g.key(x), g.key(s[p]), g.key(s[i]));
      }
    }
  }

  /** In-place merging never moves a key, and insertion keeps the order. */
  lemma InsertSorted<T(!new)>(g: Merger<T>, s: seq<T>, x: T)
    requires Lawful(g) && Sorted(g, s)
    ensures Sorted(g, Insert(g, s, x))
  {
    var p := LowerBound(g, s, g.key(x));
    AfterBound(g, s, x);
    var r := Insert(g, s, x);
    if p < |s| && g.key(s[p]) == g.key(x) {
      assert forall i :: 0 <= i < |s| ==> g.key(r[i]) == g.key(s[i]);
    } else {
      assert r[p] == x;
      assert forall i :: 0 <= i < p ==> r[i] == s[i];
      assert forall i :: p < i < |r| ==> r[i] == s[i - 1];
    }
  }

  lemma {:induction false} MergedSorted<T(!new)>(g: Merger<T>, xs: seq<T>)
    requires Lawful(g)
    ensures Sorted(g, MergeByKey(g, xs))
    decreases |xs|
  {
    if xs != [] {
      MergedSorted(g, ButLast(xs));
      InsertSorted(g, MergeByKey(g, ButLast(xs)), Last(xs));
    }
  }

  // ------------------------------------------------------------ one entry for each key

  /** The entry with the key, searched for one by one. */
  function Find<T>(g: Merger<T>, s: seq<T>, k: Key): Option<T> {
    if s == [] then None else if g.key(Last(s)) == k then Some(Last(s)) else Find(g, ButLast(s), k)
  }

  /** The entries with the key, in order. */
  function WithKey<T>(g: Merger<T>, xs: seq<T>, k: Key): seq<T> {
    if xs == [] then []
    else WithKey(g, ButLast(xs), k) + (if g.key(Last(xs)) == k then [Last(xs)] else [])
  }

  /** The entries merged one into the other, from first to last. */
  function Fold<T>(g: Merger<T>, xs: seq<T>): Option<T> {
    if xs == [] then None
    else if |xs| == 1 then Some(xs[0])
    else Some(g.combine(Fold(g, ButLast(xs)).value, Last(xs)))
  }

  lemma {:induction false} FindAt<T>(g: Merger<T>, s: seq<T>, k: Key, i: nat)
    requires Sorted(g, s) && i < |s| && g.key(s[i]) == k
    ensures Find(g, s, k) == Some(s[i])
    decreases |s|
  {
    if i < |s| - 1 {
      KeyAsymmetric(g.key(s[i]), g.key(Last(s)));
      FindAt(g, ButLast(s), k, i);
    }
  }

  lemma {:induction false} FindNone<T>(g: Merger<T>, s: seq<T>, k: Key)
    ensures Find(g, s, k).None? <==> forall i :: 0 <= i < |s| ==> g.key(s[i]) != k
    ensures Find(g, s, k).Some? ==> exists i :: 0 <= i < |s| && s[i] == Find(g, s, k).value && g.key(s[i]) == k
    decreases |s|
  {
    if s != [] {
      FindNone(g, ButLast(s), k);
      assert forall i :: 0 <= i < |s| - 1 ==> ButLast(s)[i] == s[i];
    }
  }

  lemma InsertFind<T(!new)>(g: Merger<T>, s: seq<T>, x: T, k: Key)
    requires Lawful(g) && Sorted(g, s)
    ensures Find(g, Insert(g, s, x), k) ==
      if k != g.key(x) then Find(g, s, k)
      else if Find(g, s, k).None? then Some(x)
      else Some(g.combine(Find(g, s, k).value, x))
  {
    var p := LowerBound(g, s, g.key(x));
    var r := Insert(g, s, x);
    InsertSorted(g, s, x);
    AfterBound(g, s, x);
    FindNone(g, s, k);
    FindNone(g, r, k);
    if k == g.key(x) {
      FindAt(g, r, k, p);
      if p < |s| && g.key(s[p]) == k {
        FindAt(g, s, k, p);
      } else {
        NoneEqual(g, s, x);
      }
    } else {
      InsertKeepsOthers(g, s, x, k);
    }
  }

  lemma NoneEqual<T>(g: Merger<T>, s: seq<T>, x: T)
    requires Sorted(g, s)
    requires var p := LowerBound(g, s, g.key(x)); !(p < |s| && g.key(s[p]) == g.key(x))
    ensures forall i :: 0 <= i < |s| ==> g.key(s[i]) != g.key(x)
  {
    var p := LowerBound(g, s, g.key(x));
    AfterBound(g, s, x);
    forall i | 0 <= i < |s|
      ensures g.key(s[i]) != g.key(x)
    {
      if i < p {
        KeyAsymmetric(g.key(s[i]), g.key(x));
      } else if i > p {
        KeyAsymmetric(g.key(x), g.key(s[i]));
      }
    }
  }

  lemma InsertKeepsOthers<T(!new)>(g: Merger<T>, s: seq<T>, x: T, k: Key)
    requires Lawful(g) && Sorted(g, s) && k != g.key(x)
    ensures Find(g, Insert(g, s, x), k) == Find(g, s, k)
  {
    var r := Insert(g, s, x);
    FindNone(g, s, k);
    FindNone(g, r, k);
    if Find(g, s, k).Some? {
      var i :| 0 <= i < |s| && s[i] == Find(g, s, k).value && g.key(s[i]) == k;
      var j := KeptAt(g, s, x, i);
      InsertSorted(g, s, x);
      FindAt(g, r, k, j);
    } else if Find(g, r, k).Some? {
      var j :| 0 <= j < |r| && r[j] == Find(g, r, k).value && g.key(r[j]) == k;
      var i := CameFrom(g, s, x, j);
      assert false;
    }
  }

  /** Where an entry of another key is found after an insertion. */
  lemma KeptAt<T(!new)>(g: Merger<T>, s: seq<T>, x: T, i: nat) returns (j: nat)
    requires i < |s| && g.key(s[i]) != g.key(x)
    ensures j < |Insert(g, s, x)| && Insert(g, s, x)[j] == s[i]
  {
    var p := LowerBound(g, s, g.key(x));
    j := if (p < |s| && g.key(s[p]) == g.key(x)) || i < p then i else i + 1;
  }

  /** Where an entry of another key was before an insertion. */
  lemma CameFrom<T(!new)>(g: Merger<T>, s: seq<T>, x: T, j: nat) returns (i: nat)
    requires Lawful(g) && j < |Insert(g, s, x)| && g.key(Insert(g, s, x)[j]) != g.key(x)
    ensures i < |s| && s[i] == Insert(g, s, x)[j]
  {
    var p := LowerBound(g, s, g.key(x));
    i := if (p < |s| && g.key(s[p]) == g.key(x)) || j < p then j else j - 1;
  }

  /**
   The merged set holds for each key exactly the fold of the entries with that key, in the
   order they were given.
   */
  lemma {:induction false} MergedFind<T(!new)>(g: Merger<T>, xs: seq<T>, k: Key)
    requires Lawful(g)
    ensures Find(g, MergeByKey(g, xs), k) == Fold(g, WithKey(g, xs, k))
    decreases |xs|
  {
    if xs != [] {
      var ys, x := ButLast(xs), Last(xs);
      MergedFind(g, ys, k);
      MergedSorted(g, ys);
      InsertFind(g, MergeByKey(g, ys), x, k);
      var w := WithKey(g, ys, k);
      if g.key(x) == k {
        assert ButLast(w + [x]) == w && Last(w + [x]) == x;
      } else {
        assert w + [] == w;
      }
    }
  }

  /** A sorted set is determined by what it holds for each key. */
  lemma {:induction false} SortedUnique<T(!new)>(g: Merger<T>, s: seq<T>, t: seq<T>)
    requires Sorted(g, s) && Sorted(g, t) && forall k: Key :: Find(g, s, k) == Find(g, t, k)
    ensures s == t
    decreases |s|
  {
    if s == [] {
      assert t != [] ==> Find(g, t, g.key(Last(t))) == Find(g, s, g.key(Last(t)));
    } else {
      LastAgrees(g, s, t);
      forall k: Key
        ensures Find(g, ButLast(s), k) == Find(g, ButLast(t), k)
      {
        ButLastFind(g, s, k);
        ButLastFind(g, t, k);
        assert Find(g, s, k) == Find(g, t, k);
      }
      SortedUnique(g, ButLast(s), ButLast(t));
      assert s == ButLast(s) + [Last(s)] && t == ButLast(t) + [Last(t)];
    }
  }

  lemma ButLastFind<T>(g: Merger<T>, s: seq<T>, k: Key)
    requires Sorted(g, s) && s != []
    ensures Find(g, ButLast(s), k) == if k == g.key(Last(s)) then None else Find(g, s, k)
  {
    FindNone(g, ButLast(s), k);
    if k == g.key(Last(s)) {
      forall i | 0 <= i < |s| - 1
        ensures g.key(ButLast(s)[i]) != k
      {
        KeyAsymmetric(g.key(s[i]), g.key(Last(s)));
      }
    }
  }

  lemma LastAgrees<T(!new)>(g: Merger<T>, s: seq<T>, t: seq<T>)
    requires Sorted(g, s) && Sorted(g, t) && s != [] && forall k: Key :: Find(g, s, k) == Find(g, t, k)
    ensures t != [] && Last(s) == Last(t)
  {
    var k := g.key(Last(s));
    assert Find(g, s, k) == Find(g, t, k);
    FindNone(g, t, k);
    var i :| 0 <= i < |t| && t[i] == Last(s);
    if i < |t| - 1 {
      var k' := g.key(Last(t));
      assert KeyLess(k, k');
      assert Find(g, s, k') == Find(g, t, k');
      FindNone(g, s, k');
      var j :| 0 <= j < |s| && g.key(s[j]) == k';
      KeyAsymmetric(k, k');
      assert false;
    }
  }

  /** Entries of different keys may be given in any order. */
  lemma OrderIrrelevant<T(!new)>(g: Merger<T>, xs: seq<T>, ys: seq<T>)
    requires Lawful(g) && forall k: Key :: WithKey(g, xs, k) == WithKey(g, ys, k)
    ensures MergeByKey(g, xs) == MergeByKey(g, ys)
  {
    MergedSorted(g, xs);
    MergedSorted(g, ys);
    forall k: Key
      ensures Find(g, MergeByKey(g, xs), k) == Find(g, MergeByKey(g, ys), k)
    {
      MergedFind(g, xs, k);
      MergedFind(g, ys, k);
    }
    SortedUnique(g, MergeByKey(g, xs), MergeByKey(g, ys));
  }

  /** A sorted set merges to itself. */
  lemma {:induction false} MergeSorted<T(!new)>(g: Merger<T>, s: seq<T>)
    requires Lawful(g) && Sorted(g, s)
    ensures MergeByKey(g, s) == s
    decreases |s|
  {
    if s != [] {
      var t, x := ButLast(s), Last(s);
      MergeSorted(g, t);
      assert forall i :: 0 <= i < |t| ==> KeyLess(g.key(t[i]), g.key(x));
      var p := LowerBound(g, t, g.key(x));
      assert p == |t|;
      assert t[..p] + [x] + t[p..] == s;
    }
  }

  lemma MergePair<T(!new)>(g: Merger<T>, a: T, b: T)
    requires g.key(a) == g.key(b)
    ensures MergeByKey(g, [a, b]) == [g.combine(a, b)]
  {
    assert ButLast([a, b]) == [a] && ButLast([a]) == [];
    assert MergeByKey(g, [a]) == [a];
    KeyIrreflexive(g.key(a));
    assert LowerBound(g, [a], g.key(b)) == 0;
  }

  // ------------------------------------------------------------------ sizes and properties

  predicate Distinct<T>(g: Merger<T>, s: seq<T>) {
    forall i, j :: 0 <= i < j < |s| ==> g.key(s[i]) != g.key(s[j])
  }

  lemma SortedDistinct<T>(g: Merger<T>, s: seq<T>)
    requires Sorted(g, s)
    ensures Distinct(g, s)
  {
    forall i, j | 0 <= i < j < |s|
      ensures g.key(s[i]) != g.key(s[j])
    {
      KeyAsymmetric(g.key(s[i]), g.key(s[j]));
    }
  }

  lemma {:induction false} WithKeyEmpty<T>(g: Merger<T>, xs: seq<T>, k: Key)
    ensures WithKey(g, xs, k) == [] <==> forall i :: 0 <= i < |xs| ==> g.key(xs[i]) != k
    decreases |xs|
  {
    if xs != [] {
      WithKeyEmpty(g, ButLast(xs), k);
      assert forall i :: 0 <= i < |xs| - 1 ==> ButLast(xs)[i] == xs[i];
    }
  }

  lemma InsertSize<T(!new)>(g: Merger<T>, s: seq<T>, x: T)
    requires Sorted(g, s)
    ensures |Insert(g, s, x)| == |s| + if Find(g, s, g.key(x)).None? then 1 else 0
  {
    FindNone(g, s, g.key(x));
    var p := LowerBound(g, s, g.key(x));
    if !(p < |s| && g.key(s[p]) == g.key(x)) {
      NoneEqual(g, s, x);
    }
  }

  /** Nothing is lost exactly when the keys were distinct already. */
  lemma {:induction false} MergedSize<T(!new)>(g: Merger<T>, xs: seq<T>)
    requires Lawful(g)
    ensures |MergeByKey(g, xs)| <= |xs|
    ensures |MergeByKey(g, xs)| == |xs| <==> Distinct(g, xs)
    decreases |xs|
  {
    if xs != [] {
      var ys, x := ButLast(xs), Last(xs);
      MergedSize(g, ys);
      MergedSorted(g, ys);
      InsertSize(g, MergeByKey(g, ys), x);
      MergedFind(g, ys, g.key(x));
      WithKeyEmpty(g, ys, g.key(x));
      DistinctMore(g, ys, x);
      assert xs == ys + [x];
    }
  }

  lemma DistinctMore<T>(g: Merger<T>, ys: seq<T>, x: T)
    ensures Distinct(g, ys + [x]) <==> Distinct(g, ys) && forall i :: 0 <= i < |ys| ==> g.key(ys[i]) != g.key(x)
  {
    var xs := ys + [x];
    if Distinct(g, xs) {
      forall i, j | 0 <= i < j < |ys|
        ensures g.key(ys[i]) != g.key(ys[j])
      {
        assert xs[i] == ys[i] && xs[j] == ys[j];
      }
      forall i | 0 <= i < |ys|
        ensures g.key(ys[i]) != g.key(x)
      {
        assert xs[i] == ys[i] && xs[|ys|] == x;
      }
    }
  }

  /** With distinct keys, finding an entry is the same as folding the entries of its key. */
  lemma {:induction false} DistinctFind<T>(g: Merger<T>, xs: seq<T>, k: Key)
    requires Distinct(g, xs)
    ensures Find(g, xs, k) == Fold(g, WithKey(g, xs, k))
    decreases |xs|
  {
    if xs != [] {
      var ys, x := ButLast(xs), Last(xs);
      DistinctFind(g, ys, k);
      if g.key(x) == k {
        WithKeyEmpty(g, ys, k);
        assert [] + [x] == [x];
      } else {
        assert WithKey(g, ys, k) + [] == WithKey(g, ys, k);
      }
    }
  }

  lemma {:induction false} FindDistinct<T>(g: Merger<T>, s: seq<T>, k: Key, i: nat)
    requires Distinct(g, s) && i < |s| && g.key(s[i]) == k
    ensures Find(g, s, k) == Some(s[i])
    decreases |s|
  {
    if i < |s| - 1 {
      assert g.key(s[i]) != g.key(s[|s| - 1]);
      FindDistinct(g, ButLast(s), k, i);
    }
  }

  lemma {:induction false} WithKeyConcat<T>(g: Merger<T>, xs: seq<T>, ys: seq<T>, k: Key)
    ensures WithKey(g, xs + ys, k) == WithKey(g, xs, k) + WithKey(g, ys, k)
    decreases |ys|
  {
    if ys == [] {
      assert xs + ys == xs;
    } else {
      WithKeyConcat(g, xs, ButLast(ys), k);
      assert ButLast(xs + ys) == xs + ButLast(ys);
      ConcatAssoc(WithKey(g, xs, k), WithKey(g, ButLast(ys), k), if g.key(Last(ys)) == k then [Last(ys)] else []);
    }
  }

  /** Entries that have been folded already can be folded on. */
  lemma {:induction false} FoldOn<T>(g: Merger<T>, xs: seq<T>, ys: seq<T>)
    requires xs != []
    ensures Fold(g, xs + ys) == Fold(g, [Fold(g, xs).value] + ys)
    decreases |ys|
  {
    var zs := [Fold(g, xs).value] + ys;
    if ys == [] {
      assert xs + ys == xs && zs == [Fold(g, xs).value];
    } else {
      FoldOn(g, xs, ButLast(ys));
      assert ButLast(xs + ys) == xs + ButLast(ys) && Last(xs + ys) == Last(ys);
      assert ButLast(zs) == [Fold(g, xs).value] + ButLast(ys) && Last(zs) == Last(ys);
    }
  }

  /** With distinct keys there is at most one entry of a key. */
  lemma {:induction false} DistinctWithKey<T>(g: Merger<T>, xs: seq<T>, k: Key)
    requires Distinct(g, xs)
    ensures WithKey(g, xs, k) == if Find(g, xs, k).None? then [] else [Find(g, xs, k).value]
    decreases |xs|
  {
    if xs != [] {
      var ys, x := ButLast(xs), Last(xs);
      DistinctWithKey(g, ys, k);
      if g.key(x) == k {
        WithKeyEmpty(g, ys, k);
        assert [] + [x] == [x];
      } else {
        assert WithKey(g, ys, k) + [] == WithKey(g, ys, k);
      }
    }
  }

  predicate All<T>(good: T -> bool, xs: seq<T>) {
    forall i :: 0 <= i < |xs| ==> good(xs[i])
  }

  /** Whatever merging keeps true of the entries is true of the merged ones. */
  lemma {:induction false} MergedAll<T(!new)>(g: Merger<T>, good: T -> bool, xs: seq<T>)
    requires All(good, xs)
    requires forall a, b :: good(a) && good(b) ==> good(g.combine(a, b))
    ensures All(good, MergeByKey(g, xs))
    decreases |xs|
  {
    if xs != [] {
      MergedAll(g, good, ButLast(xs));
    }
  }
}
