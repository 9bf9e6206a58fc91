/**
 Thread-local objects with destructors: a slot per type, and the list of slots to destroy
 when the thread ends.
 */
module ThreadLocal {
  import opened Common

  // -------------------------------------------------------------------- what should happen

  /** A slot that holds an object; objects are numbered in the order they are built. */
  datatype Entry<T> = Entry(slot: T, id: nat)

  datatype Operation<T> = Create(slot: T) | Clear(slot: T)

  /** The filled slots, newest first, the number of objects built, and the destroyed ones in order. */
  datatype World<T> = World(list: seq<Entry<T>>, built: nat, destroyed: seq<nat>)

  /** The position of a slot; the length of the list if it is not there. */
  function Find<T(==)>(list: seq<Entry<T>>, x: T): (i: nat)
    ensures i <= |list| && (i < |list| ==> list[i].slot == x) && (forall j :: 0 <= j < i ==> list[j].slot != x)
  {
    if list == [] || list[0].slot == x then 0 else 1 + Find(list[1..], x)
  }

  predicate Holds<T(==)>(w: World<T>, x: T) {
    Find(w.list, x) < |w.list|
  }

  function Step<T(==)>(w: World<T>, op: Operation<T>): World<T> {
    match op
    case Create(x) =>
      if Holds(w, x) then w else World([Entry(x, w.built)] + w.list, w.built + 1, w.destroyed)
    case Clear(x) =>
      if !Holds(w, x) then w
      else
        var i := Find(w.list, x);
        World(w.list[..i] + w.list[i + 1..], w.built, w.destroyed + [w.list[i].id])
  }

  function Run<T(==)>(ops: seq<Operation<T>>): World<T> {
    if ops == [] then World([], 0, []) else Step(Run(ButLast(ops)), Last(ops))
  }

  function Objects<T>(list: seq<Entry<T>>): (s: seq<nat>)
    ensures |s| == |list|
  {
    seq(|list|, i requires 0 <= i < |list| => list[i].id)
  }

  /** The end of the thread: every object on the list is destroyed, from the newest on. */
  function Exit<T>(w: World<T>): seq<nat> {
    w.destroyed + Objects(w.list)
  }

  function UpTo(n: nat): seq<nat> {
    if n == 0 then [] else UpTo(n - 1) + [n - 1]
  }

  predicate Distinct<T(==)>(list: seq<Entry<T>>) {
    forall i, j :: 0 <= i < j < |list| ==> list[i].slot != list[j].slot
  }

  /** Newest first. */
  predicate Descending<T>(list: seq<Entry<T>>, bound: nat) {
    && (forall i :: 0 <= i < |list| ==> list[i].id < bound)
    && forall i, j :: 0 <= i < j < |list| ==> list[i].id > list[j].id
  }

  /** Every object built is on the list or has been destroyed, and not both or twice. */
  predicate Accounted<T>(w: World<T>) {
    multiset(Exit(w)) == multiset(UpTo(w.built))
  }

  predicate Good<T(==)>(w: World<T>) {
    Distinct(w.list) && Descending(w.list, w.built) && Accounted(w)
  }

  lemma CreateGood<T>(w: World<T>, x: T)
    requires Good(w) && !Holds(w, x)
    ensures Good(Step(w, Create(x)))
  {
    hide Distinct, Descending, Objects;
    var v := Step(w, Create(x));
    PushedObjects(w.list, Entry(x, w.built));
    assert multiset(Exit(v)) == multiset(Exit(w)) + multiset{w.built};
    Pushed(w.list, Entry(x, w.built));
  }

  lemma PushedObjects<T>(list: seq<Entry<T>>, e: Entry<T>)
    ensures Objects([e] + list) == [e.id] + Objects(list)
  {
  }

  lemma Pushed<T>(list: seq<Entry<T>>, e: Entry<T>)
    requires Distinct(list) && Descending(list, e.id) && Find(list, e.slot) == |list|
    ensures Distinct([e] + list) && Descending([e] + list, e.id + 1)
  {
  }

  lemma ClearGood<T>(w: World<T>, x: T)
    requires Good(w) && Holds(w, x)
    ensures Good(Step(w, Clear(x)))
  {
    var v := Step(w, Clear(x));
    var i := Find(w.list, x);
    Erased(w.list, i);
    ErasedObjects(w.list, i);
    var o := w.list[i].id;
    assert multiset(Exit(v)) == multiset(w.destroyed) + multiset{o} + multiset(Objects(v.list));
  }

  lemma Erased<T>(list: seq<Entry<T>>, i: nat)
    requires i < |list|
    ensures var r := list[..i] + list[i + 1..];
      && (Distinct(list) ==> Distinct(r)) && (forall n :: Descending(list, n) ==> Descending(r, n))
      && forall k :: 0 <= k < |r| ==> r[k] == list[if k < i then k else k + 1]
  {
  }

  lemma ErasedObjects<T>(list: seq<Entry<T>>, i: nat)
    requires i < |list|
    ensures multiset(Objects(list)) == multiset(Objects(list[..i] + list[i + 1..])) + multiset{list[i].id}
  {
    var os := Objects(list);
    assert Objects(list[..i] + list[i + 1..]) == os[..i] + os[i + 1..];
    assert os == os[..i] + [os[i]] + os[i + 1..];
  }

  /** At every moment, over every sequence of creations and clearings. */
  lemma {:induction false} AlwaysGood<T>(ops: seq<Operation<T>>)
    ensures Good(Run(ops))
    decreases |ops|
  {
    if ops != [] {
      var w := Run(ButLast(ops));
      AlwaysGood(ButLast(ops));
      match Last(ops)
      case Create(x) =>
        if !Holds(w, x) {
          CreateGood(w, x);
        }
      case Clear(x) =>
        if Holds(w, x) {
          ClearGood(w, x);
        }
    } else {
      assert Exit(Run(ops)) == [];
    }
  }

  /** Whether the last operation on the slot was a creation. */
  predicate Created<T(==)>(ops: seq<Operation<T>>, x: T) {
    ops != [] && (if Last(ops).slot == x then Last(ops).Create? else Created(ButLast(ops), x))
  }

  /** The list holds exactly the slots created and not cleared since. */
  lemma {:induction false} HoldsCreated<T>(ops: seq<Operation<T>>, x: T)
    ensures Holds(Run(ops), x) <==> Created(ops, x)
    decreases |ops|
  {
    if ops != [] {
      var w := Run(ButLast(ops));
      HoldsCreated(ButLast(ops), x);
      AlwaysGood(ButLast(ops));
      StepHolds(w, Last(ops), x);
    }
  }

  lemma StepHolds<T>(w: World<T>, op: Operation<T>, x: T)
    requires Distinct(w.list)
    ensures Holds(Step(w, op), x) <==> if op.slot == x then op.Create? else Holds(w, x)
  {
    match op
    case Create(y) => CreateHolds(w, y, x);
    case Clear(y) => ClearHolds(w, y, x);
  }

  lemma CreateHolds<T>(w: World<T>, y: T, x: T)
    ensures Holds(Step(w, Create(y)), x) <==> x == y || Holds(w, x)
  {
    var v := Step(w, Create(y));
    if !Holds(w, y) {
      assert v.list[0] == Entry(y, w.built) && v.list[1..] == w.list;
    }
  }

  lemma ClearHolds<T>(w: World<T>, y: T, x: T)
    requires Distinct(w.list)
    ensures Holds(Step(w, Clear(y)), x) <==> x != y && Holds(w, x)
  {
    if Holds(w, y) {
      var v := Step(w, Clear(y));
      var p, i, j := Find(w.list, y), Find(w.list, x), Find(v.list, x);
      Erased(w.list, p);
      if i < |w.list| && x != y {
        assert v.list[if i < p then i else i - 1] == w.list[i];
      }
      if j < |v.list| {
        assert v.list[j] == w.list[if j < p then j else j + 1];
      }
    }
  }

  /** When the thread ends, every object built has been destroyed exactly once. */
  lemma DestroyedOnce<T>(ops: seq<Operation<T>>)
    ensures multiset(Exit(Run(ops))) == multiset(UpTo(Run(ops).built))
  {
    AlwaysGood(ops);
  }

  // ------------------------------------------------------------------- the list of slots

  /** The slots of the list. */
  function Slots<T>(list: seq<Entry<T>>): (s: seq<T>)
    ensures |s| == |list| && forall i :: 0 <= i < |s| ==> s[i] == list[i].slot
  {
    seq(|list|, i requires 0 <= i < |list| => list[i].slot)
  }

  function Without<T(==)>(s: seq<T>, x: T): seq<T> {
    if s == [] then [] else if s[0] == x then s[1..] else [s[0]] + Without(s[1..], x)
  }

  function StepSlots<T(==)>(s: seq<T>, op: Operation<T>): seq<T> {
    match op
    case Create(x) => if x in s then s else [x] + s
    case Clear(x) => Without(s, x)
  }

  lemma {:induction false} WithoutAt<T>(s: seq<T>, x: T, i: nat)
    requires i <= |s| && (forall j :: 0 <= j < i ==> s[j] != x) && (i < |s| ==> s[i] == x)
    ensures Without(s, x) == if i < |s| then Erase(s, i) else s
    decreases i
  {
    if i > 0 {
      WithoutAt(s[1..], x, i - 1);
      EraseTail(s, i);
    } else if s != [] {
      assert s[..0] + s[1..] == s[1..];
    }
  }

  lemma EraseTail<T>(s: seq<T>, i: nat)
    requires 0 < i <= |s|
    ensures s == [s[0]] + s[1..]
    ensures i < |s| ==> Erase(s, i) == [s[0]] + Erase(s[1..], i - 1)
  {
    if i < |s| {
      assert s[1..][..i - 1] == s[1..i] && s[1..][i..] == s[i + 1..];
      assert s[..i] == [s[0]] + s[1..i];
      ConcatAssoc([s[0]], s[1..i], s[i + 1..]);
    }
  }

  lemma SlotsCreate<T>(w: World<T>, x: T)
    ensures Slots(Step(w, Create(x)).list) == StepSlots(Slots(w.list), Create(x))
  {
    var s, i := Slots(w.list), Find(w.list, x);
    if i < |w.list| {
      assert s[i] == x;
    } else {
      assert x !in s;
      assert Slots([Entry(x, w.built)] + w.list) == [x] + s;
    }
  }

  lemma SlotsErased<T>(list: seq<Entry<T>>, i: nat)
    requires i < |list|
    ensures Slots(list[..i] + list[i + 1..]) == Erase(Slots(list), i)
  {
  }

  lemma SlotsClear<T>(w: World<T>, x: T)
    ensures Slots(Step(w, Clear(x)).list) == StepSlots(Slots(w.list), Clear(x))
  {
    hide Without, Erase, Slots;
    var i := Find(w.list, x);
    WithoutAt(Slots(w.list), x, i);
    if i < |w.list| {
      SlotsErased(w.list, i);
    }
  }

  /** A step on the world is a step on its slots. */
  lemma SlotsStep<T>(w: World<T>, op: Operation<T>)
    ensures Slots(Step(w, op).list) == StepSlots(Slots(w.list), op)
  {
    match op
    case Create(x) => SlotsCreate(w, x);
    case Clear(x) => SlotsClear(w, x);
  }

  // ---------------------------------------------------------------------- the linked list

  /** The slot of one type in one thread, with its link in the destructor list. */
  class Slot {
    var initialized: bool
    var next: Slot?

    constructor ()
      ensures !initialized && next == null
    {
      initialized, next := false, null;
    }
  }

  predicate NoRepeats<T(==)>(s: seq<T>) {
    forall i, j :: 0 <= i < j < |s| ==> s[i] != s[j]
  }

  /** The slot at a position; null after the last one. */
  function At(list: seq<Slot>, i: nat): Slot? {
    if i < |list| then list[i] else null
  }

  function Erase<T>(s: seq<T>, i: nat): (r: seq<T>)
    requires i < |s|
    ensures |r| == |s| - 1 && forall j :: 0 <= j < |r| ==> r[j] == s[if j < i then j else j + 1]
  {
    s[..i] + s[i + 1..]
  }

  class Thread {
    ghost const slots: set<Slot>
    var head: Slot?
    ghost var list: seq<Slot>

    /** The links follow the list, without repetition, and it holds exactly the initialised slots. */
    ghost predicate Valid()
      reads this, slots
    {
      && NoRepeats(list) && (forall i :: 0 <= i < |list| ==> list[i] in slots)
      && head == At(list, 0) && (forall i :: 0 <= i < |list| ==> list[i].next == At(list, i + 1))
      && forall s :: s in slots ==> (s.initialized <==> s in list)
    }

    constructor (slots: set<Slot>)
      requires forall s :: s in slots ==> !s.initialized
      ensures Valid() && this.slots == slots && list == []
    {
      this.slots := slots;
      head, list := null, [];
    }

    /** The links follow this list. */
    ghost predicate Follows(l: seq<Slot>)
      requires forall i :: 0 <= i < |l| ==> l[i] in slots
      reads this, slots
    {
      head == At(l, 0) && forall i :: 0 <= i < |l| ==> l[i].next == At(l, i + 1)
    }

    /** Puts a slot that is not listed in front of the links, which then follow the longer list. */
    method Add(slot: Slot)
      requires Valid() && slot in slots && slot !in list
      modifies this`head, slot`next
      ensures forall i :: 0 <= i < |[slot] + list| ==> ([slot] + list)[i] in slots
      ensures Follows([slot] + list)
    {
      slot.next := head;
      head := slot;
      ghost var l := [slot] + list;
      assert forall i :: 0 < i < |l| ==> l[i] == list[i - 1];
    }

    /** Builds the object unless there is one, and puts its slot in front. */
    method CreateIn(slot: Slot)
      requires Valid() && slot in slots
      modifies this, slots
      ensures Valid() && list == StepSlots(old(list), Create(slot))
    {
      if slot.initialized {
        return;
      }
      Add(slot);
      slot.initialized := true;
      ghost var before := list;
      list := [slot] + list;
      assert forall i :: 0 < i < |list| ==> list[i] == before[i - 1];
    }

    /** Makes the link before the `k`-th slot skip it. */
    method Unlink(previous: Slot?, slot: Slot, ghost k: nat)
      requires Valid() && k < |list| && slot == list[k] && previous == if k == 0 then null else list[k - 1]
      modifies this`head, slots`next
      ensures forall i :: 0 <= i < |Erase(list, k)| ==> Erase(list, k)[i] in slots
      ensures Follows(Erase(list, k))
    {
      if previous == null {
        head := slot.next;
      } else {
        previous.next := slot.next;
      }
      ghost var r := Erase(list, k);
      forall i | 0 <= i < |r|
        ensures r[i] in slots && r[i].next == At(r, i + 1)
      {
        var j := if i < k then i else i + 1;
        assert r[i] == list[j];
        assert j + 1 != k ==> r[i].next == old(list[j].next);
      }
    }

    /** Takes a slot off the links; false, where the original dies, if it is not there. */
    method Remove(slot: Slot) returns (found: bool)
      requires Valid() && slot in slots
      modifies this`head, slots`next
      ensures found <==> slot in list
      ensures forall i :: 0 <= i < |Without(list, slot)| ==> Without(list, slot)[i] in slots
      ensures Follows(Without(list, slot))
    {
      hide Without, Erase;
      var previous: Slot?, c: Slot? := null, head;
      ghost var k := 0;
      while c != null
        invariant k <= |list| && c == At(list, k)
        invariant previous == if k == 0 then null else list[k - 1]
        invariant forall j :: 0 <= j < k ==> list[j] != slot
        invariant unchanged(this) && unchanged(slots)
        decreases |list| - k
      {
        if c == slot {
          WithoutAt(list, slot, k);
          Unlink(previous, slot, k);
          return true;
        }
        previous := c;
        c := c.next;
        k := k + 1;
      }
      WithoutAt(list, slot, k);
      found := false;
    }

    /** Destroys the object, if there is one; never dies. */
    method ClearIn(slot: Slot) returns (alive: bool)
      requires Valid() && slot in slots
      modifies this, slots
      ensures alive && Valid() && list == StepSlots(old(list), Clear(slot))
    {
      if !slot.initialized {
        WithoutAt(list, slot, |list|);
        return true;
      }
      WithoutMembers(list, slot);
      alive := Remove(slot);
      list := Without(list, slot);
      slot.initialized := false;
    }

    /** The end of the thread: calls the destructors along the list, each initialised slot's once. */
    method ExecuteDestructorList() returns (destroyed: seq<Slot>)
      requires Valid()
      ensures destroyed == list && NoRepeats(destroyed)
      ensures forall s :: s in slots ==> (s in destroyed <==> s.initialized)
    {
      destroyed := [];
      var c := head;
      ghost var k := 0;
      while c != null
        invariant k <= |list| && c == At(list, k) && destroyed == list[..k]
        decreases |list| - k
      {
        destroyed := destroyed + [c];
        c := c.next;
        k := k + 1;
      }
      assert list[..k] == list;
    }
  }

  lemma WithoutMembers<T>(s: seq<T>, x: T)
    requires NoRepeats(s) && x in s
    ensures NoRepeats(Without(s, x)) && forall y :: y in Without(s, x) <==> y in s && y != x
  {
    var i :| 0 <= i < |s| && s[i] == x;
    WithoutAt(s, x, i);
    StillNoRepeats(s, i);
    forall y
      ensures y in Erase(s, i) <==> y in s && y != x
    {
      ErasedMember(s, i, y);
    }
  }

  lemma StillNoRepeats<T>(s: seq<T>, i: nat)
    requires NoRepeats(s) && i < |s|
    ensures NoRepeats(Erase(s, i))
  {
    var r := Erase(s, i);
    forall j, k | 0 <= j < k < |r|
      ensures r[j] != r[k]
    {
      var a, b := if j < i then j else j + 1, if k < i then k else k + 1;
      assert s[a] != s[b];
    }
  }

  lemma ErasedMember<T>(s: seq<T>, i: nat, y: T)
    requires NoRepeats(s) && i < |s|
    ensures y in Erase(s, i) <==> y in s && y != s[i]
  {
    var r := Erase(s, i);
    if y in s && y != s[i] {
      var j :| 0 <= j < |s| && s[j] == y;
      assert r[if j < i then j else j - 1] == y;
    }
    if y in r {
      var j :| 0 <= j < |r| && r[j] == y;
      var k := if j < i then j else j + 1;
      assert s[k] == y && k != i;
    }
  }
}
