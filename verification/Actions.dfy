/**
 The action queue: one action that is current and one that waits.  Actions are numbered in
 the order in which they are enqueued; whether the current one still runs is asked of it at
 each tick.
 */
module Actions {
  import opened Common

  datatype Operation = Enqueue | CancelCurrent | CancelAll | Tick(running: bool)

  datatype Event = Started(action: nat) | Cancelled(action: nat) | Done(action: nat)

  /** The queue, the number of actions enqueued so far and what was done to them. */
  datatype World = World(current: Option<nat>, next: Option<nat>, count: nat, log: seq<Event>)

  const EMPTY := World(None, None, 0, [])

  /** Tells the current action, if any, to stop. */
  function CancelIn(w: World): World {
    if w.current.None? then w else w.(log := w.log + [Cancelled(w.current.value)])
  }

  /** Makes an action current and starts it. */
  function StartIn(w: World, a: nat): World {
    w.(current := Some(a), next := None, log := w.log + [Started(a)])
  }

  function Step(w: World, op: Operation): World {
    match op
    case Enqueue =>
      if w.current.Some? then CancelIn(w).(next := Some(w.count), count := w.count + 1)
      else StartIn(w, w.count).(next := w.next, count := w.count + 1)
    case CancelCurrent => CancelIn(w)
    case CancelAll => CancelIn(w).(next := None)
    case Tick(running) =>
      if w.current.None? || running then w
      else
        var done := w.(log := w.log + [Done(w.current.value)]);
        if w.next.None? then done.(current := None) else StartIn(done, w.next.value)
  }

  function Run(w: World, ops: seq<Operation>): World {
    if ops == [] then w else Step(Run(w, ButLast(ops)), Last(ops))
  }

  // ----------------------------------------------------------------------------- safety

  /** The actions started, in order. */
  function Starts(log: seq<Event>): seq<nat> {
    if log == [] then []
    else Starts(ButLast(log)) + if Last(log).Started? then [Last(log).action] else []
  }

  /** Replays a log: `None` if an action started while another had not finished; else who runs. */
  function Replay(log: seq<Event>): Option<Option<nat>> {
    if log == [] then Some(None)
    else
      match (Replay(ButLast(log)), Last(log))
      case (Some(None), Started(a)) => Some(Some(a))
      case (Some(Some(b)), Done(a)) => if a == b then Some(None) else None
      case (Some(r), Cancelled(a)) => if r == Some(a) then Some(r) else None
      case (_, _) => None
  }

  predicate Increasing(s: seq<nat>) {
    forall i, j :: 0 <= i < j < |s| ==> s[i] < s[j]
  }

  predicate Below(s: seq<nat>, n: nat) {
    forall i :: 0 <= i < |s| ==> s[i] < n
  }

  /** What holds after every run. */
  predicate Good(w: World) {
    && Replay(w.log) == Some(w.current)
    && Increasing(Starts(w.log)) && Below(Starts(w.log), w.count)
    && (w.next.Some? ==> w.current.Some? && Cancelled(w.current.value) in w.log && w.next.value == w.count - 1)
    && (w.next.Some? ==> Below(Starts(w.log), w.next.value))
    && (w.current.Some? ==> w.current.value in Starts(w.log))
  }

  lemma LogMore(log: seq<Event>, e: Event)
    ensures Starts(log + [e]) == Starts(log) + if e.Started? then [e.action] else []
    ensures ButLast(log + [e]) == log && Last(log + [e]) == e
  {
    assert ButLast(log + [e]) == log;
  }

  lemma StartsMore(s: seq<nat>, a: nat)
    requires Increasing(s) && Below(s, a)
    ensures Increasing(s + [a]) && Below(s + [a], a + 1)
  {
  }

  lemma CancelGood(w: World)
    requires Good(w)
    ensures Good(CancelIn(w)) && Starts(CancelIn(w).log) == Starts(w.log)
    ensures w.current.Some? ==> Cancelled(w.current.value) in CancelIn(w).log
  {
    if w.current.Some? {
      var e := Cancelled(w.current.value);
      LogMore(w.log, e);
      assert Starts(w.log) + [] == Starts(w.log);
      assert Last(w.log + [e]) == e;
    }
  }

  lemma StepGood(w: World, op: Operation)
    requires Good(w)
    ensures Good(Step(w, op))
  {
    match op
    case Enqueue =>
      if w.current.Some? {
        CancelGood(w);
      } else {
        LogMore(w.log, Started(w.count));
        StartsMore(Starts(w.log), w.count);
      }
    case CancelCurrent => CancelGood(w);
    case CancelAll => CancelGood(w);
    case Tick(running) =>
      if w.current.Some? && !running {
        TickGood(w);
      }
  }

  lemma TickGood(w: World)
    requires Good(w) && w.current.Some?
    ensures Good(Step(w, Tick(false)))
    ensures Starts(Step(w, Tick(false)).log) == Starts(w.log) + if w.next.Some? then [w.next.value] else []
  {
    var done := w.log + [Done(w.current.value)];
    LogMore(w.log, Done(w.current.value));
    assert Starts(done) == Starts(w.log);
    if w.next.Some? {
      LogMore(done, Started(w.next.value));
      StartsMore(Starts(w.log), w.next.value);
      assert Last(Starts(w.log) + [w.next.value]) == w.next.value;
    }
  }

  /**
   After every run: an action starts only when no other is current, each starts at most
   once and in the order of enqueueing, and an action waits only behind a current one that
   has been told to stop, and is then the latest one enqueued.
   */
  lemma {:induction false} AlwaysGood(ops: seq<Operation>)
    ensures Good(Run(EMPTY, ops))
    decreases |ops|
  {
    if ops != [] {
      AlwaysGood(ButLast(ops));
      StepGood(Run(EMPTY, ButLast(ops)), Last(ops));
    }
  }

  lemma {:induction false} RunGood(w: World, ops: seq<Operation>)
    requires Good(w)
    ensures Good(Run(w, ops))
    decreases |ops|
  {
    if ops != [] {
      RunGood(w, ButLast(ops));
      StepGood(Run(w, ButLast(ops)), Last(ops));
    }
  }

  // ---------------------------------------------------------------------- what can start

  /** What a step adds to the started actions. */
  function NewStart(w: World, op: Operation): seq<nat> {
    if op.Enqueue? && w.current.None? then [w.count]
    else if op == Tick(false) && w.current.Some? && w.next.Some? then [w.next.value]
    else []
  }

  lemma StepStarts(w: World, op: Operation)
    requires Good(w)
    ensures Starts(Step(w, op).log) == Starts(w.log) + NewStart(w, op)
  {
    match op
    case Enqueue =>
      if w.current.Some? {
        CancelGood(w);
      } else {
        LogMore(w.log, Started(w.count));
      }
    case CancelCurrent => CancelGood(w);
    case CancelAll => CancelGood(w);
    case Tick(running) =>
      if w.current.Some? && !running {
        TickGood(w);
      }
  }

  /** An operation after which a waiting action does not wait any more without having started. */
  predicate Drops(op: Operation) {
    op.Enqueue? || op.CancelAll?
  }

  /** The run reaches the end of the current action before anything drops the waiting one. */
  predicate Reaches(ops: seq<Operation>) {
    exists k :: 0 <= k < |ops| && ops[k] == Tick(false) && forall j :: 0 <= j < k ==> !Drops(ops[j])
  }

  predicate NoDrop(ops: seq<Operation>) {
    forall j :: 0 <= j < |ops| ==> !Drops(ops[j])
  }

  lemma ReachesMore(ops: seq<Operation>)
    requires ops != []
    ensures Reaches(ops) <==> Reaches(ButLast(ops)) || (Last(ops) == Tick(false) && NoDrop(ButLast(ops)))
  {
    var front := ButLast(ops);
    assert forall j :: 0 <= j < |front| ==> front[j] == ops[j];
    if Reaches(front) {
      var k :| 0 <= k < |front| && front[k] == Tick(false) && forall j :: 0 <= j < k ==> !Drops(front[j]);
      assert ops[k] == Tick(false);
    }
    if Last(ops) == Tick(false) && NoDrop(front) {
      assert ops[|ops| - 1] == Tick(false);
    }
    if Reaches(ops) {
      var k :| 0 <= k < |ops| && ops[k] == Tick(false) && forall j :: 0 <= j < k ==> !Drops(ops[j]);
      if k < |front| {
        assert front[k] == Tick(false);
      }
    }
  }

  /**
   A waiting action starts in a run exactly if the current action is found finished before
   another action is enqueued and before everything is cancelled.
   */
  lemma {:induction false} WaitingStarts(w: World, ops: seq<Operation>)
    requires Good(w) && w.next.Some?
    ensures w.next.value in Starts(Run(w, ops).log) <==> Reaches(ops)
    ensures Run(w, ops).next == w.next <==> NoDrop(ops) && !Reaches(ops)
    ensures Run(w, ops).count >= w.count
    decreases |ops|
  {
    if ops != [] {
      hide Starts, Reaches, NoDrop, Good, Step;
      WaitingStarts(w, ButLast(ops));
      RunGood(w, ButLast(ops));
      WaitStep(w.next.value, Run(w, ButLast(ops)), Last(ops));
      assert w.next.value < w.count by {
        WaitingIsLatest(w);
      }
      ReachesMore(ops);
      NoDropMore(ops);
    }
  }

  lemma WaitingIsLatest(w: World)
    requires Good(w) && w.next.Some?
    ensures w.next.value < w.count && w.next.value !in Starts(w.log)
  {
  }

  /** What a step does to an action that has been enqueued. */
  lemma WaitStep(a: nat, v: World, op: Operation)
    requires Good(v) && a < v.count
    ensures a in Starts(Step(v, op).log) <==> a in Starts(v.log) || (op == Tick(false) && v.next == Some(a))
    ensures Step(v, op).next == Some(a) <==> v.next == Some(a) && !Drops(op) && op != Tick(false)
    ensures Step(v, op).count >= v.count
  {
    hide Starts;
    StepStarts(v, op);
  }

  lemma NoDropMore(ops: seq<Operation>)
    requires ops != []
    ensures NoDrop(ops) <==> NoDrop(ButLast(ops)) && !Drops(Last(ops))
  {
    var front := ButLast(ops);
    assert forall j :: 0 <= j < |front| ==> front[j] == ops[j];
    assert ops == front + [Last(ops)];
  }

  /** Nothing else that was enqueued before starts any more. */
  predicate Later(w: World, s: seq<nat>) {
    forall i :: 0 <= i < |s| ==> w.next == Some(s[i]) || s[i] >= w.count
  }

  lemma LaterMore(w: World, s: seq<nat>, t: seq<nat>)
    requires Later(w, s) && Later(w, t)
    ensures Later(w, s + t)
  {
  }

  /** Nothing enqueued before, except what waited then, is waiting. */
  predicate After(w: World, v: World) {
    v.count >= w.count && (v.next.Some? ==> v.next == w.next || v.next.value >= w.count)
  }

  lemma StepAfter(w: World, v: World, op: Operation)
    requires After(w, v)
    ensures After(w, Step(v, op)) && Later(w, NewStart(v, op))
  {
  }

  lemma {:induction false} RunAfter(w: World, ops: seq<Operation>)
    ensures After(w, Run(w, ops))
    decreases |ops|
  {
    if ops != [] {
      RunAfter(w, ButLast(ops));
      StepAfter(w, Run(w, ButLast(ops)), Last(ops));
    }
  }

  /**
   From any moment on, the only actions to start are the one that waits and those still to
   be enqueued: what was replaced or cleared never starts.
   */
  lemma {:induction false} OnlyLaterStart(w: World, ops: seq<Operation>) returns (later: seq<nat>)
    requires Good(w)
    ensures Starts(Run(w, ops).log) == Starts(w.log) + later && Later(w, later)
    decreases |ops|
  {
    if ops == [] {
      later := [];
      assert Starts(w.log) + [] == Starts(w.log);
    } else {
      var before, op := Run(w, ButLast(ops)), Last(ops);
      var first := OnlyLaterStart(w, ButLast(ops));
      RunGood(w, ButLast(ops));
      RunAfter(w, ButLast(ops));
      StepStarts(before, op);
      StepAfter(w, before, op);
      var more := NewStart(before, op);
      later := first + more;
      LaterMore(w, first, more);
      ConcatAssoc(Starts(w.log), first, more);
    }
  }

  // -------------------------------------------------------------------------- the queue

  class ActionQueue {
    var current: Option<nat>
    var next: Option<nat>
    // The actions enqueued and everything told to them since the queue was made.
    ghost var world: World

    ghost predicate Valid()
      reads this
    {
      Good(world) && world.current == current && world.next == next
    }

    constructor ()
      ensures Valid() && world == EMPTY
    {
      current, next, world := None, None, EMPTY;
    }

    method EnqueueAction(action: nat)
      requires Valid() && action == world.count
      modifies this
      ensures Valid() && world == Step(old(world), Enqueue)
    {
      StepGood(world, Enqueue);
      if current.Some? {
        Tell(Cancelled(current.value));
        next := Some(action);
      } else {
        current := Some(action);
        Tell(Started(action));
      }
      world := world.(current := current, next := next, count := world.count + 1);
    }

    method CancelCurrentAction()
      requires Valid()
      modifies this
      ensures Valid() && world == Step(old(world), CancelCurrent)
    {
      StepGood(world, CancelCurrent);
      if current.Some? {
        Tell(Cancelled(current.value));
      }
    }

    method CancelAllActions()
      requires Valid()
      modifies this
      ensures Valid() && world == Step(old(world), CancelAll)
    {
      StepGood(world, CancelAll);
      if current.Some? {
        Tell(Cancelled(current.value));
      }
      next := None;
      world := world.(next := None);
    }

    /** `running` is the current action's answer. */
    method DoTick(running: bool)
      requires Valid()
      modifies this
      ensures Valid() && world == Step(old(world), Tick(running))
    {
      StepGood(world, Tick(running));
      if current.Some? {
        if !running {
          Tell(Done(current.value));
          current := next;
          next := None;
          if current.Some? {
            Tell(Started(current.value));
          }
          world := world.(current := current, next := next);
        }
      }
    }

    /** Records what an action is told. */
    ghost method Tell(e: Event)
      modifies this`world
      ensures world == old(world).(log := old(world).log + [e])
    {
      world := world.(log := world.log + [e]);
    }
  }
}
