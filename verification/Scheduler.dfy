/** The libuv scheduler as a transition system. Each action is one step that other
    threads can come between: the locked push, the send, the loop's wake-up, the test
    of the close flag, the locked swap, each task, the two halves of the destructor
    and the close callback. libuv is assumed to deliver at least one callback after a
    send, to coalesce sends, and to deliver none to a closing handle. */
module Scheduler {

  type Task = nat
  type Thread = nat

  const LOOP: Thread := 0

  datatype Loop = Idle | Woken | Checked | Running(batch: seq<Task>, next: nat)

  datatype Handle = Open | Closing | Freed

  datatype Owner = Alive | Destroying(onLoop: bool) | Destroyed

  /** `sending` holds the threads between their push and their send, `accepted` and
      `executed` the history, and `lateSend` whether a send used a freed handle. */
  datatype State = State(
    queue: seq<Task>, pending: bool, loop: Loop,
    closeRequested: bool, handle: Handle, owner: Owner, sending: set<Thread>,
    accepted: seq<Task>, executed: seq<Task>,
    closes: nat, frees: nat, lateSend: bool)

  const INITIAL := State([], false, Idle, false, Open, Alive, {}, [], [], 0, 0, false)

  datatype Action =
    | Push(thread: Thread, task: Task)
    | Send(thread: Thread)
    | Wake
    | Check
    | Swap
    | RunTask
    | Finish
    | BeginDestroy(onLoop: bool)
    | EndDestroy
    | CloseTick

  /** The loop thread is not inside `invoke` or the destructor. */
  predicate LoopFree(s: State) {
    LOOP !in s.sending && s.owner != Destroying(true)
  }

  /** User code runs on the loop thread inside a task or between callbacks. */
  predicate LoopRunsUserCode(s: State) {
    s.loop.Idle? || s.loop.Running?
  }

  predicate Enabled(s: State, a: Action) {
    match a
    case Push(t, _) => s.owner.Alive? && t !in s.sending && (t == LOOP ==> LoopRunsUserCode(s))
    case Send(t) => t in s.sending
    case Wake => s.loop.Idle? && s.pending && s.handle.Open? && LoopFree(s)
    case Check => s.loop.Woken?
    case Swap => s.loop.Checked?
    case RunTask => s.loop.Running? && s.loop.next < |s.loop.batch| && LoopFree(s)
    case Finish => s.loop.Running? && s.loop.next >= |s.loop.batch| && LoopFree(s)
    case BeginDestroy(onLoop) => s.owner.Alive? && s.sending == {} && (onLoop ==> LoopRunsUserCode(s))
    case EndDestroy => s.owner.Destroying?
    case CloseTick => s.loop.Idle? && s.handle.Closing? && LoopFree(s)
  }

  /** `uv_async_send`. */
  function Signal(s: State): State {
    if s.handle.Freed? then s.(lateSend := true) else s.(pending := true)
  }

  function Apply(s: State, a: Action): State
    requires Enabled(s, a)
  {
    match a
    case Push(t, task) => s.(queue := s.queue + [task], accepted := s.accepted + [task], sending := s.sending + {t})
    case Send(t) => Signal(s.(sending := s.sending - {t}))
    case Wake => s.(pending := false, loop := Woken)
    case Check =>
      if s.closeRequested then s.(handle := Closing, closes := s.closes + 1, loop := Idle) else s.(loop := Checked)
    case Swap => s.(loop := Running(s.queue, 0), queue := [])
    case RunTask =>
      s.(executed := s.executed + [s.loop.batch[s.loop.next]], loop := Running(s.loop.batch, s.loop.next + 1))
    case Finish => s.(loop := Idle)
    case BeginDestroy(onLoop) => s.(closeRequested := true, owner := Destroying(onLoop))
    case EndDestroy => Signal(s.(owner := Destroyed))
    case CloseTick => s.(handle := Freed, frees := s.frees + 1)
  }

  predicate ValidRun(s: State, run: seq<Action>)
    decreases |run|
  {
    run != [] ==> Enabled(s, run[0]) && ValidRun(Apply(s, run[0]), run[1..])
  }

  function After(s: State, run: seq<Action>): State
    requires ValidRun(s, run)
    decreases |run|
  {
    if run == [] then s else After(Apply(s, run[0]), run[1..])
  }

  /** What is left of the batch the loop is running. */
  function Remaining(s: State): seq<Task> {
    if s.loop.Running? && s.loop.next <= |s.loop.batch| then s.loop.batch[s.loop.next..] else []
  }

  /** Tasks run once each, in the order of the locked pushes. */
  predicate InOrder(s: State) {
    && (s.loop.Running? ==> s.loop.next <= |s.loop.batch|)
    && s.executed + Remaining(s) + s.queue == s.accepted
  }

  /** A waiting task has a wake-up pending, or the loop is between wake-up and swap,
      or a producer is between its push and its send. */
  predicate NoLostWakeup(s: State) {
    s.handle.Open? && s.queue != [] ==> s.pending || s.loop.Woken? || s.loop.Checked? || s.sending != {}
  }

  /** A completed destructor has a wake-up that will find the close flag set. */
  predicate NoLostClose(s: State) {
    s.owner.Destroyed? && s.handle.Open? ==> s.pending || s.loop.Woken?
  }

  predicate ClosedOnce(s: State) {
    && s.closes == (if s.handle.Open? then 0 else 1)
    && s.frees == (if s.handle.Freed? then 1 else 0)
    && (!s.handle.Open? ==> s.loop.Idle? && s.closeRequested)
  }

  predicate Lifetime(s: State) {
    && (s.closeRequested <==> !s.owner.Alive?)
    && (!s.owner.Alive? ==> s.sending == {})
    && (s.owner == Destroying(true) ==> s.handle.Open? && LoopRunsUserCode(s))
    && (s.lateSend ==> s.owner.Destroyed?)
  }

  predicate Inv(s: State) {
    InOrder(s) && NoLostWakeup(s) && NoLostClose(s) && ClosedOnce(s) && Lifetime(s)
  }

  /** Moving the boundaries between what has run, what is running and what waits. */
  lemma SameOrder(executed: seq<Task>, batch: seq<Task>, next: nat, queue: seq<Task>, task: Task)
    requires next <= |batch|
    ensures executed + batch[next..] + (queue + [task]) == executed + batch[next..] + queue + [task]
    ensures executed + queue[0..] + [] == executed + [] + queue
    ensures batch[|batch|..] == []
    ensures next < |batch| ==>
      executed + [batch[next]] + batch[next + 1..] + queue == executed + batch[next..] + queue
  {
    if next < |batch| {
      assert batch[next..] == [batch[next]] + batch[next + 1..];
    }
  }

  lemma StepKeepsOrder(s: State, a: Action)
    requires InOrder(s) && Enabled(s, a)
    ensures InOrder(Apply(s, a))
  {
    var batch, next := if s.loop.Running? then s.loop.batch else [], if s.loop.Running? then s.loop.next else 0;
    assert Remaining(s) == batch[next..];
    SameOrder(s.executed, batch, next, s.queue, if a.Push? then a.task else 0);
  }

  lemma StepKeepsWakeup(s: State, a: Action)
    requires NoLostWakeup(s) && Enabled(s, a)
    ensures NoLostWakeup(Apply(s, a))
  {
    if a.Push? {
      assert a.thread in Apply(s, a).sending;
    }
  }

  lemma StepKeepsClose(s: State, a: Action)
    requires NoLostClose(s) && Lifetime(s) && Enabled(s, a)
    ensures NoLostClose(Apply(s, a))
  {
  }

  lemma StepClosesOnce(s: State, a: Action)
    requires ClosedOnce(s) && Enabled(s, a)
    ensures ClosedOnce(Apply(s, a))
  {
  }

  lemma StepKeepsLifetime(s: State, a: Action)
    requires Lifetime(s) && ClosedOnce(s) && Enabled(s, a)
    ensures Lifetime(Apply(s, a))
  {
  }

  lemma StepKeepsInv(s: State, a: Action)
    requires Inv(s) && Enabled(s, a)
    ensures Inv(Apply(s, a))
  {
    StepKeepsOrder(s, a);
    StepKeepsWakeup(s, a);
    StepKeepsClose(s, a);
    StepClosesOnce(s, a);
    StepKeepsLifetime(s, a);
  }

  /** Over every interleaving from a new scheduler: order and exactly-once, no lost
      wake-up, no lost close, at most one close and one free. */
  lemma {:induction false} EveryRunKeepsInv(s: State, run: seq<Action>)
    requires Inv(s) && ValidRun(s, run)
    ensures Inv(After(s, run))
    decreases |run|
  {
    if run != [] {
      StepKeepsInv(s, run[0]);
      EveryRunKeepsInv(Apply(s, run[0]), run[1..]);
    }
  }

  ghost predicate Reachable(s: State) {
    exists run :: ValidRun(INITIAL, run) && After(INITIAL, run) == s
  }

  lemma ReachableStates(s: State)
    requires Reachable(s)
    ensures Inv(s)
  {
    var run :| ValidRun(INITIAL, run) && After(INITIAL, run) == s;
    EveryRunKeepsInv(INITIAL, run);
  }

  /** Once the handle is closing, no task runs any more, whatever happens next. */
  lemma {:induction false} NothingRunsAfterClose(s: State, run: seq<Action>)
    requires Inv(s) && !s.handle.Open? && ValidRun(s, run)
    ensures var t := After(s, run); t.executed == s.executed && t.queue == s.queue && !t.handle.Open?
    decreases |run|
  {
    if run != [] {
      StepKeepsInv(s, run[0]);
      NothingRunsAfterClose(Apply(s, run[0]), run[1..]);
    }
  }

  /** At the start of a destructor, no wake-up is on its way that the loop could
      still act on before the destructor's own send. */
  predicate Quiet(s: State) {
    !s.pending && !s.loop.Woken?
  }

  /** Whatever interleaving follows, no send reaches a freed handle. */
  ghost predicate SafeToDestroy(s: State, onLoop: bool)
    requires Enabled(s, BeginDestroy(onLoop))
  {
    forall run :: ValidRun(s, [BeginDestroy(onLoop)] + run) ==> !After(s, [BeginDestroy(onLoop)] + run).lateSend
  }

  lemma {:induction false} SafeOnceSent(s: State, run: seq<Action>)
    requires Inv(s) && s.owner.Destroyed? && !s.lateSend && ValidRun(s, run)
    ensures !After(s, run).lateSend
    decreases |run|
  {
    if run != [] {
      StepKeepsInv(s, run[0]);
      SafeOnceSent(Apply(s, run[0]), run[1..]);
    }
  }

  /** A destructor under way keeps the handle open if it runs on the loop, or if the
      loop had nothing left to act on. */
  lemma {:induction false} SafeUntilSent(s: State, run: seq<Action>)
    requires Inv(s) && s.owner.Destroying? && s.handle.Open? && (s.owner.onLoop || Quiet(s)) && ValidRun(s, run)
    ensures !After(s, run).lateSend
    decreases |run|
  {
    if run != [] {
      StepKeepsInv(s, run[0]);
      if run[0].EndDestroy? {
        SafeOnceSent(Apply(s, run[0]), run[1..]);
      } else {
        SafeUntilSent(Apply(s, run[0]), run[1..]);
      }
    }
  }

  /** The loop finishes what it is doing, acts on the stale wake-up, closes and frees
      the handle, all before the destructor's send. */
  ghost function OvertakingRun(s: State): (run: seq<Action>)
    requires Inv(s) && s.owner == Destroying(false) && s.handle.Open? && !Quiet(s)
    ensures ValidRun(s, run) && After(s, run).lateSend
    decreases match s.loop case Checked => |s.queue| + 3 case Running(b, n) => |b| - n + 2 case Idle => 1 case Woken => 0
  {
    if s.loop.Woken? then
      [Check, CloseTick, EndDestroy]
    else
      var a := if s.loop.Checked? then Swap
               else if s.loop.Idle? then Wake
               else if s.loop.next < |s.loop.batch| then RunTask else Finish;
      StepKeepsInv(s, a);
      [a] + OvertakingRun(Apply(s, a))
  }

  /** When the destructor is safe: on the loop thread always, and on another thread
      exactly when no earlier wake-up is outstanding at its start. */
  lemma DestructorSafety(s: State, onLoop: bool)
    requires Inv(s) && Enabled(s, BeginDestroy(onLoop))
    ensures SafeToDestroy(s, onLoop) <==> onLoop || Quiet(s)
  {
    var begin := [BeginDestroy(onLoop)];
    var t := Apply(s, begin[0]);
    StepKeepsInv(s, begin[0]);
    if onLoop || Quiet(s) {
      forall run | ValidRun(s, begin + run) ensures !After(s, begin + run).lateSend {
        assert (begin + run)[1..] == run;
        SafeUntilSent(t, run);
      }
    } else {
      var run := OvertakingRun(t);
      assert (begin + run)[1..] == run;
      assert After(s, begin + run).lateSend;
    }
  }

  /** A send comes after the close callback. */
  predicate SendsToFreed(freed: bool, run: seq<Action>)
    decreases |run|
  {
    run != [] && ((freed && (run[0].Send? || run[0].EndDestroy?)) || SendsToFreed(freed || run[0].CloseTick?, run[1..]))
  }

  /** A send goes wrong exactly if it comes after the close callback; between the close and
      its callback it does no harm. */
  lemma {:induction false} LateSends(s: State, run: seq<Action>)
    requires Inv(s) && ValidRun(s, run)
    ensures After(s, run).lateSend <==> s.lateSend || SendsToFreed(s.handle.Freed?, run)
    decreases |run|
  {
    if run != [] {
      StepKeepsInv(s, run[0]);
      LateSends(Apply(s, run[0]), run[1..]);
    }
  }

  /** How much the loop still has to do after a completed destructor. */
  function CloseWork(s: State): nat {
    match s.handle
    case Freed => 0
    case Closing => 1
    case Open =>
      match s.loop
      case Woken => 2
      case Idle => 3
      case Running(b, n) => if n <= |b| then 4 + |b| - n else 4
      case Checked => 5 + |s.queue|
  }

  /** The deferred close always completes: after the destructor only the loop can move,
      every move shortens the way, and it can move until the handle is freed. */
  lemma {:induction false} DeferredCloseCompletes(s: State, run: seq<Action>)
    requires Inv(s) && s.owner.Destroyed? && ValidRun(s, run)
    ensures |run| <= CloseWork(s)
    ensures (forall a :: !Enabled(After(s, run), a)) ==> After(s, run).handle.Freed?
    decreases |run|
  {
    if run == [] {
      if !s.handle.Freed? {
        var a := match s.loop
          case Idle => if s.handle.Open? then Wake else CloseTick
          case Woken => Check
          case Checked => Swap
          case Running(b, n) => if n < |b| then RunTask else Finish;
        assert Enabled(s, a);
      }
    } else {
      StepKeepsInv(s, run[0]);
      assert CloseWork(Apply(s, run[0])) < CloseWork(s);
      DeferredCloseCompletes(Apply(s, run[0]), run[1..]);
    }
  }

  predicate OnlyLoop(run: seq<Action>) {
    forall a :: a in run ==> a.Wake? || a.Check? || a.Swap? || a.RunTask? || a.Finish?
  }

  function DrainWork(s: State): nat {
    (if s.pending then |s.queue| + 5 else 0) +
    match s.loop
    case Idle => 0
    case Woken => 3 + |s.queue|
    case Checked => 2 + |s.queue|
    case Running(b, n) => if n <= |b| then 1 + |b| - n else 1
  }

  /** Before close, once the producers have sent their wake-ups, the loop left to
      itself stops only when every accepted task has run. */
  lemma {:induction false} NoTaskIsLost(s: State, run: seq<Action>)
    requires Inv(s) && s.owner.Alive? && s.sending == {} && ValidRun(s, run) && OnlyLoop(run)
    ensures |run| <= DrainWork(s)
    ensures var t := After(s, run);
      (forall a :: Enabled(t, a) ==> !OnlyLoop([a])) ==> t.executed == t.accepted == s.accepted && t.queue == []
    decreases |run|
  {
    if run == [] {
      if s.loop.Idle? && !s.pending {
        assert s.executed + [] + [] == s.executed;
      } else {
        var a := match s.loop
          case Idle => Wake
          case Woken => Check
          case Checked => Swap
          case Running(b, n) => if n < |b| then RunTask else Finish;
        assert Enabled(s, a) && OnlyLoop([a]);
      }
    } else {
      assert run[0] in run;
      StepKeepsInv(s, run[0]);
      assert DrainWork(Apply(s, run[0])) < DrainWork(s);
      assert forall a :: a in run[1..] ==> a in run;
      NoTaskIsLost(Apply(s, run[0]), run[1..]);
    }
  }
}
