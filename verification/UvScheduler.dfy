/** The scheduler object. Each method, left uninterrupted, is a run of the transition
    system of `Scheduler`, so what is proved there about every interleaving is about
    these very steps. */
module UvScheduler {
  import opened Scheduler

  /** The steps of a callback, from the test of the flag, with `n` tasks to run. */
  function TaskSteps(n: nat): seq<Action> {
    if n == 0 then [Finish] else [RunTask] + TaskSteps(n - 1)
  }

  function Callback(n: nat): seq<Action> {
    [Wake] + ([Check] + ([Swap] + TaskSteps(n)))
  }

  lemma FirstStep(s: State, a: Action, run: seq<Action>)
    requires Enabled(s, a) && ValidRun(Apply(s, a), run)
    ensures ValidRun(s, [a] + run) && After(s, [a] + run) == After(Apply(s, a), run)
  {
    assert ([a] + run)[1..] == run;
  }

  lemma TwoSteps(s: State, a: Action, b: Action)
    requires Enabled(s, a) && Enabled(Apply(s, a), b)
    ensures ValidRun(s, [a, b]) && After(s, [a, b]) == Apply(Apply(s, a), b)
  {
    FirstStep(Apply(s, a), b, []);
    FirstStep(s, a, [b]);
    assert [a] + [b] == [a, b] && [b] + [] == [b];
  }

  lemma {:induction false} BatchRun(s: State, n: nat)
    requires s.loop.Running? && s.loop.next + n == |s.loop.batch| && LoopFree(s)
    ensures ValidRun(s, TaskSteps(n))
    ensures After(s, TaskSteps(n)) == s.(loop := Idle, executed := s.executed + s.loop.batch[s.loop.next..])
    decreases n
  {
    if n == 0 {
      FirstStep(s, Finish, []);
      assert s.executed + s.loop.batch[s.loop.next..] == s.executed;
    } else {
      BatchRun(Apply(s, RunTask), n - 1);
      FirstStep(s, RunTask, TaskSteps(n - 1));
      OneTaskOn(s.executed, s.loop.batch, s.loop.next);
    }
  }

  lemma OneTaskOn(executed: seq<Task>, batch: seq<Task>, next: nat)
    requires next < |batch|
    ensures executed + [batch[next]] + batch[next + 1..] == executed + batch[next..]
  {
    assert batch[next..] == [batch[next]] + batch[next + 1..];
  }

  /** A callback nobody interrupts runs the whole queue and leaves the loop idle. */
  lemma CallbackRun(s: State)
    requires Enabled(s, Wake) && !s.closeRequested
    ensures ValidRun(s, Callback(|s.queue|))
    ensures After(s, Callback(|s.queue|))
            == s.(pending := false, loop := Idle, queue := [], executed := s.executed + s.queue)
  {
    var woken := Apply(s, Wake);
    var checked := Apply(woken, Check);
    var running := Apply(checked, Swap);
    var n := |s.queue|;
    BatchRun(running, n);
    FirstStep(checked, Swap, TaskSteps(n));
    FirstStep(woken, Check, [Swap] + TaskSteps(n));
    FirstStep(s, Wake, [Check] + ([Swap] + TaskSteps(n)));
  }

  // ----- what can happen -----

  datatype Invocation = Invocation(thread: Thread, task: Task)

  function Tasks(invocations: seq<Invocation>): seq<Task> {
    seq(|invocations|, i requires 0 <= i < |invocations| => invocations[i].task)
  }

  function InvokeSteps(invocations: seq<Invocation>): seq<Action> {
    if invocations == [] then []
    else
      var i := invocations[0];
      [Push(i.thread, i.task)] + ([Send(i.thread)] + InvokeSteps(invocations[1..]))
  }

  /** Nothing is under way, and nobody has asked for the end. */
  predicate AtRest(s: State) {
    s.loop.Idle? && s.handle.Open? && s.owner.Alive? && s.sending == {} && !s.closeRequested
  }

  lemma {:induction false} InvokesRun(s: State, invocations: seq<Invocation>)
    requires AtRest(s)
    ensures ValidRun(s, InvokeSteps(invocations))
    ensures After(s, InvokeSteps(invocations))
            == s.(queue := s.queue + Tasks(invocations), accepted := s.accepted + Tasks(invocations),
                  pending := s.pending || invocations != [])
    decreases |invocations|
  {
    if invocations == [] {
      assert s.queue + Tasks(invocations) == s.queue && s.accepted + Tasks(invocations) == s.accepted;
    } else {
      var i, rest := invocations[0], invocations[1..];
      var pushed := Apply(s, Push(i.thread, i.task));
      var sent := Apply(pushed, Send(i.thread));
      assert sent == s.(queue := s.queue + [i.task], accepted := s.accepted + [i.task], pending := true);
      InvokesRun(sent, rest);
      FirstStep(pushed, Send(i.thread), InvokeSteps(rest));
      FirstStep(s, Push(i.thread, i.task), [Send(i.thread)] + InvokeSteps(rest));
      assert Tasks(invocations) == [i.task] + Tasks(rest);
      assert s.queue + [i.task] + Tasks(rest) == s.queue + Tasks(invocations);
      assert s.accepted + [i.task] + Tasks(rest) == s.accepted + Tasks(invocations);
    }
  }

  /** Whatever is invoked, from whatever threads, one callback later it has run in order. */
  lemma InvokedTasksCanRun(s: State, invocations: seq<Invocation>)
    requires AtRest(s) && invocations != []
    ensures var queued := s.queue + Tasks(invocations); var run := InvokeSteps(invocations) + Callback(|queued|);
      ValidRun(s, run)
      && After(s, run) == s.(queue := [], accepted := s.accepted + Tasks(invocations),
                             executed := s.executed + queued, pending := false)
  {
    InvokesRun(s, invocations);
    var t := After(s, InvokeSteps(invocations));
    CallbackRun(t);
    RunOn(s, InvokeSteps(invocations), Callback(|t.queue|));
  }

  lemma {:induction false} RunOn(s: State, run: seq<Action>, more: seq<Action>)
    requires ValidRun(s, run) && ValidRun(After(s, run), more)
    ensures ValidRun(s, run + more) && After(s, run + more) == After(After(s, run), more)
    decreases |run|
  {
    if run == [] {
      assert run + more == more;
    } else {
      assert (run + more)[1..] == run[1..] + more;
      RunOn(Apply(s, run[0]), run[1..], more);
    }
  }

  /** A scheduler at rest can be destroyed from any thread, and its handle is freed then. */
  lemma CanBeDestroyed(s: State, onLoop: bool)
    requires AtRest(s)
    ensures var run := [BeginDestroy(onLoop), EndDestroy] + [Wake, Check] + [CloseTick];
      ValidRun(s, run)
      && After(s, run) == s.(closeRequested := true, owner := Destroyed, pending := false, handle := Freed,
                             closes := s.closes + 1, frees := s.frees + 1)
  {
    TwoSteps(s, BeginDestroy(onLoop), EndDestroy);
    var t := Apply(Apply(s, BeginDestroy(onLoop)), EndDestroy);
    TwoSteps(t, Wake, Check);
    RunOn(s, [BeginDestroy(onLoop), EndDestroy], [Wake, Check]);
    var u := Apply(Apply(t, Wake), Check);
    FirstStep(u, CloseTick, []);
    assert [CloseTick] + [] == [CloseTick];
    RunOn(s, [BeginDestroy(onLoop), EndDestroy] + [Wake, Check], [CloseTick]);
  }

  /** Producers never wait for the loop: in every state of a living scheduler a thread can
      go on with its `invoke`, or begin one, wherever the loop is. */
  lemma ProducersNeverWait(s: State, t: Thread, task: Task)
    requires s.owner.Alive? && t != LOOP
    ensures t in s.sending ==> Enabled(s, Send(t)) && t !in Apply(s, Send(t)).sending
    ensures t !in s.sending ==> Enabled(s, Push(t, task)) && Enabled(Apply(s, Push(t, task)), Send(t))
  {
  }

  class UvScheduler {
    var functions: seq<Task>
    var closeRequested: bool
    var asyncPending: bool
    var handle: Handle
    var loop: Loop
    var owner: Owner
    ghost var sending: set<Thread>
    ghost var accepted: seq<Task>
    var executed: seq<Task>
    ghost var closes: nat
    ghost var frees: nat
    ghost var lateSend: bool

    ghost function View(): State
      reads this
    {
      State(functions, asyncPending, loop, closeRequested, handle, owner, sending, accepted, executed, closes, frees, lateSend)
    }

    constructor ()
      ensures View() == INITIAL
    {
      functions, closeRequested, asyncPending, handle, loop, owner := [], false, false, Open, Idle, Alive;
      sending, accepted, executed, closes, frees, lateSend := {}, [], [], 0, 0, false;
    }

    method AsyncSend()
      modifies this`asyncPending, this`lateSend
      ensures View() == Signal(old(View()))
    {
      if handle.Freed? {
        lateSend := true;
      } else {
        asyncPending := true;
      }
    }

    method Invoke(ghost thread: Thread, task: Task)
      requires Enabled(View(), Push(thread, task))
      modifies this
      ensures ValidRun(old(View()), [Push(thread, task), Send(thread)])
      ensures View() == After(old(View()), [Push(thread, task), Send(thread)])
      ensures functions == old(functions) + [task]
    {
      ghost var before := View();
      functions := functions + [task];
      accepted := accepted + [task];
      sending := sending + {thread};
      sending := sending - {thread};
      AsyncSend();
      TwoSteps(before, Push(thread, task), Send(thread));
    }

    /** The async callback: close if asked to, otherwise run everything queued at the swap. */
    method OnAsync()
      requires Enabled(View(), Wake)
      modifies this
      ensures var run := if old(closeRequested) then [Wake, Check] else Callback(|old(functions)|);
        ValidRun(old(View()), run) && View() == After(old(View()), run)
      ensures if old(closeRequested) then handle == Closing && executed == old(executed)
              else executed == old(executed + functions) && functions == [] && loop.Idle?
    {
      asyncPending, loop := false, Woken;
      if closeRequested {
        TwoSteps(old(View()), Wake, Check);
        handle, closes, loop := Closing, closes + 1, Idle;
        return;
      }
      loop := Checked;
      CallbackRun(old(View()));
      var batch := functions;
      functions, loop := [], Running(batch, 0);
      RunBatch(batch);
    }

    /** The loop of `invoke_all` over the batch it swapped out. */
    method RunBatch(batch: seq<Task>)
      requires loop == Running(batch, 0)
      modifies this`loop, this`executed
      ensures loop == Idle && executed == old(executed) + batch
    {
      for i := 0 to |batch|
        invariant loop == Running(batch, i) && executed == old(executed) + batch[..i]
      {
        executed := executed + [batch[i]];
        loop := Running(batch, i + 1);
      }
      loop := Idle;
      assert batch[..|batch|] == batch;
    }

    /** The destructor: ask for the close, wake the loop, and let go of the handle. */
    method Destroy(onLoop: bool)
      requires Inv(View()) && Enabled(View(), BeginDestroy(onLoop))
      modifies this
      ensures ValidRun(old(View()), [BeginDestroy(onLoop), EndDestroy])
      ensures View() == After(old(View()), [BeginDestroy(onLoop), EndDestroy])
      ensures Inv(View()) && owner.Destroyed? && handle.Open? && asyncPending && !lateSend
    {
      ghost var before := View();
      StepKeepsInv(before, BeginDestroy(onLoop));
      closeRequested, owner := true, Destroying(onLoop);
      assert Apply(before, BeginDestroy(onLoop)) == View();
      StepKeepsInv(View(), EndDestroy);
      owner := Destroyed;
      AsyncSend();
      TwoSteps(before, BeginDestroy(onLoop), EndDestroy);
    }

    /** The close callback frees the data and the handle. */
    method OnClosed()
      requires Inv(View()) && Enabled(View(), CloseTick)
      modifies this
      ensures View() == Apply(old(View()), CloseTick) && Inv(View())
      ensures handle.Freed? && frees == 1
    {
      StepKeepsInv(View(), CloseTick);
      handle, frees := Freed, frees + 1;
    }
  }
}
