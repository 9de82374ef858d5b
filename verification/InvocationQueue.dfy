/** Running a queue whose tasks push further tasks. A task is identified by `id` and
    carries the tasks it will push when it runs. */
module InvocationQueue {
  import opened Options

  datatype Task = Task(id: nat, pushes: seq<Task>)

  function Ids(ts: seq<Task>): seq<nat> {
    seq(|ts|, i requires 0 <= i < |ts| => ts[i].id)
  }

  /** Everything a batch pushes, in the order it is pushed. */
  function Pushed(ts: seq<Task>): seq<Task> {
    if ts == [] then [] else ts[0].pushes + Pushed(ts[1..])
  }

  /** The number of tasks in a batch, counting those still to be pushed. */
  function Total(ts: seq<Task>): nat {
    if ts == [] then 0 else 1 + Total(ts[0].pushes) + Total(ts[1..])
  }

  /** Every task of a batch, each with its own descendants. */
  function Everything(ts: seq<Task>): multiset<nat> {
    if ts == [] then multiset{} else multiset{ts[0].id} + Everything(ts[0].pushes) + Everything(ts[1..])
  }

  lemma {:induction false} TotalOfConcat(a: seq<Task>, b: seq<Task>)
    ensures Total(a + b) == Total(a) + Total(b)
    decreases |a|
  {
    if a == [] {
      assert a + b == b;
    } else {
      assert (a + b)[1..] == a[1..] + b;
      TotalOfConcat(a[1..], b);
    }
  }

  lemma {:induction false} EverythingOfConcat(a: seq<Task>, b: seq<Task>)
    ensures Everything(a + b) == Everything(a) + Everything(b)
    decreases |a|
  {
    if a == [] {
      assert a + b == b;
    } else {
      assert (a + b)[1..] == a[1..] + b;
      EverythingOfConcat(a[1..], b);
    }
  }

  lemma {:induction false} PushedOfConcat(a: seq<Task>, b: seq<Task>)
    ensures Pushed(a + b) == Pushed(a) + Pushed(b)
    decreases |a|
  {
    if a == [] {
      assert a + b == b;
    } else {
      assert (a + b)[1..] == a[1..] + b;
      PushedOfConcat(a[1..], b);
    }
  }

  lemma IdsOfRest(ts: seq<Task>)
    requires ts != []
    ensures Ids(ts) == [ts[0].id] + Ids(ts[1..]) && multiset(Ids(ts)) == multiset{ts[0].id} + multiset(Ids(ts[1..]))
  {
    assert Ids(ts) == [ts[0].id] + Ids(ts[1..]);
  }

  lemma {:induction false} TickTotal(ts: seq<Task>)
    ensures Total(ts) == |ts| + Total(Pushed(ts))
    decreases |ts|
  {
    if ts != [] {
      TickTotal(ts[1..]);
      TotalOfConcat(ts[0].pushes, Pushed(ts[1..]));
    }
  }

  lemma {:induction false} TickEverything(ts: seq<Task>)
    ensures Everything(ts) == multiset(Ids(ts)) + Everything(Pushed(ts))
    decreases |ts|
  {
    if ts != [] {
      TickEverything(ts[1..]);
      EverythingOfConcat(ts[0].pushes, Pushed(ts[1..]));
      IdsOfRest(ts);
    }
  }

  /** A tick leaves one task fewer for each task it ran. */
  lemma TickWork(ts: seq<Task>)
    ensures Total(ts) == |ts| + Total(Pushed(ts))
    ensures Everything(ts) == multiset(Ids(ts)) + Everything(Pushed(ts))
  {
    TickTotal(ts);
    TickEverything(ts);
  }

  /** The order in which a queue runs when it is ticked until it is empty. */
  function Rounds(ts: seq<Task>): seq<nat>
    decreases Total(ts)
  {
    if ts == [] then []
    else
      TickWork(ts);
      Ids(ts) + Rounds(Pushed(ts))
  }

  /** Ticking until empty runs every task, pushed at any depth, exactly once. */
  lemma {:induction false} RoundsRunEverythingOnce(ts: seq<Task>)
    ensures multiset(Rounds(ts)) == Everything(ts) && |Rounds(ts)| == Total(ts)
    decreases Total(ts)
  {
    if ts != [] {
      TickWork(ts);
      RoundsRunEverythingOnce(Pushed(ts));
    }
  }

  /** How deep the pushes of a batch are nested. */
  function Height(ts: seq<Task>): nat {
    if ts == [] then 0 else Max(1 + Height(ts[0].pushes), Height(ts[1..]))
  }

  function Max(a: nat, b: nat): nat {
    if a < b then b else a
  }

  lemma {:induction false} HeightOfConcat(a: seq<Task>, b: seq<Task>)
    ensures Height(a + b) == Max(Height(a), Height(b))
    decreases |a|
  {
    if a == [] {
      assert a + b == b;
    } else {
      assert (a + b)[1..] == a[1..] + b;
      HeightOfConcat(a[1..], b);
    }
  }

  lemma {:induction false} HeightOfTick(ts: seq<Task>)
    requires ts != []
    ensures Height(Pushed(ts)) + 1 == Height(ts)
    decreases |ts|
  {
    HeightOfConcat(ts[0].pushes, Pushed(ts[1..]));
    if |ts| > 1 {
      HeightOfTick(ts[1..]);
    }
  }

  // ----- the order, task by task -----

  /** How many tasks the first `i` tasks of a batch push. */
  function Offset(ts: seq<Task>, i: nat): nat
    requires i <= |ts|
  {
    if i == 0 then 0 else Offset(ts, i - 1) + |ts[i - 1].pushes|
  }

  lemma {:induction false} OffsetOfRest(ts: seq<Task>, i: nat)
    requires 0 < i <= |ts|
    ensures Offset(ts, i) == |ts[0].pushes| + Offset(ts[1..], i - 1)
  {
    if i > 1 {
      OffsetOfRest(ts, i - 1);
    }
  }

  lemma {:induction false} OffsetsGrow(ts: seq<Task>, i: nat, j: nat)
    requires i <= j <= |ts|
    ensures Offset(ts, i) <= Offset(ts, j)
    decreases j
  {
    if i < j {
      OffsetsGrow(ts, i, j - 1);
    }
  }

  lemma {:induction false} PushedSize(ts: seq<Task>)
    ensures |Pushed(ts)| == Offset(ts, |ts|)
    decreases |ts|
  {
    if ts != [] {
      var rest := ts[1..];
      PushedSize(rest);
      OffsetOfRest(ts, |ts|);
      assert |rest| == |ts| - 1 && Pushed(ts) == ts[0].pushes + Pushed(rest);
    }
  }

  lemma {:induction false} PushedAt(ts: seq<Task>, i: nat, j: nat)
    requires i < |ts| && j < |ts[i].pushes|
    ensures Offset(ts, i) + j < |Pushed(ts)| && Pushed(ts)[Offset(ts, i) + j] == ts[i].pushes[j]
    decreases |ts|
  {
    if i > 0 {
      PushedAt(ts[1..], i - 1, j);
      OffsetOfRest(ts, i);
    }
  }

  /** `ps` is what the batch pushes, in its own order: what a task pushes comes after all
      that the tasks before it push, in the order it pushes it. */
  predicate Collects(ps: seq<Task>, ts: seq<Task>) {
    && |ps| == Offset(ts, |ts|)
    && forall i: nat, j: nat :: i < |ts| && j < |ts[i].pushes| ==> CollectsAt(ps, ts, i, j)
  }

  predicate CollectsAt(ps: seq<Task>, ts: seq<Task>, i: nat, j: nat)
    requires i < |ts| && j < |ts[i].pushes|
  {
    Offset(ts, i) + j < |ps| && ps[Offset(ts, i) + j] == ts[i].pushes[j]
  }

  lemma PushedInOrder(ts: seq<Task>)
    ensures Collects(Pushed(ts), ts)
  {
    PushedSize(ts);
    forall i: nat, j: nat | i < |ts| && j < |ts[i].pushes|
      ensures CollectsAt(Pushed(ts), ts, i, j)
    {
      PushedAt(ts, i, j);
    }
  }

  /** A task among all that are ever pushed: its place in the queue, then its place among
      what that task pushes, and so on. */
  type Address = seq<nat>

  function At(ts: seq<Task>, a: Address): Option<Task>
    decreases |a|
  {
    if a == [] || a[0] >= |ts| then None
    else if |a| == 1 then Some(ts[a[0]])
    else At(ts[a[0]].pushes, a[1..])
  }

  /** The address in the queue of the next tick. */
  function NextAddress(ts: seq<Task>, a: Address): Address
    requires |a| > 1 && a[0] < |ts|
  {
    [Offset(ts, a[0]) + a[1]] + a[2..]
  }

  lemma SameStart(ts: seq<Task>, us: seq<Task>, a: Address, b: Address)
    requires |a| == |b| > 0 && a[1..] == b[1..]
    requires a[0] < |ts| && b[0] < |us| && ts[a[0]] == us[b[0]]
    ensures At(ts, a) == At(us, b)
  {
  }

  lemma SameTask(ts: seq<Task>, a: Address)
    requires |a| > 1 && At(ts, a).Some?
    ensures At(Pushed(ts), NextAddress(ts, a)) == At(ts, a)
  {
    var pushes, rest, next := ts[a[0]].pushes, a[1..], NextAddress(ts, a);
    assert At(ts, a) == At(pushes, rest);
    PushedAt(ts, a[0], a[1]);
    assert next[1..] == a[2..] == rest[1..];
    SameStart(pushes, Pushed(ts), rest, next);
  }

  /** Where in the order of running a task is. */
  function Position(ts: seq<Task>, a: Address): nat
    requires At(ts, a).Some?
    decreases |a|
  {
    if |a| == 1 then a[0]
    else
      SameTask(ts, a);
      |ts| + Position(Pushed(ts), NextAddress(ts, a))
  }

  /** Each task runs at its position. */
  lemma {:induction false} RunsAtPosition(ts: seq<Task>, a: Address)
    requires At(ts, a).Some?
    ensures Position(ts, a) < |Rounds(ts)| && Rounds(ts)[Position(ts, a)] == At(ts, a).value.id
    decreases |a|
  {
    if |a| > 1 {
      SameTask(ts, a);
      RunsAtPosition(Pushed(ts), NextAddress(ts, a));
    }
  }

  /** Earlier in a queue, or pushed by an earlier task, or pushed earlier by the same one. */
  predicate LexLess(a: Address, b: Address)
    requires |a| == |b|
  {
    a != [] && (a[0] < b[0] || (a[0] == b[0] && LexLess(a[1..], b[1..])))
  }

  /** Tasks run breadth first: every task before all that are nested deeper, so before
      those it pushes, and tasks of one depth in the order in which they were pushed. */
  lemma {:induction false} BreadthFirst(ts: seq<Task>, a: Address, b: Address)
    requires At(ts, a).Some? && At(ts, b).Some?
    requires |a| < |b| || (|a| == |b| && LexLess(a, b))
    ensures Position(ts, a) < Position(ts, b)
    decreases |a|
  {
    if |a| > 1 {
      SameTask(ts, a);
      SameTask(ts, b);
      if |a| == |b| {
        NextLess(ts, a, b);
      }
      BreadthFirst(Pushed(ts), NextAddress(ts, a), NextAddress(ts, b));
    }
  }

  lemma NextLess(ts: seq<Task>, a: Address, b: Address)
    requires |a| == |b| > 1 && LexLess(a, b) && At(ts, a).Some? && At(ts, b).Some?
    ensures LexLess(NextAddress(ts, a), NextAddress(ts, b))
  {
    assert a[1..][1..] == a[2..] == NextAddress(ts, a)[1..];
    assert b[1..][1..] == b[2..] == NextAddress(ts, b)[1..];
    if a[0] < b[0] {
      assert a[1] < |ts[a[0]].pushes|;
      OffsetsGrow(ts, a[0] + 1, b[0]);
    } else {
      assert LexLess(a[1..], b[1..]);
    }
  }

  lemma OneTick(log: seq<nat>, ts: seq<Task>)
    requires ts != []
    ensures log + Rounds(ts) == (log + Ids(ts)) + Rounds(Pushed(ts))
    ensures Height(Pushed(ts)) + 1 == Height(ts) && Total(Pushed(ts)) < Total(ts)
  {
    TickWork(ts);
    HeightOfTick(ts);
  }

  lemma LoggedOnce(log: seq<nat>, ts: seq<Task>)
    ensures multiset(log + Rounds(ts)) == multiset(log) + Everything(ts)
  {
    RoundsRunEverythingOnce(ts);
  }

  class InvocationQueue {
    var functions: seq<Task>
    /** What has been run so far. */
    var log: seq<nat>

    method Push(t: Task)
      modifies this`functions
      ensures functions == old(functions) + [t]
    {
      functions := functions + [t];
    }

    /** What a running task does, as far as the queue is concerned. */
    method PushAll(pushes: seq<Task>)
      modifies this`functions
      ensures functions == old(functions) + pushes
    {
      for j := 0 to |pushes|
        invariant functions == old(functions) + pushes[..j]
      {
        Push(pushes[j]);
        assert pushes[..j + 1] == pushes[..j] + [pushes[j]];
      }
      assert pushes[..|pushes|] == pushes;
    }

    /** One tick runs exactly the snapshot it took; what the tasks push waits for the next. */
    method InvokeAll()
      modifies this
      ensures log == old(log) + Ids(old(functions))
      ensures functions == Pushed(old(functions))
      ensures |log| == |old(log)| + |old(functions)|
      ensures forall i :: 0 <= i < |old(functions)| ==> log[|old(log)| + i] == old(functions)[i].id
      ensures Collects(functions, old(functions))
    {
      PushedInOrder(functions);
      var batch := functions;
      functions := [];
      for i := 0 to |batch|
        invariant log == old(log) + Ids(batch[..i])
        invariant functions == Pushed(batch[..i])
      {
        assert batch[..i + 1] == batch[..i] + [batch[i]];
        PushedOfConcat(batch[..i], [batch[i]]);
        assert Ids(batch[..i + 1]) == Ids(batch[..i]) + [batch[i].id];
        log := log + [batch[i].id];
        var pushes := batch[i].pushes;
        PushAll(pushes);
        assert Pushed([batch[i]]) == pushes + [];
      }
      assert batch[..|batch|] == batch;
    }

    /** If every task pushes finitely many tasks, nested finitely deep, the queue is
        empty after as many ticks as the nesting is deep. */
    method Drain() returns (ticks: nat)
      modifies this
      ensures functions == [] && ticks == Height(old(functions))
      ensures log == old(log) + Rounds(old(functions))
      ensures multiset(log) == multiset(old(log)) + Everything(old(functions))
      ensures |log| == |old(log)| + Total(old(functions))
      ensures forall a :: At(old(functions), a).Some? ==>
        0 <= |old(log)| + Position(old(functions), a) < |log|
        && log[|old(log)| + Position(old(functions), a)] == At(old(functions), a).value.id
    {
      ticks := 0;
      while functions != []
        invariant log + Rounds(functions) == old(log) + Rounds(old(functions))
        invariant ticks + Height(functions) == Height(old(functions))
        decreases Total(functions)
      {
        OneTick(log, functions);
        InvokeAll();
        ticks := ticks + 1;
      }
      LoggedOnce(old(log), old(functions));
      RoundsRunEverythingOnce(old(functions));
      forall a | At(old(functions), a).Some?
        ensures Position(old(functions), a) < |Rounds(old(functions))|
        ensures Rounds(old(functions))[Position(old(functions), a)] == At(old(functions), a).value.id
      {
        RunsAtPosition(old(functions), a);
      }
    }
  }
}
