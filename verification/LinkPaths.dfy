/** The pending link chain over a whole run of navigations and comparisons. */
module LinkPaths {
  import opened Bridge
  import opened QueryBuilder
  import opened QueryCompiler
  import opened QueryLanguage

  datatype Event = Navigate(col: ColKey) | Compared(test: Test)

  /** The conditions a run emits, from a builder with the given pending chain. */
  function EmittedConds(events: seq<Event>, chain: seq<ColKey>): seq<Cond> {
    if events == [] then []
    else
      match events[0]
      case Navigate(col) => EmittedConds(events[1..], chain + [col])
      case Compared(t) => [Emitted(chain, t)] + EmittedConds(events[1..], ChainAfter(chain, t))
  }

  function Paths(conds: seq<Cond>): seq<seq<ColKey>> {
    seq(|conds|, i requires 0 <= i < |conds| => conds[i].path)
  }

  /** The columns navigated since the comparison before, for each comparison of the run. */
  function NavigatedPaths(events: seq<Event>, since: seq<ColKey>): seq<seq<ColKey>> {
    if events == [] then []
    else
      match events[0]
      case Navigate(col) => NavigatedPaths(events[1..], since + [col])
      case Compared(_) => [since] + NavigatedPaths(events[1..], [])
  }

  /** No dictionary-key comparison is made right after a navigation. */
  predicate EntriesUnnavigated(events: seq<Event>, since: seq<ColKey>) {
    events != [] ==>
      match events[0]
      case Navigate(col) => EntriesUnnavigated(events[1..], since + [col])
      case Compared(t) => (t.kind.DictionaryEntry? ==> since == []) && EntriesUnnavigated(events[1..], [])
  }

  /** Every condition of a run carries exactly the links navigated since the previous
      one if and only if no dictionary-key comparison follows a navigation. */
  lemma {:induction false} PathDiscipline(events: seq<Event>, since: seq<ColKey>)
    ensures Paths(EmittedConds(events, since)) == NavigatedPaths(events, since) <==> EntriesUnnavigated(events, since)
    decreases |events|
  {
    if events != [] {
      match events[0]
      case Navigate(col) =>
        PathDiscipline(events[1..], since + [col]);
      case Compared(t) =>
        var after := EmittedConds(events[1..], ChainAfter(since, t));
        var emitted := Paths(EmittedConds(events, since));
        assert emitted[0] == Emitted(since, t).path;
        assert emitted[1..] == Paths(after);
        assert NavigatedPaths(events, since)[0] == since;
        assert NavigatedPaths(events, since)[1..] == NavigatedPaths(events[1..], []);
        if !t.kind.DictionaryEntry? || since == [] {
          PathDiscipline(events[1..], []);
          assert emitted == [since] + Paths(after);
        }
    }
  }

  /** The columns navigated before event `k` since the last comparison that was not of a
      dictionary entry. */
  function Accrued(events: seq<Event>, k: nat): seq<ColKey>
    requires k <= |events|
  {
    if k == 0 then []
    else
      match events[k - 1]
      case Navigate(col) => Accrued(events, k - 1) + [col]
      case Compared(t) => if t.kind.DictionaryEntry? then Accrued(events, k - 1) else []
  }

  /** The number of comparisons before event `k`. */
  function ComparedBefore(events: seq<Event>, k: nat): nat
    requires k <= |events|
  {
    if k == 0 then 0 else ComparedBefore(events, k - 1) + (if events[k - 1].Compared? then 1 else 0)
  }

  lemma {:induction false} EmittedOfMore(events: seq<Event>, last: Event, chain: seq<ColKey>)
    ensures PendingAfter(events + [last], chain) == PendingAfter([last], PendingAfter(events, chain))
    ensures EmittedConds(events + [last], chain)
            == EmittedConds(events, chain) + EmittedConds([last], PendingAfter(events, chain))
    decreases |events|
  {
    if events == [] {
      assert events + [last] == [last];
    } else {
      assert (events + [last])[1..] == events[1..] + [last];
      match events[0]
      case Navigate(col) => EmittedOfMore(events[1..], last, chain + [col]);
      case Compared(t) => EmittedOfMore(events[1..], last, ChainAfter(chain, t));
    }
  }

  lemma {:induction false} PendingIsAccrued(events: seq<Event>, k: nat)
    requires k <= |events|
    ensures PendingAfter(events[..k], []) == Accrued(events, k)
    ensures |EmittedConds(events[..k], [])| == ComparedBefore(events, k)
    decreases k
  {
    if k > 0 {
      PendingIsAccrued(events, k - 1);
      assert events[..k] == events[..k - 1] + [events[k - 1]];
      EmittedOfMore(events[..k - 1], events[k - 1], []);
    }
  }

  lemma {:induction false} EmittedEarlier(events: seq<Event>, k: nat, chain: seq<ColKey>)
    requires k <= |events|
    ensures EmittedConds(events[..k], chain) <= EmittedConds(events, chain)
    decreases |events|
  {
    if k < |events| {
      EmittedEarlier(events[..|events| - 1], k, chain);
      assert events[..|events| - 1][..k] == events[..k];
      assert events == events[..|events| - 1] + [events[|events| - 1]];
      EmittedOfMore(events[..|events| - 1], events[|events| - 1], chain);
    } else {
      assert events[..k] == events;
    }
  }

  lemma LastEmitted(events: seq<Event>, k: nat)
    requires k < |events| && events[k].Compared?
    ensures |EmittedConds(events[..k], [])| == ComparedBefore(events, k)
    ensures EmittedConds(events[..k + 1], [])
            == EmittedConds(events[..k], []) + [Emitted(Accrued(events, k), events[k].test)]
  {
    PendingIsAccrued(events, k);
    EmittedOfMore(events[..k], events[k], []);
    assert events[..k + 1] == events[..k] + [events[k]];
    JustOne(events[k].test, Accrued(events, k));
  }

  lemma JustOne(t: Test, chain: seq<ColKey>)
    ensures EmittedConds([Compared(t)], chain) == [Emitted(chain, t)]
  {
    assert [Compared(t)][1..] == [];
  }

  lemma EmittedAt(events: seq<Event>, k: nat)
    requires k < |events| && events[k].Compared?
    ensures ComparedBefore(events, k) < |EmittedConds(events, [])|
    ensures EmittedConds(events, [])[ComparedBefore(events, k)] == Emitted(Accrued(events, k), events[k].test)
  {
    var before, c := EmittedConds(events[..k], []), Emitted(Accrued(events, k), events[k].test);
    LastEmitted(events, k);
    EmittedEarlier(events, k + 1, []);
    AfterPrefix(before, c, EmittedConds(events, []));
  }

  /** Which path every comparison of a run gets: one of a dictionary entry none, and any
      other one all that was navigated since the last comparison that was not of an entry,
      so also what was meant for the entries between. */
  lemma PathGiven(events: seq<Event>, k: nat)
    requires k < |events| && events[k].Compared?
    ensures var n, conds := ComparedBefore(events, k), EmittedConds(events, []);
      && n < |conds| && conds[n] == Emitted(Accrued(events, k), events[k].test)
      && conds[n].path == if events[k].test.kind.DictionaryEntry? then [] else Accrued(events, k)
  {
    EmittedAt(events, k);
  }

  lemma AfterPrefix(s: seq<Cond>, c: Cond, all: seq<Cond>)
    requires s + [c] <= all
    ensures |s| < |all| && all[|s|] == c
  {
    assert all[|s|] == (s + [c])[|s|];
  }

  /** The chain still pending after a run: the navigations after its last comparison. */
  function PendingAfter(events: seq<Event>, chain: seq<ColKey>): seq<ColKey> {
    if events == [] then chain
    else
      match events[0]
      case Navigate(col) => PendingAfter(events[1..], chain + [col])
      case Compared(t) => PendingAfter(events[1..], ChainAfter(chain, t))
  }

  /** The condition a comparison put last into the query it returned. */
  function LastAdded(q: Query): Cond
    requires q.Leaf? || (q.And? && q.right.Leaf?)
  {
    if q.Leaf? then q.cond else q.right.cond
  }

  /** Performs a run on a real builder and reads the conditions off the queries it returns. */
  method Replay(builder: Rbool, events: seq<Event>) returns (conds: seq<Cond>)
    modifies builder`q, builder`chain, builder.q
    ensures conds == EmittedConds(events, old(builder.chain))
    ensures builder.chain == PendingAfter(events, old(builder.chain))
  {
    conds := [];
    ghost var entry := builder.q;
    var i := 0;
    while i < |events|
      invariant 0 <= i <= |events|
      invariant builder.q == entry || fresh(builder.q)
      invariant conds + EmittedConds(events[i..], builder.chain) == EmittedConds(events, old(builder.chain))
      invariant PendingAfter(events[i..], builder.chain) == PendingAfter(events, old(builder.chain))
    {
      assert events[i..][1..] == events[i + 1..];
      match events[i] {
        case Navigate(col) =>
          builder.AddLinkChain(col);
        case Compared(t) =>
          var r := builder.Compare(t);
          conds := conds + [LastAdded(r.q.tree)];
      }
      i := i + 1;
    }
  }
}
