/** How an import makes lists grow: by the ids of their entries, once for every pointer
    path to the object that has the list. */
module KeyedGrowth {
  import opened GraphStore
  import opened KeyedGraphs
  import opened KeyedRows
  import opened Options

  /** The ids in list `i` of `q`. */
  ghost function ListIds(g: Memory, rank: map<Ptr, nat>, keyAt: map<Class, nat>, q: Ptr, i: nat): seq<Id>
    requires Graph(g, rank, keyAt)
  {
    if q in g && i < |g[q].fields| && g[q].fields[i].Pointers? then
      assert FieldBelow(g, rank, g[q].fields[i], rank[q]);
      EntryIds(g, keyAt, g[q].fields[i].ps)
    else []
  }

  /** By importing `p`. */
  ghost function Grown(g: Memory, rank: map<Ptr, nat>, keyAt: map<Class, nat>, p: Ptr): Growth
    requires Graph(g, rank, keyAt) && p in g
  {
    (q: Ptr, i: nat) => Times(ListIds(g, rank, keyAt, q, i), Paths(g, rank, p, q))
  }

  /** By writing the first `n` properties of `p`. */
  ghost function GrownVia(g: Memory, rank: map<Ptr, nat>, keyAt: map<Class, nat>, p: Ptr, n: nat): Growth
    requires Graph(g, rank, keyAt) && p in g && n <= |g[p].fields|
  {
    (q: Ptr, i: nat) =>
      Times(ListIds(g, rank, keyAt, q, i), PathsVia(g, rank, p, n, q))
      + (if q == p && i < n then ListIds(g, rank, keyAt, q, i) else [])
  }

  /** By importing entries of list `n` of `p` and appending them. */
  ghost function GrownList(g: Memory, rank: map<Ptr, nat>, keyAt: map<Class, nat>, p: Ptr, n: nat, ps: seq<Option<Ptr>>): Growth
    requires Graph(g, rank, keyAt) && p in g && FieldBelow(g, rank, Pointers(ps), rank[p])
  {
    (q: Ptr, i: nat) =>
      Times(ListIds(g, rank, keyAt, q, i), PathsList(g, rank, ps, rank[p], q))
      + (if q == p && i == n then EntryIds(g, keyAt, ps) else [])
  }

  /** By appending one id to list `n` of `p`. */
  ghost function OneEntry(p: Ptr, n: nat, id: Id): Growth {
    (q: Ptr, i: nat) => if q == p && i == n then [id] else []
  }

  lemma NothingGrown(g: Memory, rank: map<Ptr, nat>, keyAt: map<Class, nat>, p: Ptr)
    requires Graph(g, rank, keyAt) && p in g
    ensures SameGrowth(g, NO_GROWTH, GrownVia(g, rank, keyAt, p, 0))
  {
  }

  lemma NoEntries(g: Memory, rank: map<Ptr, nat>, keyAt: map<Class, nat>, p: Ptr, n: nat)
    requires Graph(g, rank, keyAt) && p in g
    ensures SameGrowth(g, NO_GROWTH, GrownList(g, rank, keyAt, p, n, []))
  {
  }

  lemma GrowthSkips(g: Memory, rank: map<Ptr, nat>, keyAt: map<Class, nat>, p: Ptr, n: nat)
    requires Graph(g, rank, keyAt) && p in g && n < |g[p].fields|
    requires g[p].fields[n].Scalar? || g[p].fields[n] == Pointer(None)
    ensures SameGrowth(g, Sum(GrownVia(g, rank, keyAt, p, n), NO_GROWTH), GrownVia(g, rank, keyAt, p, n + 1))
  {
    forall q, i: nat | q in g && i < |g[q].fields|
      ensures Sum(GrownVia(g, rank, keyAt, p, n), NO_GROWTH)(q, i) == GrownVia(g, rank, keyAt, p, n + 1)(q, i)
    {
      assert PathsVia(g, rank, p, n + 1, q) == PathsVia(g, rank, p, n, q);
      assert q == p && i == n ==> ListIds(g, rank, keyAt, q, i) == [];
    }
  }

  lemma GrowthFollows(g: Memory, rank: map<Ptr, nat>, keyAt: map<Class, nat>, p: Ptr, n: nat, x: Ptr)
    requires Graph(g, rank, keyAt) && p in g && n < |g[p].fields| && g[p].fields[n] == Pointer(Some(x))
    requires x in g && rank[x] < rank[p]
    ensures SameGrowth(g, Sum(GrownVia(g, rank, keyAt, p, n), Grown(g, rank, keyAt, x)), GrownVia(g, rank, keyAt, p, n + 1))
  {
    forall q, i: nat | q in g && i < |g[q].fields|
      ensures Sum(GrownVia(g, rank, keyAt, p, n), Grown(g, rank, keyAt, x))(q, i) == GrownVia(g, rank, keyAt, p, n + 1)(q, i)
    {
      var ids := ListIds(g, rank, keyAt, q, i);
      TimesSum(ids, PathsVia(g, rank, p, n, q), Paths(g, rank, x, q));
      if q == p {
        NoPathUp(g, rank, x, p);
        assert i == n ==> ids == [];
      }
    }
  }

  lemma GrowthFollowsList(g: Memory, rank: map<Ptr, nat>, keyAt: map<Class, nat>, p: Ptr, n: nat, ps: seq<Option<Ptr>>)
    requires Graph(g, rank, keyAt) && p in g && n < |g[p].fields| && g[p].fields[n] == Pointers(ps)
    requires FieldBelow(g, rank, Pointers(ps), rank[p])
    ensures SameGrowth(g, Sum(GrownVia(g, rank, keyAt, p, n), GrownList(g, rank, keyAt, p, n, ps)),
              GrownVia(g, rank, keyAt, p, n + 1))
  {
    forall q, i: nat | q in g && i < |g[q].fields|
      ensures Sum(GrownVia(g, rank, keyAt, p, n), GrownList(g, rank, keyAt, p, n, ps))(q, i)
              == GrownVia(g, rank, keyAt, p, n + 1)(q, i)
    {
      var ids := ListIds(g, rank, keyAt, q, i);
      TimesSum(ids, PathsVia(g, rank, p, n, q), PathsList(g, rank, ps, rank[p], q));
      if q == p {
        NoPathUpList(g, rank, ps, rank[p], p);
      }
    }
  }

  lemma EntriesNext(g: Memory, rank: map<Ptr, nat>, keyAt: map<Class, nat>, ps: seq<Option<Ptr>>, entry: Option<Ptr>,
      bound: nat, q: Ptr)
    requires Graph(g, rank, keyAt) && FieldBelow(g, rank, Pointers(ps), bound) && FieldBelow(g, rank, Pointer(entry), bound)
    ensures FieldBelow(g, rank, Pointers(ps + [entry]), bound)
    ensures PathsList(g, rank, ps + [entry], bound, q)
            == PathsList(g, rank, ps, bound, q) + (if entry.None? then 0 else Paths(g, rank, entry.value, q))
    ensures EntryIds(g, keyAt, ps + [entry])
            == EntryIds(g, keyAt, ps) + (if entry.None? then [] else [IdOf(g, keyAt, entry.value)])
  {
    assert (ps + [entry])[..|ps|] == ps;
  }

  /** One more entry of the list, null or not. */
  lemma GrowthSkipsEntry(g: Memory, rank: map<Ptr, nat>, keyAt: map<Class, nat>, p: Ptr, n: nat, ps: seq<Option<Ptr>>)
    requires Graph(g, rank, keyAt) && p in g && FieldBelow(g, rank, Pointers(ps), rank[p])
    requires FieldBelow(g, rank, Pointers(ps + [None]), rank[p])
    ensures SameGrowth(g, GrownList(g, rank, keyAt, p, n, ps), GrownList(g, rank, keyAt, p, n, ps + [None]))
  {
    forall q, i: nat | q in g && i < |g[q].fields|
      ensures GrownList(g, rank, keyAt, p, n, ps)(q, i) == GrownList(g, rank, keyAt, p, n, ps + [None])(q, i)
    {
      EntriesNext(g, rank, keyAt, ps, None, rank[p], q);
    }
  }

  lemma GrowthNext(g: Memory, rank: map<Ptr, nat>, keyAt: map<Class, nat>, p: Ptr, n: nat, ps: seq<Option<Ptr>>, x: Ptr)
    requires Graph(g, rank, keyAt) && p in g && FieldBelow(g, rank, Pointers(ps), rank[p]) && x in g && rank[x] < rank[p]
    requires FieldBelow(g, rank, Pointers(ps + [Some(x)]), rank[p])
    ensures var more := Sum(Grown(g, rank, keyAt, x), OneEntry(p, n, IdOf(g, keyAt, x)));
      SameGrowth(g, Sum(GrownList(g, rank, keyAt, p, n, ps), more), GrownList(g, rank, keyAt, p, n, ps + [Some(x)]))
  {
    var more := Sum(Grown(g, rank, keyAt, x), OneEntry(p, n, IdOf(g, keyAt, x)));
    forall q, i: nat | q in g && i < |g[q].fields|
      ensures Sum(GrownList(g, rank, keyAt, p, n, ps), more)(q, i) == GrownList(g, rank, keyAt, p, n, ps + [Some(x)])(q, i)
    {
      var ids := ListIds(g, rank, keyAt, q, i);
      EntriesNext(g, rank, keyAt, ps, Some(x), rank[p], q);
      TimesSum(ids, PathsList(g, rank, ps, rank[p], q), Paths(g, rank, x, q));
      if q == p {
        NoPathUp(g, rank, x, p);
        NoPathUpList(g, rank, ps, rank[p], p);
      }
    }
  }

  lemma AllGrown(g: Memory, rank: map<Ptr, nat>, keyAt: map<Class, nat>, p: Ptr)
    requires Graph(g, rank, keyAt) && p in g
    ensures SameGrowth(g, GrownVia(g, rank, keyAt, p, |g[p].fields|), Grown(g, rank, keyAt, p))
  {
    forall q, i: nat | q in g && i < |g[q].fields|
      ensures GrownVia(g, rank, keyAt, p, |g[p].fields|)(q, i) == Grown(g, rank, keyAt, p)(q, i)
    {
      if q == p {
        NoPathUp(g, rank, p, p);
        TimesOnce(ListIds(g, rank, keyAt, q, i), 1);
      }
    }
  }
}
