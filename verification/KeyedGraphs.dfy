/** Pointer structures of classes with a primary key: which objects an import reaches, and
    along how many paths. */
module KeyedGraphs {
  import opened GraphStore
  import opened Options

  type Id = (Class, int)

  /** Class and primary key of an object; `keyAt` says which property is the key. */
  function IdOf(g: Memory, keyAt: map<Class, nat>, p: Ptr): Id
    requires Keyed(g, keyAt, p)
  {
    (g[p].cls, g[p].fields[keyAt[g[p].cls]].v)
  }

  predicate Keyed(g: Memory, keyAt: map<Class, nat>, p: Ptr) {
    && p in g && g[p].cls in keyAt && keyAt[g[p].cls] < |g[p].fields|
    && g[p].fields[keyAt[g[p].cls]].Scalar?
  }

  ghost predicate AllKeyed(g: Memory, keyAt: map<Class, nat>) {
    forall p :: p in g ==> Keyed(g, keyAt, p)
  }

  ghost predicate DistinctIds(g: Memory, keyAt: map<Class, nat>)
    requires AllKeyed(g, keyAt)
  {
    forall p, q :: p in g && q in g && IdOf(g, keyAt, p) == IdOf(g, keyAt, q) ==> p == q
  }

  ghost predicate NoPrimitiveLists(g: Memory) {
    forall p, i :: p in g && 0 <= i < |g[p].fields| ==> !g[p].fields[i].Values?
  }

  ghost predicate Graph(g: Memory, rank: map<Ptr, nat>, keyAt: map<Class, nat>) {
    Acyclic(g, rank) && AllKeyed(g, keyAt)
  }

  ghost predicate Typed(schema: Schema, g: Memory) {
    forall p :: p in g ==> StructTyped(schema, g, g[p])
  }

  // ----- the objects an import reaches -----

  /** The ids of the objects reached from `p`. */
  ghost function Reach(g: Memory, rank: map<Ptr, nat>, keyAt: map<Class, nat>, p: Ptr): set<Id>
    requires Graph(g, rank, keyAt) && p in g
    decreases rank[p], 2
  {
    ReachVia(g, rank, keyAt, p, |g[p].fields|)
  }

  /** The object itself and what its first `n` properties reach. */
  ghost function ReachVia(g: Memory, rank: map<Ptr, nat>, keyAt: map<Class, nat>, p: Ptr, n: nat): set<Id>
    requires Graph(g, rank, keyAt) && p in g && n <= |g[p].fields|
    decreases rank[p], 1, n
  {
    if n == 0 then {IdOf(g, keyAt, p)}
    else
      var rest := ReachVia(g, rank, keyAt, p, n - 1);
      match g[p].fields[n - 1]
      case Pointer(Some(q)) => rest + Reach(g, rank, keyAt, q)
      case Pointers(ps) =>
        assert FieldBelow(g, rank, g[p].fields[n - 1], rank[p]);
        rest + ReachList(g, rank, keyAt, ps, rank[p])
      case _ => rest
  }

  ghost function ReachList(g: Memory, rank: map<Ptr, nat>, keyAt: map<Class, nat>, ps: seq<Option<Ptr>>, bound: nat): set<Id>
    requires Graph(g, rank, keyAt) && FieldBelow(g, rank, Pointers(ps), bound)
    decreases bound, 0, |ps|
  {
    if ps == [] then {}
    else
      var rest, last := ReachList(g, rank, keyAt, ps[..|ps| - 1], bound), ps[|ps| - 1];
      if last.None? then rest else rest + Reach(g, rank, keyAt, last.value)
  }

  /** Everything reached ranks below, except the object itself. */
  lemma {:induction false} ReachDescends(g: Memory, rank: map<Ptr, nat>, keyAt: map<Class, nat>, p: Ptr, n: nat, r: Ptr)
    requires Graph(g, rank, keyAt) && DistinctIds(g, keyAt) && p in g && n <= |g[p].fields| && r in g
    requires IdOf(g, keyAt, r) in ReachVia(g, rank, keyAt, p, n)
    ensures r == p || rank[r] < rank[p]
    decreases rank[p], 1, n
  {
    if n > 0 {
      if IdOf(g, keyAt, r) in ReachVia(g, rank, keyAt, p, n - 1) {
        ReachDescends(g, rank, keyAt, p, n - 1, r);
      } else {
        assert FieldBelow(g, rank, g[p].fields[n - 1], rank[p]);
        match g[p].fields[n - 1]
        case Pointer(Some(q)) => ReachDescends(g, rank, keyAt, q, |g[q].fields|, r);
        case Pointers(ps) => ReachListDescends(g, rank, keyAt, ps, rank[p], r);
        case _ =>
      }
    }
  }

  lemma {:induction false} ReachListDescends(g: Memory, rank: map<Ptr, nat>, keyAt: map<Class, nat>,
      ps: seq<Option<Ptr>>, bound: nat, r: Ptr)
    requires Graph(g, rank, keyAt) && DistinctIds(g, keyAt) && FieldBelow(g, rank, Pointers(ps), bound) && r in g
    requires IdOf(g, keyAt, r) in ReachList(g, rank, keyAt, ps, bound)
    ensures rank[r] < bound
    decreases bound, 0, |ps|
  {
    var last := ps[|ps| - 1];
    if IdOf(g, keyAt, r) in ReachList(g, rank, keyAt, ps[..|ps| - 1], bound) {
      ReachListDescends(g, rank, keyAt, ps[..|ps| - 1], bound, r);
    } else {
      ReachDescends(g, rank, keyAt, last.value, |g[last.value].fields|, r);
    }
  }

  lemma {:induction false} ReachHasRoot(g: Memory, rank: map<Ptr, nat>, keyAt: map<Class, nat>, p: Ptr, n: nat)
    requires Graph(g, rank, keyAt) && p in g && n <= |g[p].fields|
    ensures IdOf(g, keyAt, p) in ReachVia(g, rank, keyAt, p, n)
  {
    if n > 0 {
      ReachHasRoot(g, rank, keyAt, p, n - 1);
    }
  }

  /** One more entry of a list is reached. */
  lemma ReachListNext(g: Memory, rank: map<Ptr, nat>, keyAt: map<Class, nat>, ps: seq<Option<Ptr>>,
      entry: Option<Ptr>, bound: nat)
    requires Graph(g, rank, keyAt) && FieldBelow(g, rank, Pointers(ps), bound) && FieldBelow(g, rank, Pointer(entry), bound)
    ensures FieldBelow(g, rank, Pointers(ps + [entry]), bound)
    ensures ReachList(g, rank, keyAt, ps + [entry], bound)
            == ReachList(g, rank, keyAt, ps, bound) + (if entry.None? then {} else Reach(g, rank, keyAt, entry.value))
  {
    assert (ps + [entry])[..|ps|] == ps;
  }

  lemma ReachSkips(g: Memory, rank: map<Ptr, nat>, keyAt: map<Class, nat>, p: Ptr, n: nat)
    requires Graph(g, rank, keyAt) && p in g && n < |g[p].fields|
    requires g[p].fields[n].Scalar? || g[p].fields[n] == Pointer(None)
    ensures ReachVia(g, rank, keyAt, p, n + 1) == ReachVia(g, rank, keyAt, p, n) == ReachVia(g, rank, keyAt, p, n) + {}
  {
  }

  lemma ReachFollows(g: Memory, rank: map<Ptr, nat>, keyAt: map<Class, nat>, p: Ptr, n: nat, q: Ptr)
    requires Graph(g, rank, keyAt) && p in g && n < |g[p].fields| && g[p].fields[n] == Pointer(Some(q))
    ensures q in g && rank[q] < rank[p]
    ensures ReachVia(g, rank, keyAt, p, n + 1) == ReachVia(g, rank, keyAt, p, n) + Reach(g, rank, keyAt, q)
  {
    assert FieldBelow(g, rank, g[p].fields[n], rank[p]);
  }

  lemma ReachFollowsList(g: Memory, rank: map<Ptr, nat>, keyAt: map<Class, nat>, p: Ptr, n: nat, ps: seq<Option<Ptr>>)
    requires Graph(g, rank, keyAt) && p in g && n < |g[p].fields| && g[p].fields[n] == Pointers(ps)
    ensures FieldBelow(g, rank, Pointers(ps), rank[p])
    ensures ReachVia(g, rank, keyAt, p, n + 1) == ReachVia(g, rank, keyAt, p, n) + ReachList(g, rank, keyAt, ps, rank[p])
  {
    assert FieldBelow(g, rank, g[p].fields[n], rank[p]);
  }

  // ----- how often an import reaches an object -----

  /** The number of pointer paths from `p` to `q`. */
  ghost function Paths(g: Memory, rank: map<Ptr, nat>, p: Ptr, q: Ptr): nat
    requires Acyclic(g, rank) && p in g
    decreases rank[p], 2
  {
    (if p == q then 1 else 0) + PathsVia(g, rank, p, |g[p].fields|, q)
  }

  /** Those that start with one of the first `n` properties. */
  ghost function PathsVia(g: Memory, rank: map<Ptr, nat>, p: Ptr, n: nat, q: Ptr): nat
    requires Acyclic(g, rank) && p in g && n <= |g[p].fields|
    decreases rank[p], 1, n
  {
    if n == 0 then 0
    else
      assert FieldBelow(g, rank, g[p].fields[n - 1], rank[p]);
      PathsVia(g, rank, p, n - 1, q) +
      match g[p].fields[n - 1]
      case Pointer(Some(r)) => Paths(g, rank, r, q)
      case Pointers(ps) => PathsList(g, rank, ps, rank[p], q)
      case _ => 0
  }

  ghost function PathsList(g: Memory, rank: map<Ptr, nat>, ps: seq<Option<Ptr>>, bound: nat, q: Ptr): nat
    requires Acyclic(g, rank) && FieldBelow(g, rank, Pointers(ps), bound)
    decreases bound, 0, |ps|
  {
    if ps == [] then 0
    else
      var last := ps[|ps| - 1];
      PathsList(g, rank, ps[..|ps| - 1], bound, q) + (if last.None? then 0 else Paths(g, rank, last.value, q))
  }

  /** No path leads upwards. */
  lemma {:induction false} NoPathUp(g: Memory, rank: map<Ptr, nat>, p: Ptr, q: Ptr)
    requires Acyclic(g, rank) && p in g && q in g && rank[p] <= rank[q]
    ensures p != q ==> Paths(g, rank, p, q) == 0
    ensures PathsVia(g, rank, p, |g[p].fields|, q) == 0
    decreases rank[p], 2
  {
    NoPathUpVia(g, rank, p, |g[p].fields|, q);
  }

  lemma {:induction false} NoPathUpVia(g: Memory, rank: map<Ptr, nat>, p: Ptr, n: nat, q: Ptr)
    requires Acyclic(g, rank) && p in g && q in g && rank[p] <= rank[q] && n <= |g[p].fields|
    ensures PathsVia(g, rank, p, n, q) == 0
    decreases rank[p], 1, n
  {
    if n > 0 {
      NoPathUpVia(g, rank, p, n - 1, q);
      assert FieldBelow(g, rank, g[p].fields[n - 1], rank[p]);
      match g[p].fields[n - 1]
      case Pointer(Some(r)) => NoPathUp(g, rank, r, q);
      case Pointers(ps) => NoPathUpList(g, rank, ps, rank[p], q);
      case _ =>
    }
  }

  lemma {:induction false} NoPathUpList(g: Memory, rank: map<Ptr, nat>, ps: seq<Option<Ptr>>, bound: nat, q: Ptr)
    requires Acyclic(g, rank) && FieldBelow(g, rank, Pointers(ps), bound) && q in g && bound <= rank[q]
    ensures PathsList(g, rank, ps, bound, q) == 0
    decreases bound, 0, |ps|
  {
    if ps != [] {
      NoPathUpList(g, rank, ps[..|ps| - 1], bound, q);
      if ps[|ps| - 1].Some? {
        NoPathUp(g, rank, ps[|ps| - 1].value, q);
      }
    }
  }

  /** A sequence repeated. */
  function Times(s: seq<Id>, n: nat): seq<Id> {
    if n == 0 then [] else Times(s, n - 1) + s
  }

  lemma {:induction false} TimesSum(s: seq<Id>, m: nat, n: nat)
    ensures Times(s, m + n) == Times(s, m) + Times(s, n)
    decreases n
  {
    if n > 0 {
      TimesSum(s, m, n - 1);
    }
  }

  lemma {:induction false} TimesOnce(s: seq<Id>, n: nat)
    ensures |Times(s, n)| == n * |s|
    ensures Times(s, n) == s <==> s == [] || n == 1
  {
    if n > 0 {
      TimesOnce(s, n - 1);
      assert n * |s| == (n - 1) * |s| + |s|;
      if n == 1 {
        assert Times(s, n) == s;
      } else if s != [] {
        assert (n - 1) * |s| >= |s|;
      }
    }
  }

  /** The ids of the non-null entries of a pointer list. */
  function EntryIds(g: Memory, keyAt: map<Class, nat>, ps: seq<Option<Ptr>>): seq<Id>
    requires AllKeyed(g, keyAt) && AllIn(g, ps)
  {
    if ps == [] then []
    else
      EntryIds(g, keyAt, ps[..|ps| - 1]) +
      (if ps[|ps| - 1].None? then [] else [IdOf(g, keyAt, ps[|ps| - 1].value)])
  }

  predicate AllIn(g: Memory, ps: seq<Option<Ptr>>) {
    forall j :: 0 <= j < |ps| && ps[j].Some? ==> ps[j].value in g
  }
}
