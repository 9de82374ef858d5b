/** Adding keyed objects and detaching them again. The tree that comes back is the one the
    structure unfolds to, if and only if no null pointer is met and no object that has
    entries in a list is reached along two paths, for such a list is stored repeated. */
module KeyedRoundTrip {
  import opened GraphExport
  import opened GraphPaths
  import opened GraphStore
  import opened GraphTrees
  import opened KeyedGraphs
  import opened KeyedGrowth
  import opened KeyedImport
  import opened KeyedRows
  import opened Options

  // ----- what is reached from what -----

  lemma {:induction false} ReachGrows(g: Memory, rank: map<Ptr, nat>, keyAt: map<Class, nat>, p: Ptr, m: nat, n: nat)
    requires Graph(g, rank, keyAt) && p in g && m <= n <= |g[p].fields|
    ensures ReachVia(g, rank, keyAt, p, m) <= ReachVia(g, rank, keyAt, p, n)
    decreases n
  {
    if m < n {
      ReachGrows(g, rank, keyAt, p, m, n - 1);
    }
  }

  /** What an object reaches is reached from wherever it is reached. */
  lemma {:induction false} ReachOnwards(g: Memory, rank: map<Ptr, nat>, keyAt: map<Class, nat>, p: Ptr, n: nat, q: Ptr)
    requires Graph(g, rank, keyAt) && DistinctIds(g, keyAt) && p in g && q in g && n <= |g[p].fields|
    requires IdOf(g, keyAt, q) in ReachVia(g, rank, keyAt, p, n) && q != p
    ensures Reach(g, rank, keyAt, q) <= ReachVia(g, rank, keyAt, p, n)
    decreases rank[p], 1, n
  {
    if n > 0 {
      if IdOf(g, keyAt, q) in ReachVia(g, rank, keyAt, p, n - 1) {
        ReachOnwards(g, rank, keyAt, p, n - 1, q);
      } else {
        assert FieldBelow(g, rank, g[p].fields[n - 1], rank[p]);
        match g[p].fields[n - 1]
        case Pointer(Some(x)) =>
          if x != q {
            ReachOnwards(g, rank, keyAt, x, |g[x].fields|, q);
          }
        case Pointers(ps) => ReachListOnwards(g, rank, keyAt, ps, rank[p], q);
        case _ =>
      }
    }
  }

  lemma {:induction false} ReachListOnwards(g: Memory, rank: map<Ptr, nat>, keyAt: map<Class, nat>,
      ps: seq<Option<Ptr>>, bound: nat, q: Ptr)
    requires Graph(g, rank, keyAt) && DistinctIds(g, keyAt) && FieldBelow(g, rank, Pointers(ps), bound) && q in g
    requires IdOf(g, keyAt, q) in ReachList(g, rank, keyAt, ps, bound)
    ensures Reach(g, rank, keyAt, q) <= ReachList(g, rank, keyAt, ps, bound)
    decreases bound, 0, |ps|
  {
    var last := ps[|ps| - 1];
    if IdOf(g, keyAt, q) in ReachList(g, rank, keyAt, ps[..|ps| - 1], bound) {
      ReachListOnwards(g, rank, keyAt, ps[..|ps| - 1], bound, q);
    } else if last.value != q {
      ReachOnwards(g, rank, keyAt, last.value, |g[last.value].fields|, q);
    }
  }

  lemma ReachFromReached(g: Memory, rank: map<Ptr, nat>, keyAt: map<Class, nat>, root: Ptr, q: Ptr)
    requires Graph(g, rank, keyAt) && DistinctIds(g, keyAt) && root in g && q in g
    requires IdOf(g, keyAt, q) in Reach(g, rank, keyAt, root)
    ensures Reach(g, rank, keyAt, q) <= Reach(g, rank, keyAt, root)
  {
    if q != root {
      ReachOnwards(g, rank, keyAt, root, |g[root].fields|, q);
    }
  }

  lemma TargetReached(g: Memory, rank: map<Ptr, nat>, keyAt: map<Class, nat>, q: Ptr, i: nat, x: Ptr)
    requires Graph(g, rank, keyAt) && q in g && i < |g[q].fields| && g[q].fields[i] == Pointer(Some(x))
    ensures x in g && rank[x] < rank[q] && Reach(g, rank, keyAt, x) <= Reach(g, rank, keyAt, q)
    ensures IdOf(g, keyAt, x) in Reach(g, rank, keyAt, q)
  {
    ReachFollows(g, rank, keyAt, q, i, x);
    ReachGrows(g, rank, keyAt, q, i + 1, |g[q].fields|);
    ReachHasRoot(g, rank, keyAt, x, |g[x].fields|);
  }

  lemma ListReached(g: Memory, rank: map<Ptr, nat>, keyAt: map<Class, nat>, q: Ptr, i: nat, ps: seq<Option<Ptr>>)
    requires Graph(g, rank, keyAt) && q in g && i < |g[q].fields| && g[q].fields[i] == Pointers(ps)
    ensures FieldBelow(g, rank, Pointers(ps), rank[q])
    ensures ReachList(g, rank, keyAt, ps, rank[q]) <= Reach(g, rank, keyAt, q)
  {
    ReachFollowsList(g, rank, keyAt, q, i, ps);
    ReachGrows(g, rank, keyAt, q, i + 1, |g[q].fields|);
  }

  /** The entries of a list are reached by it, and rank below. */
  lemma {:induction false} EntriesReached(g: Memory, rank: map<Ptr, nat>, keyAt: map<Class, nat>,
      ps: seq<Option<Ptr>>, bound: nat, j: nat) returns (x: Ptr)
    requires Graph(g, rank, keyAt) && FieldBelow(g, rank, Pointers(ps), bound) && j < |EntryIds(g, keyAt, ps)|
    ensures x in g && rank[x] < bound && IdOf(g, keyAt, x) == EntryIds(g, keyAt, ps)[j]
    ensures IdOf(g, keyAt, x) in ReachList(g, rank, keyAt, ps, bound)
    decreases |ps|
  {
    var init, last := ps[..|ps| - 1], ps[|ps| - 1];
    if j < |EntryIds(g, keyAt, init)| {
      x := EntriesReached(g, rank, keyAt, init, bound, j);
    } else {
      x := last.value;
      ReachHasRoot(g, rank, keyAt, x, |g[x].fields|);
    }
  }

  lemma {:induction false} TimesHasSame(s: seq<Id>, n: nat, j: nat) returns (i: nat)
    requires j < |Times(s, n)|
    ensures i < |s| && s[i] == Times(s, n)[j]
    decreases n
  {
    if j < |Times(s, n - 1)| {
      i := TimesHasSame(s, n - 1, j);
    } else {
      i := j - |Times(s, n - 1)|;
    }
  }

  // ----- rows as the import leaves them -----

  /** What cell `i` of the row of `q` holds after importing `root` to a store without the
      objects it reaches. */
  ghost function Mirror(t: Snapshot, g: Memory, rank: map<Ptr, nat>, keyAt: map<Class, nat>, root: Ptr, q: Ptr, i: nat): Cell
    requires Graph(g, rank, keyAt) && root in g && q in g && i < |g[q].fields|
  {
    match g[q].fields[i]
    case Scalar(v) => ScalarCell(v)
    case Values(vs) => ValuesCell(vs)
    case Pointer(None) => LinkCell(None)
    case Pointer(Some(x)) =>
      LinkCell(Some(if x in g && IdOf(g, keyAt, x) in t.index then t.index[IdOf(g, keyAt, x)] else 0))
    case Pointers(_) => LinksCell(KeysOf(t.index, Grown(g, rank, keyAt, root)(q, i)))
  }

  ghost predicate MirroredRow(t: Snapshot, g: Memory, rank: map<Ptr, nat>, keyAt: map<Class, nat>, root: Ptr, q: Ptr)
    requires Graph(g, rank, keyAt) && root in g && q in g
  {
    var id := IdOf(g, keyAt, q);
    && id in t.index && t.index[id] in t.rows && t.rows[t.index[id]].cls == g[q].cls
    && |t.rows[t.index[id]].cells| == |g[q].fields|
    && forall i :: 0 <= i < |g[q].fields| ==> t.rows[t.index[id]].cells[i] == Mirror(t, g, rank, keyAt, root, q, i)
  }

  ghost predicate AllMirrored(t: Snapshot, g: Memory, rank: map<Ptr, nat>, keyAt: map<Class, nat>, root: Ptr)
    requires Graph(g, rank, keyAt) && root in g
  {
    forall q :: q in g && IdOf(g, keyAt, q) in Reach(g, rank, keyAt, root) ==> MirroredRow(t, g, rank, keyAt, root, q)
  }

  /** None of the objects is in the store yet. */
  ghost predicate Absent(t: Snapshot, ids: set<Id>) {
    forall id :: id in ids ==> id !in t.index
  }

  lemma MirroredByAdd(b: Snapshot, a: Snapshot, g: Memory, rank: map<Ptr, nat>, keyAt: map<Class, nat>, root: Ptr)
    requires Graph(g, rank, keyAt) && NoPrimitiveLists(g) && root in g && IndexMatches(a.rows, a.index)
    requires Absent(b, Reach(g, rank, keyAt, root)) && AllReflect(a, g, keyAt, Reach(g, rank, keyAt, root))
    requires AllNullsClear(a, g, keyAt, Reach(g, rank, keyAt, root))
    requires ListsGrew(b, a, g, keyAt, Grown(g, rank, keyAt, root))
    ensures AllMirrored(a, g, rank, keyAt, root)
  {
    forall q | q in g && IdOf(g, keyAt, q) in Reach(g, rank, keyAt, root)
      ensures MirroredRow(a, g, rank, keyAt, root, q)
    {
      assert Reflects(a, g, keyAt, q) && NullsClear(a, g, keyAt, q);
      var row := a.rows[a.index[IdOf(g, keyAt, q)]];
      forall i | 0 <= i < |g[q].fields| ensures row.cells[i] == Mirror(a, g, rank, keyAt, root, q, i) {
        CellMirrored(b, a, g, rank, keyAt, root, q, i);
      }
    }
  }

  lemma CellMirrored(b: Snapshot, a: Snapshot, g: Memory, rank: map<Ptr, nat>, keyAt: map<Class, nat>, root: Ptr,
      q: Ptr, i: nat)
    requires Graph(g, rank, keyAt) && NoPrimitiveLists(g) && root in g && q in g && i < |g[q].fields|
    requires IdOf(g, keyAt, q) !in b.index && Reflects(a, g, keyAt, q) && NullsClear(a, g, keyAt, q)
    requires ListsGrew(b, a, g, keyAt, Grown(g, rank, keyAt, root))
    ensures a.rows[a.index[IdOf(g, keyAt, q)]].cells[i] == Mirror(a, g, rank, keyAt, root, q, i)
  {
    var row := a.rows[a.index[IdOf(g, keyAt, q)]];
    assert Shows(a.index, g, keyAt, g[q].fields[i], row.cells[i]);
    match g[q].fields[i]
    case Scalar(_) =>
    case Pointer(None) => assert NullCell(a, g, keyAt, q, i) == row.cells[i];
    case Pointer(Some(_)) =>
    case Pointers(_) =>
      var ids := Grown(g, rank, keyAt, root)(q, i);
      assert LinksIn(a, g, keyAt, q, i) == row.cells[i].links;
      assert LinksIn(a, g, keyAt, q, i) == [] + KeysOf(a.index, ids) == KeysOf(a.index, ids);
  }

  // ----- reading the rows -----

  /** The rows of the objects reached, ranked as the objects are. */
  ghost function RowRanks(t: Snapshot, g: Memory, rank: map<Ptr, nat>, keyAt: map<Class, nat>, ids: set<Id>): map<Key, nat>
    requires Graph(g, rank, keyAt) && DistinctIds(g, keyAt) && IndexMatches(t.rows, t.index)
  {
    map q | q in g && IdOf(g, keyAt, q) in ids && IdOf(g, keyAt, q) in t.index :: t.index[IdOf(g, keyAt, q)] := rank[q]
  }

  lemma Ranked(t: Snapshot, g: Memory, rank: map<Ptr, nat>, keyAt: map<Class, nat>, ids: set<Id>, q: Ptr)
    requires Graph(g, rank, keyAt) && DistinctIds(g, keyAt) && IndexMatches(t.rows, t.index)
    requires q in g && IdOf(g, keyAt, q) in ids && IdOf(g, keyAt, q) in t.index
    ensures var rr, k := RowRanks(t, g, rank, keyAt, ids), t.index[IdOf(g, keyAt, q)];
      k in rr && rr[k] == rank[q]
  {
  }

  /** Shared hypotheses of the lemmas below. */
  ghost predicate Readable(t: Snapshot, g: Memory, rank: map<Ptr, nat>, keyAt: map<Class, nat>, root: Ptr) {
    && Graph(g, rank, keyAt) && DistinctIds(g, keyAt) && NoPrimitiveLists(g) && root in g
    && IndexMatches(t.rows, t.index) && AllMirrored(t, g, rank, keyAt, root)
  }

  ghost function Ranks(t: Snapshot, g: Memory, rank: map<Ptr, nat>, keyAt: map<Class, nat>, root: Ptr): map<Key, nat>
    requires Readable(t, g, rank, keyAt, root)
  {
    RowRanks(t, g, rank, keyAt, Reach(g, rank, keyAt, root))
  }

  /** Links lead to the rows of objects of smaller rank. */
  lemma RowsSink(t: Snapshot, g: Memory, rank: map<Ptr, nat>, keyAt: map<Class, nat>, root: Ptr)
    requires Readable(t, g, rank, keyAt, root)
    ensures Sinking(t.rows, Ranks(t, g, rank, keyAt, root))
  {
    var rr := Ranks(t, g, rank, keyAt, root);
    forall k | k in rr ensures k in t.rows && RowBelow(t.rows[k], rr, rr[k]) {
      var q :| q in g && IdOf(g, keyAt, q) in Reach(g, rank, keyAt, root) && IdOf(g, keyAt, q) in t.index
               && t.index[IdOf(g, keyAt, q)] == k;
      Ranked(t, g, rank, keyAt, Reach(g, rank, keyAt, root), q);
      assert MirroredRow(t, g, rank, keyAt, root, q);
      forall i | 0 <= i < |t.rows[k].cells| ensures CellBelow(t.rows[k].cells[i], rr, rr[k]) {
        CellSinks(t, g, rank, keyAt, root, q, i);
      }
    }
  }

  lemma CellSinks(t: Snapshot, g: Memory, rank: map<Ptr, nat>, keyAt: map<Class, nat>, root: Ptr, q: Ptr, i: nat)
    requires Readable(t, g, rank, keyAt, root) && q in g && i < |g[q].fields|
    requires IdOf(g, keyAt, q) in Reach(g, rank, keyAt, root)
    ensures CellBelow(Mirror(t, g, rank, keyAt, root, q, i), Ranks(t, g, rank, keyAt, root), rank[q])
  {
    ReachFromReached(g, rank, keyAt, root, q);
    match g[q].fields[i]
    case Scalar(_) =>
    case Pointer(None) =>
    case Pointer(Some(x)) =>
      TargetReached(g, rank, keyAt, q, i, x);
      TargetSinks(t, g, rank, keyAt, root, x);
    case Pointers(ps) =>
      ListReached(g, rank, keyAt, q, i, ps);
      var ids := Grown(g, rank, keyAt, root)(q, i);
      var rr := Ranks(t, g, rank, keyAt, root);
      forall j | 0 <= j < |ids| ensures ids[j] in t.index && t.index[ids[j]] in rr && rr[t.index[ids[j]]] < rank[q] {
        var m := TimesHasSame(EntryIds(g, keyAt, ps), Paths(g, rank, root, q), j);
        var x := EntriesReached(g, rank, keyAt, ps, rank[q], m);
        TargetSinks(t, g, rank, keyAt, root, x);
      }
  }

  lemma TargetSinks(t: Snapshot, g: Memory, rank: map<Ptr, nat>, keyAt: map<Class, nat>, root: Ptr, x: Ptr)
    requires Readable(t, g, rank, keyAt, root) && x in g && IdOf(g, keyAt, x) in Reach(g, rank, keyAt, root)
    ensures IdOf(g, keyAt, x) in t.index
    ensures var rr, k := Ranks(t, g, rank, keyAt, root), t.index[IdOf(g, keyAt, x)];
      k in rr && rr[k] == rank[x]
  {
    assert MirroredRow(t, g, rank, keyAt, root, x);
    Ranked(t, g, rank, keyAt, Reach(g, rank, keyAt, root), x);
  }

  // ----- the tree that is read back -----

  /** No object of these that has entries in a list is reached along two paths from the root. */
  ghost predicate SingleLists(g: Memory, rank: map<Ptr, nat>, keyAt: map<Class, nat>, root: Ptr, ids: set<Id>)
    requires Graph(g, rank, keyAt) && root in g
  {
    forall q, i: nat :: q in g && IdOf(g, keyAt, q) in ids && i < |g[q].fields| ==> Single(g, rank, keyAt, root, q, i)
  }

  ghost predicate Single(g: Memory, rank: map<Ptr, nat>, keyAt: map<Class, nat>, root: Ptr, q: Ptr, i: nat)
    requires Graph(g, rank, keyAt) && root in g
  {
    ListIds(g, rank, keyAt, q, i) == [] || Paths(g, rank, root, q) == 1
  }

  /** An object reached, and its row. */
  ghost predicate Reached(t: Snapshot, g: Memory, rank: map<Ptr, nat>, keyAt: map<Class, nat>, root: Ptr, q: Ptr)
    requires Readable(t, g, rank, keyAt, root)
  {
    && q in g && IdOf(g, keyAt, q) in Reach(g, rank, keyAt, root)
    && MirroredRow(t, g, rank, keyAt, root, q)
  }

  ghost function ShapeOf(t: Snapshot, g: Memory, rank: map<Ptr, nat>, keyAt: map<Class, nat>, root: Ptr, q: Ptr): Tree
    requires Readable(t, g, rank, keyAt, root) && Reached(t, g, rank, keyAt, root, q)
  {
    RowsSink(t, g, rank, keyAt, root);
    TargetSinks(t, g, rank, keyAt, root, q);
    Shape(t.rows, Ranks(t, g, rank, keyAt, root), t.index[IdOf(g, keyAt, q)])
  }

  ghost function BranchOf(t: Snapshot, g: Memory, rank: map<Ptr, nat>, keyAt: map<Class, nat>, root: Ptr,
      q: Ptr, i: nat): Branch
    requires Readable(t, g, rank, keyAt, root) && Reached(t, g, rank, keyAt, root, q) && i < |g[q].fields|
  {
    RowsSink(t, g, rank, keyAt, root);
    CellSinks(t, g, rank, keyAt, root, q, i);
    CellShape(t.rows, Ranks(t, g, rank, keyAt, root), Mirror(t, g, rank, keyAt, root, q, i), rank[q])
  }

  ghost function ListOf(t: Snapshot, g: Memory, rank: map<Ptr, nat>, keyAt: map<Class, nat>, root: Ptr,
      ps: seq<Option<Ptr>>, bound: nat): seq<Tree>
    requires Readable(t, g, rank, keyAt, root) && FieldBelow(g, rank, Pointers(ps), bound)
    requires ReachList(g, rank, keyAt, ps, bound) <= Reach(g, rank, keyAt, root)
  {
    RowsSink(t, g, rank, keyAt, root);
    EntriesSink(t, g, rank, keyAt, root, ps, bound);
    ListShape(t.rows, Ranks(t, g, rank, keyAt, root), KeysOf(t.index, EntryIds(g, keyAt, ps)), bound)
  }

  lemma EntriesSink(t: Snapshot, g: Memory, rank: map<Ptr, nat>, keyAt: map<Class, nat>, root: Ptr,
      ps: seq<Option<Ptr>>, bound: nat)
    requires Readable(t, g, rank, keyAt, root) && FieldBelow(g, rank, Pointers(ps), bound)
    requires ReachList(g, rank, keyAt, ps, bound) <= Reach(g, rank, keyAt, root)
    ensures CellBelow(LinksCell(KeysOf(t.index, EntryIds(g, keyAt, ps))), Ranks(t, g, rank, keyAt, root), bound)
  {
    var ids := EntryIds(g, keyAt, ps);
    forall j | 0 <= j < |ids|
      ensures ids[j] in t.index && t.index[ids[j]] in Ranks(t, g, rank, keyAt, root)
      ensures Ranks(t, g, rank, keyAt, root)[t.index[ids[j]]] < bound
    {
      var x := EntriesReached(g, rank, keyAt, ps, bound, j);
      TargetSinks(t, g, rank, keyAt, root, x);
    }
  }

  /** A row's tree, branch by branch. */
  lemma ShapeBranches(t: Snapshot, g: Memory, rank: map<Ptr, nat>, keyAt: map<Class, nat>, root: Ptr, q: Ptr)
    requires Readable(t, g, rank, keyAt, root) && Reached(t, g, rank, keyAt, root, q)
    ensures var shape := ShapeOf(t, g, rank, keyAt, root, q);
      && shape.cls == g[q].cls && |shape.branches| == |g[q].fields|
      && forall i :: 0 <= i < |g[q].fields| ==> shape.branches[i] == BranchOf(t, g, rank, keyAt, root, q, i)
  {
    RowsSink(t, g, rank, keyAt, root);
    TargetSinks(t, g, rank, keyAt, root, q);
    var rr, k := Ranks(t, g, rank, keyAt, root), t.index[IdOf(g, keyAt, q)];
    forall i | 0 <= i < |g[q].fields|
      ensures ShapeOf(t, g, rank, keyAt, root, q).branches[i] == BranchOf(t, g, rank, keyAt, root, q, i)
    {
      assert RowBelow(t.rows[k], rr, rr[k]);
      CellShapesAt(t.rows, rr, t.rows[k].cells, rank[q], i);
    }
  }

  lemma {:induction false} UnfoldFieldsAt(g: Memory, rank: map<Ptr, nat>, fs: seq<Field>, bound: nat, i: nat)
    requires Acyclic(g, rank) && i < |fs| && forall j :: 0 <= j < |fs| ==> FieldBelow(g, rank, fs[j], bound)
    ensures UnfoldFields(g, rank, fs, bound)[i] == UnfoldField(g, rank, fs[i], bound)
    decreases |fs|
  {
    if i < |fs| - 1 {
      UnfoldFieldsAt(g, rank, fs[..|fs| - 1], bound, i);
    }
  }

  lemma UnfoldBranches(g: Memory, rank: map<Ptr, nat>, q: Ptr)
    requires Acyclic(g, rank) && q in g
    ensures var tree := Unfold(g, rank, q);
      && tree.cls == g[q].cls && |tree.branches| == |g[q].fields|
      && forall i :: 0 <= i < |g[q].fields| ==>
           FieldBelow(g, rank, g[q].fields[i], rank[q]) && tree.branches[i] == UnfoldField(g, rank, g[q].fields[i], rank[q])
  {
    forall i | 0 <= i < |g[q].fields|
      ensures FieldBelow(g, rank, g[q].fields[i], rank[q])
      ensures Unfold(g, rank, q).branches[i] == UnfoldField(g, rank, g[q].fields[i], rank[q])
    {
      UnfoldFieldsAt(g, rank, g[q].fields, rank[q], i);
    }
  }

  lemma TargetIsReached(t: Snapshot, g: Memory, rank: map<Ptr, nat>, keyAt: map<Class, nat>, root: Ptr, q: Ptr, i: nat, x: Ptr)
    requires Readable(t, g, rank, keyAt, root) && Reached(t, g, rank, keyAt, root, q)
    requires i < |g[q].fields| && g[q].fields[i] == Pointer(Some(x))
    ensures Reached(t, g, rank, keyAt, root, x) && rank[x] < rank[q]
    ensures Reach(g, rank, keyAt, x) <= Reach(g, rank, keyAt, q)
    ensures BranchOf(t, g, rank, keyAt, root, q, i) == Child(Some(ShapeOf(t, g, rank, keyAt, root, x)))
  {
    ReachFromReached(g, rank, keyAt, root, q);
    TargetReached(g, rank, keyAt, q, i, x);
    TargetSinks(t, g, rank, keyAt, root, x);
  }

  lemma ListIsReached(t: Snapshot, g: Memory, rank: map<Ptr, nat>, keyAt: map<Class, nat>, root: Ptr, q: Ptr, i: nat,
      ps: seq<Option<Ptr>>)
    requires Readable(t, g, rank, keyAt, root) && Reached(t, g, rank, keyAt, root, q)
    requires i < |g[q].fields| && g[q].fields[i] == Pointers(ps)
    ensures FieldBelow(g, rank, Pointers(ps), rank[q])
    ensures ReachList(g, rank, keyAt, ps, rank[q]) <= Reach(g, rank, keyAt, q) <= Reach(g, rank, keyAt, root)
    ensures BranchOf(t, g, rank, keyAt, root, q, i).Children?
    ensures |BranchOf(t, g, rank, keyAt, root, q, i).children| == Paths(g, rank, root, q) * |EntryIds(g, keyAt, ps)|
    ensures Single(g, rank, keyAt, root, q, i) ==>
      BranchOf(t, g, rank, keyAt, root, q, i) == Children(ListOf(t, g, rank, keyAt, root, ps, rank[q]))
  {
    ReachFromReached(g, rank, keyAt, root, q);
    ListReached(g, rank, keyAt, q, i, ps);
    TimesOnce(EntryIds(g, keyAt, ps), Paths(g, rank, root, q));
  }

  /** Where lists are single, the stored tree is the unfolding. */
  lemma {:induction false} ReadsBack(t: Snapshot, g: Memory, rank: map<Ptr, nat>, keyAt: map<Class, nat>, root: Ptr, q: Ptr)
    requires Readable(t, g, rank, keyAt, root) && Reached(t, g, rank, keyAt, root, q)
    requires SingleLists(g, rank, keyAt, root, Reach(g, rank, keyAt, q))
    ensures ShapeOf(t, g, rank, keyAt, root, q) == Unfold(g, rank, q)
    decreases rank[q], 2
  {
    ShapeBranches(t, g, rank, keyAt, root, q);
    UnfoldBranches(g, rank, q);
    forall i | 0 <= i < |g[q].fields|
      ensures BranchOf(t, g, rank, keyAt, root, q, i) == UnfoldField(g, rank, g[q].fields[i], rank[q])
    {
      FieldReadsBack(t, g, rank, keyAt, root, q, i);
    }
    assert ShapeOf(t, g, rank, keyAt, root, q).branches == Unfold(g, rank, q).branches;
  }

  lemma {:induction false} FieldReadsBack(t: Snapshot, g: Memory, rank: map<Ptr, nat>, keyAt: map<Class, nat>, root: Ptr,
      q: Ptr, i: nat)
    requires Readable(t, g, rank, keyAt, root) && Reached(t, g, rank, keyAt, root, q) && i < |g[q].fields|
    requires SingleLists(g, rank, keyAt, root, Reach(g, rank, keyAt, q)) && FieldBelow(g, rank, g[q].fields[i], rank[q])
    ensures BranchOf(t, g, rank, keyAt, root, q, i) == UnfoldField(g, rank, g[q].fields[i], rank[q])
    decreases rank[q], 1
  {
    match g[q].fields[i]
    case Scalar(_) =>
    case Pointer(None) =>
    case Pointer(Some(x)) =>
      TargetIsReached(t, g, rank, keyAt, root, q, i, x);
      ReadsBack(t, g, rank, keyAt, root, x);
    case Pointers(ps) =>
      ListIsReached(t, g, rank, keyAt, root, q, i, ps);
      ReachHasRoot(g, rank, keyAt, q, |g[q].fields|);
      assert Single(g, rank, keyAt, root, q, i);
      ListReadsBack(t, g, rank, keyAt, root, ps, rank[q]);
  }

  lemma {:induction false} ListReadsBack(t: Snapshot, g: Memory, rank: map<Ptr, nat>, keyAt: map<Class, nat>, root: Ptr,
      ps: seq<Option<Ptr>>, bound: nat)
    requires Readable(t, g, rank, keyAt, root) && FieldBelow(g, rank, Pointers(ps), bound)
    requires ReachList(g, rank, keyAt, ps, bound) <= Reach(g, rank, keyAt, root)
    requires SingleLists(g, rank, keyAt, root, ReachList(g, rank, keyAt, ps, bound))
    ensures ListOf(t, g, rank, keyAt, root, ps, bound) == UnfoldList(g, rank, ps, bound)
    decreases bound, 0, |ps|
  {
    if ps != [] {
      var init, last := ps[..|ps| - 1], ps[|ps| - 1];
      ListReadsBack(t, g, rank, keyAt, root, init, bound);
      ListSplits(t, g, rank, keyAt, root, ps, bound);
      if last.Some? {
        ReadsBack(t, g, rank, keyAt, root, last.value);
      }
    }
  }

  /** The trees of a list are those of its front and of its last entry. */
  lemma ListSplits(t: Snapshot, g: Memory, rank: map<Ptr, nat>, keyAt: map<Class, nat>, root: Ptr,
      ps: seq<Option<Ptr>>, bound: nat)
    requires Readable(t, g, rank, keyAt, root) && FieldBelow(g, rank, Pointers(ps), bound) && ps != []
    requires ReachList(g, rank, keyAt, ps, bound) <= Reach(g, rank, keyAt, root)
    ensures var init, last := ps[..|ps| - 1], ps[|ps| - 1];
      && ReachList(g, rank, keyAt, init, bound) <= ReachList(g, rank, keyAt, ps, bound)
      && (last.None? ==> ListOf(t, g, rank, keyAt, root, ps, bound) == ListOf(t, g, rank, keyAt, root, init, bound))
      && (last.Some? ==>
           && Reached(t, g, rank, keyAt, root, last.value) && rank[last.value] < bound
           && Reach(g, rank, keyAt, last.value) <= ReachList(g, rank, keyAt, ps, bound)
           && ListOf(t, g, rank, keyAt, root, ps, bound)
              == ListOf(t, g, rank, keyAt, root, init, bound) + [ShapeOf(t, g, rank, keyAt, root, last.value)])
  {
    var init, last := ps[..|ps| - 1], ps[|ps| - 1];
    if last.None? {
      assert EntryIds(g, keyAt, init) + [] == EntryIds(g, keyAt, init);
    } else {
      var x := last.value;
      ReachHasRoot(g, rank, keyAt, x, |g[x].fields|);
      TargetSinks(t, g, rank, keyAt, root, x);
      var keys := KeysOf(t.index, EntryIds(g, keyAt, init));
      assert KeysOf(t.index, EntryIds(g, keyAt, ps)) == keys + [t.index[IdOf(g, keyAt, x)]];
      assert (keys + [t.index[IdOf(g, keyAt, x)]])[..|keys|] == keys;
    }
  }

  /** Conversely, only where lists are single. */
  lemma {:induction false} ReadsBackOnly(t: Snapshot, g: Memory, rank: map<Ptr, nat>, keyAt: map<Class, nat>, root: Ptr, q: Ptr)
    requires Readable(t, g, rank, keyAt, root) && Reached(t, g, rank, keyAt, root, q)
    requires ShapeOf(t, g, rank, keyAt, root, q) == Unfold(g, rank, q)
    ensures SingleLists(g, rank, keyAt, root, Reach(g, rank, keyAt, q))
    decreases rank[q], 3
  {
    ShapeBranches(t, g, rank, keyAt, root, q);
    UnfoldBranches(g, rank, q);
    FieldsReadBackOnly(t, g, rank, keyAt, root, q, |g[q].fields|);
  }

  lemma {:induction false} FieldsReadBackOnly(t: Snapshot, g: Memory, rank: map<Ptr, nat>, keyAt: map<Class, nat>, root: Ptr,
      q: Ptr, n: nat)
    requires Readable(t, g, rank, keyAt, root) && Reached(t, g, rank, keyAt, root, q) && n <= |g[q].fields|
    requires forall i :: 0 <= i < |g[q].fields| ==> FieldBelow(g, rank, g[q].fields[i], rank[q])
    requires forall i :: 0 <= i < |g[q].fields| ==>
      BranchOf(t, g, rank, keyAt, root, q, i) == UnfoldField(g, rank, g[q].fields[i], rank[q])
    ensures forall i: nat :: i < n ==> Single(g, rank, keyAt, root, q, i)
    ensures SingleLists(g, rank, keyAt, root, ReachVia(g, rank, keyAt, q, n) - {IdOf(g, keyAt, q)})
    decreases rank[q], 2, n
  {
    if n > 0 {
      FieldsReadBackOnly(t, g, rank, keyAt, root, q, n - 1);
      match g[q].fields[n - 1]
      case Scalar(_) =>
      case Pointer(None) =>
      case Pointer(Some(x)) =>
        TargetIsReached(t, g, rank, keyAt, root, q, n - 1, x);
        assert BranchOf(t, g, rank, keyAt, root, q, n - 1) == UnfoldField(g, rank, g[q].fields[n - 1], rank[q]);
        ReadsBackOnly(t, g, rank, keyAt, root, x);
      case Pointers(ps) =>
        ListReadsBackFrom(t, g, rank, keyAt, root, q, n - 1, ps);
    }
  }

  lemma {:induction false} ListReadsBackFrom(t: Snapshot, g: Memory, rank: map<Ptr, nat>, keyAt: map<Class, nat>, root: Ptr,
      q: Ptr, i: nat, ps: seq<Option<Ptr>>)
    requires Readable(t, g, rank, keyAt, root) && Reached(t, g, rank, keyAt, root, q)
    requires i < |g[q].fields| && g[q].fields[i] == Pointers(ps) && FieldBelow(g, rank, g[q].fields[i], rank[q])
    requires BranchOf(t, g, rank, keyAt, root, q, i) == UnfoldField(g, rank, g[q].fields[i], rank[q])
    ensures Single(g, rank, keyAt, root, q, i)
    ensures SingleLists(g, rank, keyAt, root, ReachList(g, rank, keyAt, ps, rank[q]))
    decreases rank[q], 1
  {
    ListIsReached(t, g, rank, keyAt, root, q, i, ps);
    EntriesCounted(g, rank, keyAt, ps, rank[q]);
    OneTime(Paths(g, rank, root, q), |EntryIds(g, keyAt, ps)|);
    ListReadsBackOnly(t, g, rank, keyAt, root, ps, rank[q]);
  }

  lemma OneTime(n: nat, m: nat)
    requires n * m == m
    ensures m == 0 || n == 1
  {
    assert (n - 1) * m == n * m - m;
  }

  lemma {:induction false} EntriesCounted(g: Memory, rank: map<Ptr, nat>, keyAt: map<Class, nat>,
      ps: seq<Option<Ptr>>, bound: nat)
    requires Graph(g, rank, keyAt) && FieldBelow(g, rank, Pointers(ps), bound)
    ensures |UnfoldList(g, rank, ps, bound)| == |EntryIds(g, keyAt, ps)|
    decreases |ps|
  {
    if ps != [] {
      EntriesCounted(g, rank, keyAt, ps[..|ps| - 1], bound);
    }
  }

  lemma {:induction false} ListReadsBackOnly(t: Snapshot, g: Memory, rank: map<Ptr, nat>, keyAt: map<Class, nat>, root: Ptr,
      ps: seq<Option<Ptr>>, bound: nat)
    requires Readable(t, g, rank, keyAt, root) && FieldBelow(g, rank, Pointers(ps), bound)
    requires ReachList(g, rank, keyAt, ps, bound) <= Reach(g, rank, keyAt, root)
    requires ListOf(t, g, rank, keyAt, root, ps, bound) == UnfoldList(g, rank, ps, bound)
    ensures SingleLists(g, rank, keyAt, root, ReachList(g, rank, keyAt, ps, bound))
    decreases bound, 0, |ps|
  {
    if ps != [] {
      var init, last := ps[..|ps| - 1], ps[|ps| - 1];
      ListSplits(t, g, rank, keyAt, root, ps, bound);
      if last.Some? {
        SameEnds(ListOf(t, g, rank, keyAt, root, init, bound), ShapeOf(t, g, rank, keyAt, root, last.value),
          UnfoldList(g, rank, init, bound), Unfold(g, rank, last.value));
        ReadsBackOnly(t, g, rank, keyAt, root, last.value);
      }
      ListReadsBackOnly(t, g, rank, keyAt, root, init, bound);
    }
  }

  lemma SameEnds(s: seq<Tree>, x: Tree, t: seq<Tree>, y: Tree)
    requires s + [x] == t + [y]
    ensures s == t && x == y
  {
    assert |s + [x]| == |t + [y]|;
    assert (s + [x])[|s|] == x && (t + [y])[|t|] == y;
    assert s == (s + [x])[..|s|] == (t + [y])[..|t|] == t;
  }

  /** The round trip of keyed objects, on a store that has none of them yet. */
  method AddThenDetach(s: Store, g: Memory, ghost rank: map<Ptr, nat>, keyAt: map<Class, nat>, root: Ptr)
    returns (k: Key, t: Option<Tree>)
    requires s.Valid() && Graph(g, rank, keyAt) && DistinctIds(g, keyAt) && NoPrimitiveLists(g) && Typed(s.schema, g)
    requires root in g && Absent(Snap(s), Reach(g, rank, keyAt, root))
    modifies s
    ensures t == Some(Unfold(g, rank, root))
            <==> Full(Unfold(g, rank, root)) && SingleLists(g, rank, keyAt, root, Reach(g, rank, keyAt, root))
    ensures SingleLists(g, rank, keyAt, root, Reach(g, rank, keyAt, root)) ==> t == Exported(Unfold(g, rank, root))
    ensures (t.Some? && TreeShows(g, root, t.value))
            <==> NoNullReached(g, root) && SingleLists(g, rank, keyAt, root, Reach(g, rank, keyAt, root))
    ensures s.Valid() && RowsKept(old(Snap(s)), Snap(s), Reach(g, rank, keyAt, root))
  {
    ghost var start := Snap(s);
    k := Add(s, g, rank, keyAt, root);
    AbsentIsClear(start, g, keyAt, Reach(g, rank, keyAt, root));
    MirroredByAdd(start, Snap(s), g, rank, keyAt, root);
    ReachHasRoot(g, rank, keyAt, root, |g[root].fields|);
    RowsSink(Snap(s), g, rank, keyAt, root);
    TargetSinks(Snap(s), g, rank, keyAt, root, root);
    t := Detach(s, Ranks(Snap(s), g, rank, keyAt, root), k);
    RoundTripIsExact(Snap(s), g, rank, keyAt, root);
    ShowsOrNot(g, rank, root, t);
  }

  /** Showing the structure is being its unfolding. */
  lemma ShowsOrNot(g: Memory, rank: map<Ptr, nat>, p: Ptr, t: Option<Tree>)
    requires Acyclic(g, rank) && p in g
    ensures (t.Some? && TreeShows(g, p, t.value)) <==> t == Some(Unfold(g, rank, p))
    ensures Full(Unfold(g, rank, p)) <==> NoNullReached(g, p)
  {
    UnfoldShows(g, rank, p);
    FullIsNoNull(g, rank, p);
    if t.Some? && TreeShows(g, p, t.value) {
      OnlyUnfoldShows(g, rank, p, t.value);
    }
  }

  lemma AbsentIsClear(t: Snapshot, g: Memory, keyAt: map<Class, nat>, ids: set<Id>)
    requires AllKeyed(g, keyAt) && Absent(t, ids)
    ensures AllNullsClear(t, g, keyAt, ids)
  {
  }

  lemma RoundTripIsExact(t: Snapshot, g: Memory, rank: map<Ptr, nat>, keyAt: map<Class, nat>, root: Ptr)
    requires Readable(t, g, rank, keyAt, root) && Reached(t, g, rank, keyAt, root, root)
    ensures ShapeOf(t, g, rank, keyAt, root, root) == Unfold(g, rank, root)
            <==> SingleLists(g, rank, keyAt, root, Reach(g, rank, keyAt, root))
  {
    if SingleLists(g, rank, keyAt, root, Reach(g, rank, keyAt, root)) {
      ReadsBack(t, g, rank, keyAt, root, root);
    } else if ShapeOf(t, g, rank, keyAt, root, root) == Unfold(g, rank, root) {
      ReadsBackOnly(t, g, rank, keyAt, root, root);
    }
  }
}
