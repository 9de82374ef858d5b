/** Pointer paths, and what trees and rows hold at the end of them: the values of the object
    that the path leads to, property by property. */
module GraphPaths {
  import opened GraphStore
  import opened GraphTrees
  import opened Options

  /** Following one pointer: a `T*` property, or one entry of a list. */
  datatype Hop = Hop(property: nat, entry: nat)

  type PointerPath = seq<Hop>

  function HopFrom(g: Memory, p: Ptr, h: Hop): Option<Ptr> {
    if p !in g || h.property >= |g[p].fields| then None
    else
      match g[p].fields[h.property]
      case Pointer(q) => q
      case Pointers(ps) => if h.entry < |ps| then ps[h.entry] else None
      case _ => None
  }

  /** The object at the end of a path without null pointers. */
  function Reached(g: Memory, p: Ptr, path: PointerPath): Option<Ptr>
    decreases |path|
  {
    if path == [] then Some(p)
    else
      var q := HopFrom(g, p, path[0]);
      if q.None? then None else Reached(g, q.value, path[1..])
  }

  /** How many of the first `e` entries are not null: where entry `e` is stored. */
  function StoredBefore(ps: seq<Option<Ptr>>, e: nat): nat
    requires e <= |ps|
  {
    if e == 0 then 0 else StoredBefore(ps, e - 1) + (if ps[e - 1].Some? then 1 else 0)
  }

  // ----- trees -----

  /** A node has the class and the values of the object, and a subtree for every pointer that
      is not null. */
  predicate NodeShows(t: Tree, s: Struct) {
    && t.cls == s.cls && |t.branches| == |s.fields|
    && forall i :: 0 <= i < |s.fields| ==> BranchShows(t.branches[i], s.fields[i])
  }

  predicate BranchShows(b: Branch, f: Field) {
    match f
    case Scalar(v) => b == ScalarBranch(v)
    case Values(vs) => b == ValuesBranch(vs)
    case Pointer(p) => b.Child? && (b.child.Some? <==> p.Some?)
    case Pointers(ps) => b.Children? && |b.children| == StoredBefore(ps, |ps|)
  }

  function TreeHop(t: Tree, s: Struct, h: Hop): Option<Tree> {
    if h.property >= |t.branches| || h.property >= |s.fields| then None
    else
      match (s.fields[h.property], t.branches[h.property])
      case (Pointer(_), Child(child)) => child
      case (Pointers(ps), Children(ts)) =>
        if h.entry < |ps| && StoredBefore(ps, h.entry) < |ts| then Some(ts[StoredBefore(ps, h.entry)]) else None
      case _ => None
  }

  /** The subtree where a pointer path from `p` leads in a tree for `p`. */
  function TreeAlong(g: Memory, p: Ptr, t: Tree, path: PointerPath): Option<Tree>
    decreases |path|
  {
    if path == [] then Some(t)
    else
      var q := HopFrom(g, p, path[0]);
      if q.None? then None
      else
        var u := TreeHop(t, g[p], path[0]);
        if u.None? then None else TreeAlong(g, q.value, u.value, path[1..])
  }

  ghost predicate TreeShowsAt(g: Memory, p: Ptr, t: Tree, path: PointerPath) {
    var q, u := Reached(g, p, path), TreeAlong(g, p, t, path);
    q.Some? ==> q.value in g && u.Some? && NodeShows(u.value, g[q.value])
  }

  /** The tree shows every object reached, along every path that leads to it. */
  ghost predicate TreeShows(g: Memory, p: Ptr, t: Tree) {
    forall path :: TreeShowsAt(g, p, t, path)
  }

  // ----- rows -----

  predicate RowShows(row: Row, s: Struct) {
    && row.cls == s.cls && |row.cells| == |s.fields|
    && forall i :: 0 <= i < |s.fields| ==> CellShows(row.cells[i], s.fields[i])
  }

  predicate CellShows(c: Cell, f: Field) {
    match f
    case Scalar(v) => c == ScalarCell(v)
    case Values(vs) => c == ValuesCell(vs)
    case Pointer(p) => c.LinkCell? && (c.link.Some? <==> p.Some?)
    case Pointers(ps) => c.LinksCell? && |c.links| == StoredBefore(ps, |ps|)
  }

  function RowHop(row: Row, s: Struct, h: Hop): Option<Key> {
    if h.property >= |row.cells| || h.property >= |s.fields| then None
    else
      match (s.fields[h.property], row.cells[h.property])
      case (Pointer(_), LinkCell(link)) => link
      case (Pointers(ps), LinksCell(ls)) =>
        if h.entry < |ps| && StoredBefore(ps, h.entry) < |ls| then Some(ls[StoredBefore(ps, h.entry)]) else None
      case _ => None
  }

  /** The row where a pointer path from `p` leads from a row for `p`. */
  function RowAlong(g: Memory, p: Ptr, rows: Rows, k: Key, path: PointerPath): Option<Key>
    decreases |path|
  {
    if path == [] then Some(k)
    else
      var q := HopFrom(g, p, path[0]);
      if q.None? || k !in rows then None
      else
        var l := RowHop(rows[k], g[p], path[0]);
        if l.None? then None else RowAlong(g, q.value, rows, l.value, path[1..])
  }

  ghost predicate RowsShowAt(g: Memory, p: Ptr, rows: Rows, k: Key, path: PointerPath) {
    var q, l := Reached(g, p, path), RowAlong(g, p, rows, k, path);
    q.Some? ==> q.value in g && l.Some? && l.value in rows && RowShows(rows[l.value], g[q.value])
  }

  /** The rows show every object reached, along every path that leads to it. */
  ghost predicate RowsShow(g: Memory, p: Ptr, rows: Rows, k: Key) {
    forall path :: RowsShowAt(g, p, rows, k, path)
  }

  // ----- the unfolding shows the structure -----

  lemma {:induction false} UnfoldFieldsAt(g: Memory, rank: map<Ptr, nat>, fs: seq<Field>, bound: nat, i: nat)
    requires Acyclic(g, rank) && forall j :: 0 <= j < |fs| ==> FieldBelow(g, rank, fs[j], bound)
    requires i < |fs|
    ensures UnfoldFields(g, rank, fs, bound)[i] == UnfoldField(g, rank, fs[i], bound)
    decreases |fs|
  {
    if i < |fs| - 1 {
      UnfoldFieldsAt(g, rank, fs[..|fs| - 1], bound, i);
    }
  }

  lemma {:induction false} StoredOfFront(ps: seq<Option<Ptr>>, n: nat, e: nat)
    requires e <= n <= |ps|
    ensures StoredBefore(ps[..n], e) == StoredBefore(ps, e)
  {
    if e > 0 {
      StoredOfFront(ps, n, e - 1);
    }
  }

  lemma {:induction false} StoredGrows(ps: seq<Option<Ptr>>, e: nat)
    requires e < |ps| && ps[e].Some?
    ensures StoredBefore(ps, e) < StoredBefore(ps, |ps|)
    decreases |ps|
  {
    StoredOfFront(ps, |ps| - 1, e);
    StoredOfFront(ps, |ps| - 1, |ps| - 1);
    if e < |ps| - 1 {
      StoredGrows(ps[..|ps| - 1], e);
    }
  }

  lemma {:induction false} UnfoldListSize(g: Memory, rank: map<Ptr, nat>, ps: seq<Option<Ptr>>, bound: nat)
    requires Acyclic(g, rank) && FieldBelow(g, rank, Pointers(ps), bound)
    ensures |UnfoldList(g, rank, ps, bound)| == StoredBefore(ps, |ps|)
    decreases |ps|
  {
    if ps != [] {
      StoredOfFront(ps, |ps| - 1, |ps| - 1);
      UnfoldListSize(g, rank, ps[..|ps| - 1], bound);
    }
  }

  lemma {:induction false} UnfoldListAt(g: Memory, rank: map<Ptr, nat>, ps: seq<Option<Ptr>>, bound: nat, e: nat)
    requires Acyclic(g, rank) && FieldBelow(g, rank, Pointers(ps), bound) && e < |ps| && ps[e].Some?
    ensures StoredBefore(ps, e) < |UnfoldList(g, rank, ps, bound)|
    ensures UnfoldList(g, rank, ps, bound)[StoredBefore(ps, e)] == Unfold(g, rank, ps[e].value)
    decreases |ps|
  {
    StoredOfFront(ps, |ps| - 1, e);
    StoredOfFront(ps, |ps| - 1, |ps| - 1);
    UnfoldListSize(g, rank, ps[..|ps| - 1], bound);
    if e < |ps| - 1 {
      UnfoldListAt(g, rank, ps[..|ps| - 1], bound, e);
    }
  }

  lemma UnfoldNode(g: Memory, rank: map<Ptr, nat>, p: Ptr)
    requires Acyclic(g, rank) && p in g
    ensures NodeShows(Unfold(g, rank, p), g[p])
  {
    forall i | 0 <= i < |g[p].fields| ensures BranchShows(Unfold(g, rank, p).branches[i], g[p].fields[i]) {
      UnfoldFieldsAt(g, rank, g[p].fields, rank[p], i);
      if g[p].fields[i].Pointers? {
        UnfoldListSize(g, rank, g[p].fields[i].ps, rank[p]);
      }
    }
  }

  lemma UnfoldHop(g: Memory, rank: map<Ptr, nat>, p: Ptr, h: Hop)
    requires Acyclic(g, rank) && p in g && HopFrom(g, p, h).Some?
    ensures var q := HopFrom(g, p, h).value;
      q in g && rank[q] < rank[p] && TreeHop(Unfold(g, rank, p), g[p], h) == Some(Unfold(g, rank, q))
  {
    UnfoldFieldsAt(g, rank, g[p].fields, rank[p], h.property);
    assert FieldBelow(g, rank, g[p].fields[h.property], rank[p]);
    if g[p].fields[h.property].Pointers? {
      UnfoldListAt(g, rank, g[p].fields[h.property].ps, rank[p], h.entry);
    }
  }

  /** Along a path of pointers the unfolding leads to the unfolding of the object reached. */
  lemma {:induction false} UnfoldAlong(g: Memory, rank: map<Ptr, nat>, p: Ptr, path: PointerPath)
    requires Acyclic(g, rank) && p in g && Reached(g, p, path).Some?
    ensures Reached(g, p, path).value in g
    ensures TreeAlong(g, p, Unfold(g, rank, p), path) == Some(Unfold(g, rank, Reached(g, p, path).value))
    decreases |path|
  {
    if path != [] {
      UnfoldHop(g, rank, p, path[0]);
      UnfoldAlong(g, rank, HopFrom(g, p, path[0]).value, path[1..]);
    }
  }

  lemma UnfoldShows(g: Memory, rank: map<Ptr, nat>, p: Ptr)
    requires Acyclic(g, rank) && p in g
    ensures TreeShows(g, p, Unfold(g, rank, p))
  {
    forall path ensures TreeShowsAt(g, p, Unfold(g, rank, p), path) {
      if Reached(g, p, path).Some? {
        UnfoldAlong(g, rank, p, path);
        UnfoldNode(g, rank, Reached(g, p, path).value);
      }
    }
  }

  /** The unfolding is the only tree that shows the structure. */
  lemma {:induction false} OnlyUnfoldShows(g: Memory, rank: map<Ptr, nat>, p: Ptr, t: Tree)
    requires Acyclic(g, rank) && p in g && TreeShows(g, p, t)
    ensures t == Unfold(g, rank, p)
    decreases rank[p], 1
  {
    assert TreeShowsAt(g, p, t, []);
    UnfoldNode(g, rank, p);
    forall i | 0 <= i < |g[p].fields| ensures t.branches[i] == Unfold(g, rank, p).branches[i] {
      OnlyUnfoldShowsField(g, rank, p, t, i);
    }
    assert t.branches == Unfold(g, rank, p).branches;
  }

  lemma {:induction false} OnlyUnfoldShowsField(g: Memory, rank: map<Ptr, nat>, p: Ptr, t: Tree, i: nat)
    requires Acyclic(g, rank) && p in g && TreeShows(g, p, t) && NodeShows(t, g[p]) && i < |g[p].fields|
    ensures t.branches[i] == Unfold(g, rank, p).branches[i]
    decreases rank[p], 0
  {
    UnfoldFieldsAt(g, rank, g[p].fields, rank[p], i);
    assert BranchShows(t.branches[i], g[p].fields[i]) && FieldBelow(g, rank, g[p].fields[i], rank[p]);
    match g[p].fields[i]
    case Scalar(_) =>
    case Values(_) =>
    case Pointer(None) =>
    case Pointer(Some(q)) =>
      ShowsBelow(g, p, t, Hop(i, 0));
      OnlyUnfoldShows(g, rank, q, t.branches[i].child.value);
    case Pointers(ps) =>
      UnfoldListSize(g, rank, ps, rank[p]);
      forall j | 0 <= j < |t.branches[i].children|
        ensures t.branches[i].children[j] == UnfoldList(g, rank, ps, rank[p])[j]
      {
        var e := EntryAt(ps, j);
        UnfoldListAt(g, rank, ps, rank[p], e);
        ShowsBelow(g, p, t, Hop(i, e));
        OnlyUnfoldShows(g, rank, ps[e].value, t.branches[i].children[j]);
      }
  }

  /** The entry stored at a position of the list. */
  lemma {:induction false} EntryAt(ps: seq<Option<Ptr>>, j: nat) returns (e: nat)
    requires j < StoredBefore(ps, |ps|)
    ensures e < |ps| && ps[e].Some? && StoredBefore(ps, e) == j
    decreases |ps|
  {
    StoredOfFront(ps, |ps| - 1, |ps| - 1);
    if j < StoredBefore(ps[..|ps| - 1], |ps| - 1) {
      e := EntryAt(ps[..|ps| - 1], j);
      StoredOfFront(ps, |ps| - 1, e);
    } else {
      e := |ps| - 1;
    }
  }

  lemma ShowsBelow(g: Memory, p: Ptr, t: Tree, h: Hop)
    requires p in g && TreeShows(g, p, t) && HopFrom(g, p, h).Some? && TreeHop(t, g[p], h).Some?
    ensures TreeShows(g, HopFrom(g, p, h).value, TreeHop(t, g[p], h).value)
  {
    forall path ensures TreeShowsAt(g, HopFrom(g, p, h).value, TreeHop(t, g[p], h).value, path) {
      assert TreeShowsAt(g, p, t, [h] + path) && ([h] + path)[1..] == path;
    }
  }

  // ----- rows whose tree is the unfolding show the structure -----

  lemma ShapeHop(g: Memory, rank: map<Ptr, nat>, p: Ptr, rows: Rows, rr: map<Key, nat>, k: Key, h: Hop)
    requires Acyclic(g, rank) && p in g && Sinking(rows, rr) && k in rr && Shape(rows, rr, k) == Unfold(g, rank, p)
    requires HopFrom(g, p, h).Some?
    ensures var q, l := HopFrom(g, p, h).value, RowHop(rows[k], g[p], h);
      q in g && l.Some? && l.value in rr && Shape(rows, rr, l.value) == Unfold(g, rank, q)
  {
    UnfoldHop(g, rank, p, h);
    var c := rows[k].cells[h.property];
    CellShapesAt(rows, rr, rows[k].cells, rr[k], h.property);
    assert CellBelow(c, rr, rr[k]);
    if c.LinksCell? {
      ListShapeAt(rows, rr, c.links, rr[k], StoredBefore(g[p].fields[h.property].ps, h.entry));
    }
  }

  lemma {:induction false} ShapeAlong(g: Memory, rank: map<Ptr, nat>, p: Ptr, rows: Rows, rr: map<Key, nat>, k: Key,
      path: PointerPath)
    requires Acyclic(g, rank) && p in g && Sinking(rows, rr) && k in rr && Shape(rows, rr, k) == Unfold(g, rank, p)
    requires Reached(g, p, path).Some?
    ensures var q, l := Reached(g, p, path).value, RowAlong(g, p, rows, k, path);
      q in g && l.Some? && l.value in rr && Shape(rows, rr, l.value) == Unfold(g, rank, q)
    decreases |path|
  {
    if path != [] {
      ShapeHop(g, rank, p, rows, rr, k, path[0]);
      ShapeAlong(g, rank, HopFrom(g, p, path[0]).value, rows, rr, RowHop(rows[k], g[p], path[0]).value, path[1..]);
    }
  }

  lemma ShapeNode(g: Memory, rank: map<Ptr, nat>, p: Ptr, rows: Rows, rr: map<Key, nat>, k: Key)
    requires Acyclic(g, rank) && p in g && Sinking(rows, rr) && k in rr && Shape(rows, rr, k) == Unfold(g, rank, p)
    ensures RowShows(rows[k], g[p])
  {
    UnfoldNode(g, rank, p);
    forall i | 0 <= i < |g[p].fields| ensures CellShows(rows[k].cells[i], g[p].fields[i]) {
      CellShapesAt(rows, rr, rows[k].cells, rr[k], i);
      assert BranchShows(Unfold(g, rank, p).branches[i], g[p].fields[i]);
      assert CellBelow(rows[k].cells[i], rr, rr[k]);
    }
  }

  lemma ShapeShows(g: Memory, rank: map<Ptr, nat>, p: Ptr, rows: Rows, rr: map<Key, nat>, k: Key)
    requires Acyclic(g, rank) && p in g && Sinking(rows, rr) && k in rr && Shape(rows, rr, k) == Unfold(g, rank, p)
    ensures RowsShow(g, p, rows, k)
  {
    forall path ensures RowsShowAt(g, p, rows, k, path) {
      if Reached(g, p, path).Some? {
        ShapeAlong(g, rank, p, rows, rr, k, path);
        ShapeNode(g, rank, Reached(g, p, path).value, rows, rr, RowAlong(g, p, rows, k, path).value);
      }
    }
  }

  // ----- null pointers -----

  /** No object reached has a null `T*`. */
  ghost predicate NoNullReached(g: Memory, p: Ptr) {
    forall path :: NoNullAt(g, p, path)
  }

  ghost predicate NoNullAt(g: Memory, p: Ptr, path: PointerPath) {
    var q := Reached(g, p, path);
    q.Some? && q.value in g ==> forall i :: 0 <= i < |g[q.value].fields| ==> g[q.value].fields[i] != Pointer(None)
  }

  /** A structure unfolds to a tree that can be exported exactly if none has. */
  lemma FullIsNoNull(g: Memory, rank: map<Ptr, nat>, p: Ptr)
    requires Acyclic(g, rank) && p in g
    ensures Full(Unfold(g, rank, p)) <==> NoNullReached(g, p)
  {
    if Full(Unfold(g, rank, p)) {
      forall path ensures NoNullAt(g, p, path) {
        if Reached(g, p, path).Some? {
          FullAlong(g, rank, p, path);
        }
      }
    }
    if NoNullReached(g, p) {
      NoNullIsFull(g, rank, p);
    }
  }

  lemma {:induction false} FullAlong(g: Memory, rank: map<Ptr, nat>, p: Ptr, path: PointerPath)
    requires Acyclic(g, rank) && p in g && Full(Unfold(g, rank, p)) && Reached(g, p, path).Some?
    ensures NoNullAt(g, p, path)
    decreases |path|
  {
    if path == [] {
      forall i | 0 <= i < |g[p].fields| ensures g[p].fields[i] != Pointer(None) {
        UnfoldFieldsAt(g, rank, g[p].fields, rank[p], i);
        assert FullBranch(Unfold(g, rank, p).branches[i]);
      }
    } else {
      UnfoldHop(g, rank, p, path[0]);
      assert FullBranch(Unfold(g, rank, p).branches[path[0].property]);
      FullAlong(g, rank, HopFrom(g, p, path[0]).value, path[1..]);
    }
  }

  lemma NoNullBelow(g: Memory, p: Ptr, h: Hop)
    requires NoNullReached(g, p) && HopFrom(g, p, h).Some?
    ensures NoNullReached(g, HopFrom(g, p, h).value)
  {
    forall path ensures NoNullAt(g, HopFrom(g, p, h).value, path) {
      assert NoNullAt(g, p, [h] + path) && ([h] + path)[1..] == path;
    }
  }

  lemma {:induction false} NoNullIsFull(g: Memory, rank: map<Ptr, nat>, p: Ptr)
    requires Acyclic(g, rank) && p in g && NoNullReached(g, p)
    ensures Full(Unfold(g, rank, p))
    decreases rank[p], 1
  {
    forall i | 0 <= i < |g[p].fields| ensures FullBranch(Unfold(g, rank, p).branches[i]) {
      NoNullIsFullBranch(g, rank, p, i);
    }
  }

  lemma {:induction false} NoNullIsFullBranch(g: Memory, rank: map<Ptr, nat>, p: Ptr, i: nat)
    requires Acyclic(g, rank) && p in g && NoNullReached(g, p) && i < |g[p].fields|
    ensures FullBranch(Unfold(g, rank, p).branches[i])
    decreases rank[p], 0
  {
    UnfoldFieldsAt(g, rank, g[p].fields, rank[p], i);
    assert NoNullAt(g, p, []);
    assert FieldBelow(g, rank, g[p].fields[i], rank[p]);
    match g[p].fields[i]
    case Scalar(_) =>
    case Values(_) =>
    case Pointer(Some(q)) =>
      NoNullBelow(g, p, Hop(i, 0));
      NoNullIsFull(g, rank, q);
    case Pointer(None) => assert false;
    case Pointers(ps) =>
      UnfoldListSize(g, rank, ps, rank[p]);
      forall j | 0 <= j < |UnfoldList(g, rank, ps, rank[p])| ensures Full(UnfoldList(g, rank, ps, rank[p])[j]) {
        var e := EntryAt(ps, j);
        UnfoldListAt(g, rank, ps, rank[p], e);
        NoNullBelow(g, p, Hop(i, e));
        NoNullIsFull(g, rank, ps[e].value);
      }
  }
}
