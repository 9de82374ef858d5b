/** The trees compared by import and export: the one a pointer structure unfolds to, one
    node per pointer path, with the null entries of pointer lists left out; and the one
    stored in a row and the rows it links to. */
module GraphTrees {
  import opened GraphStore
  import opened Options

  datatype Tree = Tree(cls: Class, branches: seq<Branch>)

  datatype Branch =
    | ScalarBranch(v: int)
    | ValuesBranch(vs: seq<int>)
    | Child(child: Option<Tree>)
    | Children(children: seq<Tree>)

  // ----- the tree of a pointer structure -----

  ghost function Unfold(g: Memory, rank: map<Ptr, nat>, p: Ptr): Tree
    requires Acyclic(g, rank) && p in g
    decreases rank[p], 2
  {
    Tree(g[p].cls, UnfoldFields(g, rank, g[p].fields, rank[p]))
  }

  ghost function UnfoldFields(g: Memory, rank: map<Ptr, nat>, fs: seq<Field>, bound: nat): (bs: seq<Branch>)
    requires Acyclic(g, rank) && forall i :: 0 <= i < |fs| ==> FieldBelow(g, rank, fs[i], bound)
    ensures |bs| == |fs|
    decreases bound, 1, |fs|
  {
    if fs == [] then []
    else UnfoldFields(g, rank, fs[..|fs| - 1], bound) + [UnfoldField(g, rank, fs[|fs| - 1], bound)]
  }

  ghost function UnfoldField(g: Memory, rank: map<Ptr, nat>, f: Field, bound: nat): Branch
    requires Acyclic(g, rank) && FieldBelow(g, rank, f, bound)
    decreases bound, 0
  {
    match f
    case Scalar(v) => ScalarBranch(v)
    case Values(vs) => ValuesBranch(vs)
    case Pointer(p) => Child(if p.None? then None else Some(Unfold(g, rank, p.value)))
    case Pointers(ps) => Children(UnfoldList(g, rank, ps, bound))
  }

  ghost function UnfoldList(g: Memory, rank: map<Ptr, nat>, ps: seq<Option<Ptr>>, bound: nat): seq<Tree>
    requires Acyclic(g, rank) && FieldBelow(g, rank, Pointers(ps), bound)
    decreases bound, 0, |ps|
  {
    if ps == [] then []
    else
      var init := UnfoldList(g, rank, ps[..|ps| - 1], bound);
      var last := ps[|ps| - 1];
      if last.None? then init else init + [Unfold(g, rank, last.value)]
  }

  // ----- the tree of a stored object -----

  /** A cell that links only to rows of smaller rank. */
  predicate CellBelow(c: Cell, rank: map<Key, nat>, bound: nat) {
    match c
    case LinkCell(l) => l.Some? ==> l.value in rank && rank[l.value] < bound
    case LinksCell(ls) => forall i :: 0 <= i < |ls| ==> ls[i] in rank && rank[ls[i]] < bound
    case _ => true
  }

  predicate RowBelow(row: Row, rank: map<Key, nat>, bound: nat) {
    forall i :: 0 <= i < |row.cells| ==> CellBelow(row.cells[i], rank, bound)
  }

  /** The ranked rows exist, and `rank` shows that no path of links among them closes a cycle. */
  predicate Sinking(rows: Rows, rank: map<Key, nat>) {
    forall k :: k in rank ==> k in rows && RowBelow(rows[k], rank, rank[k])
  }

  ghost function Shape(rows: Rows, rank: map<Key, nat>, k: Key): Tree
    requires Sinking(rows, rank) && k in rank
    decreases rank[k], 2
  {
    Tree(rows[k].cls, CellShapes(rows, rank, rows[k].cells, rank[k]))
  }

  ghost function CellShapes(rows: Rows, rank: map<Key, nat>, cs: seq<Cell>, bound: nat): (bs: seq<Branch>)
    requires Sinking(rows, rank) && forall i :: 0 <= i < |cs| ==> CellBelow(cs[i], rank, bound)
    ensures |bs| == |cs|
    decreases bound, 1, |cs|
  {
    if cs == [] then []
    else CellShapes(rows, rank, cs[..|cs| - 1], bound) + [CellShape(rows, rank, cs[|cs| - 1], bound)]
  }

  ghost function CellShape(rows: Rows, rank: map<Key, nat>, c: Cell, bound: nat): Branch
    requires Sinking(rows, rank) && CellBelow(c, rank, bound)
    decreases bound, 0
  {
    match c
    case ScalarCell(v) => ScalarBranch(v)
    case ValuesCell(vs) => ValuesBranch(vs)
    case LinkCell(l) => Child(if l.None? then None else Some(Shape(rows, rank, l.value)))
    case LinksCell(ls) => Children(ListShape(rows, rank, ls, bound))
  }

  ghost function ListShape(rows: Rows, rank: map<Key, nat>, ls: seq<Key>, bound: nat): (ts: seq<Tree>)
    requires Sinking(rows, rank) && CellBelow(LinksCell(ls), rank, bound)
    ensures |ts| == |ls|
    decreases bound, 0, |ls|
  {
    if ls == [] then []
    else ListShape(rows, rank, ls[..|ls| - 1], bound) + [Shape(rows, rank, ls[|ls| - 1])]
  }

  /** All ranked rows are ranked in the other store too, and the same there. */
  predicate SameRows(rows: Rows, rank: map<Key, nat>, rows': Rows, rank': map<Key, nat>) {
    forall k :: k in rank ==> k in rank' && k in rows && k in rows' && rows'[k] == rows[k]
  }

  /** A tree depends on its own rows only, and not on how they are ranked. */
  lemma {:induction false} ShapeIsStable(rows: Rows, rank: map<Key, nat>, rows': Rows, rank': map<Key, nat>, k: Key)
    requires Sinking(rows, rank) && Sinking(rows', rank') && SameRows(rows, rank, rows', rank') && k in rank
    ensures Shape(rows', rank', k) == Shape(rows, rank, k)
    decreases rank[k], 2
  {
    CellShapesAreStable(rows, rank, rows', rank', rows[k].cells, rank[k], rank'[k]);
  }

  lemma {:induction false} CellShapesAreStable(rows: Rows, rank: map<Key, nat>, rows': Rows, rank': map<Key, nat>,
      cs: seq<Cell>, bound: nat, bound': nat)
    requires Sinking(rows, rank) && Sinking(rows', rank') && SameRows(rows, rank, rows', rank')
    requires forall i :: 0 <= i < |cs| ==> CellBelow(cs[i], rank, bound) && CellBelow(cs[i], rank', bound')
    ensures CellShapes(rows', rank', cs, bound') == CellShapes(rows, rank, cs, bound)
    decreases bound, 1, |cs|
  {
    if cs != [] {
      CellShapesAreStable(rows, rank, rows', rank', cs[..|cs| - 1], bound, bound');
      CellShapeIsStable(rows, rank, rows', rank', cs[|cs| - 1], bound, bound');
    }
  }

  lemma {:induction false} CellShapeIsStable(rows: Rows, rank: map<Key, nat>, rows': Rows, rank': map<Key, nat>,
      c: Cell, bound: nat, bound': nat)
    requires Sinking(rows, rank) && Sinking(rows', rank') && SameRows(rows, rank, rows', rank')
    requires CellBelow(c, rank, bound) && CellBelow(c, rank', bound')
    ensures CellShape(rows', rank', c, bound') == CellShape(rows, rank, c, bound)
    decreases bound, 0
  {
    match c
    case ScalarCell(_) =>
    case ValuesCell(_) =>
    case LinkCell(l) =>
      if l.Some? {
        ShapeIsStable(rows, rank, rows', rank', l.value);
      }
    case LinksCell(ls) => ListShapeIsStable(rows, rank, rows', rank', ls, bound, bound');
  }

  lemma {:induction false} ListShapeIsStable(rows: Rows, rank: map<Key, nat>, rows': Rows, rank': map<Key, nat>,
      ls: seq<Key>, bound: nat, bound': nat)
    requires Sinking(rows, rank) && Sinking(rows', rank') && SameRows(rows, rank, rows', rank')
    requires CellBelow(LinksCell(ls), rank, bound) && CellBelow(LinksCell(ls), rank', bound')
    ensures ListShape(rows', rank', ls, bound') == ListShape(rows, rank, ls, bound)
    decreases bound, 0, |ls|
  {
    if ls != [] {
      ListShapeIsStable(rows, rank, rows', rank', ls[..|ls| - 1], bound, bound');
      ShapeIsStable(rows, rank, rows', rank', ls[|ls| - 1]);
    }
  }

  lemma {:induction false} CellShapesAt(rows: Rows, rank: map<Key, nat>, cs: seq<Cell>, bound: nat, i: nat)
    requires Sinking(rows, rank) && forall j :: 0 <= j < |cs| ==> CellBelow(cs[j], rank, bound)
    requires i < |cs|
    ensures CellShapes(rows, rank, cs, bound)[i] == CellShape(rows, rank, cs[i], bound)
    decreases |cs|
  {
    if i < |cs| - 1 {
      CellShapesAt(rows, rank, cs[..|cs| - 1], bound, i);
    }
  }

  lemma {:induction false} ListShapeAt(rows: Rows, rank: map<Key, nat>, ls: seq<Key>, bound: nat, i: nat)
    requires Sinking(rows, rank) && CellBelow(LinksCell(ls), rank, bound) && i < |ls|
    ensures ListShape(rows, rank, ls, bound)[i] == Shape(rows, rank, ls[i])
    decreases |ls|
  {
    if i < |ls| - 1 {
      ListShapeAt(rows, rank, ls[..|ls| - 1], bound, i);
    }
  }

  // ----- counting nodes -----

  /** The nodes of a tree: the non-null pointer paths of the structure it came from. */
  function Nodes(t: Tree): nat {
    1 + BranchesNodes(t.branches)
  }

  function BranchesNodes(bs: seq<Branch>): nat {
    if bs == [] then 0 else BranchesNodes(bs[..|bs| - 1]) + BranchNodes(bs[|bs| - 1])
  }

  function BranchNodes(b: Branch): nat {
    match b
    case ScalarBranch(_) => 0
    case ValuesBranch(_) => 0
    case Child(None) => 0
    case Child(Some(t)) => Nodes(t)
    case Children(ts) => ListNodes(ts)
  }

  function ListNodes(ts: seq<Tree>): nat {
    if ts == [] then 0 else ListNodes(ts[..|ts| - 1]) + Nodes(ts[|ts| - 1])
  }

  // ----- null links -----

  /** No `T*` in the tree is null. */
  predicate Full(t: Tree) {
    forall i :: 0 <= i < |t.branches| ==> FullBranch(t.branches[i])
  }

  predicate FullBranch(b: Branch) {
    match b
    case ScalarBranch(_) => true
    case ValuesBranch(_) => true
    case Child(None) => false
    case Child(Some(t)) => Full(t)
    case Children(ts) => forall i :: 0 <= i < |ts| ==> Full(ts[i])
  }

  /** Structures without null `T*` pointers unfold to trees that can be exported; those
      linked through lists alone have none. */
  lemma {:induction false} UnfoldIsFull(g: Memory, rank: map<Ptr, nat>, p: Ptr)
    requires Acyclic(g, rank) && p in g && NoNullPointer(g)
    ensures Full(Unfold(g, rank, p))
    decreases rank[p], 2
  {
    UnfoldFieldsAreFull(g, rank, g[p].fields, rank[p]);
  }

  ghost predicate NoNullPointer(g: Memory) {
    forall q, i :: q in g && 0 <= i < |g[q].fields| ==> g[q].fields[i] != Pointer(None)
  }

  lemma {:induction false} UnfoldFieldsAreFull(g: Memory, rank: map<Ptr, nat>, fs: seq<Field>, bound: nat)
    requires Acyclic(g, rank) && NoNullPointer(g) && Pointer(None) !in fs
    requires forall i :: 0 <= i < |fs| ==> FieldBelow(g, rank, fs[i], bound)
    ensures forall b :: b in UnfoldFields(g, rank, fs, bound) ==> FullBranch(b)
    decreases bound, 1, |fs|
  {
    if fs != [] {
      UnfoldFieldsAreFull(g, rank, fs[..|fs| - 1], bound);
      match fs[|fs| - 1]
      case Scalar(_) =>
      case Values(_) =>
      case Pointer(q) => UnfoldIsFull(g, rank, q.value);
      case Pointers(ps) => UnfoldListIsFull(g, rank, ps, bound);
    }
  }

  lemma {:induction false} UnfoldListIsFull(g: Memory, rank: map<Ptr, nat>, ps: seq<Option<Ptr>>, bound: nat)
    requires Acyclic(g, rank) && NoNullPointer(g) && FieldBelow(g, rank, Pointers(ps), bound)
    ensures forall t :: t in UnfoldList(g, rank, ps, bound) ==> Full(t)
    decreases bound, 0, |ps|
  {
    if ps != [] {
      UnfoldListIsFull(g, rank, ps[..|ps| - 1], bound);
      if ps[|ps| - 1].Some? {
        UnfoldIsFull(g, rank, ps[|ps| - 1].value);
      }
    }
  }
}
